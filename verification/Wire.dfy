// The byte format of src/Packet.cc as functions: what Pack writes and what Unpack reads.
// A buffer is a sequence of char, as in the source; integers are stored little-endian, one value
// below 256 per char.  Every packet is a list of fields of two sorts: an unsigned integer of fixed
// width, and a uint64_t length followed by that many chars.
module Wire {
  import opened Types

  function Pow256(w: nat): (r: nat)
    ensures r > 0
  {
    if w == 0 then 1 else 256 * Pow256(w - 1)
  }

  // The w chars memcpy copies out of an unsigned integer.
  function LE(n: nat, w: nat): (s: string)
    ensures |s| == w
  {
    if w == 0 then "" else [(n % 256) as char] + LE(n / 256, w - 1)
  }

  function UnLE(s: string): nat {
    if s == "" then 0 else s[0] as int + 256 * UnLE(s[1..])
  }

  ghost predicate Bytes(s: string) {
    forall i | 0 <= i < |s| :: s[i] as int < 256
  }

  lemma {:induction false} UnLEofLE(n: nat, w: nat)
    requires n < Pow256(w)
    ensures UnLE(LE(n, w)) == n
  {
    if w > 0 {
      UnLEofLE(n / 256, w - 1);
      assert LE(n, w)[1..] == LE(n / 256, w - 1);
    }
  }

  lemma {:induction false} LEofUnLE(s: string)
    requires Bytes(s)
    ensures UnLE(s) < Pow256(|s|)
    ensures LE(UnLE(s), |s|) == s
  {
    if s != "" {
      LEofUnLE(s[1..]);
      var n := UnLE(s);
      assert n % 256 == s[0] as int && n / 256 == UnLE(s[1..]);
    }
  }

  // A freshly resized std::vector<char>.
  function Zeros(n: nat): (s: string)
    ensures |s| == n
    ensures forall i | 0 <= i < n :: s[i] == 0 as char
  {
    seq(n, _ => 0 as char)
  }

  lemma {:induction false} LEofZero(w: nat)
    ensures LE(0, w) == Zeros(w)
  {
    if w > 0 {
      LEofZero(w - 1);
    }
  }

  lemma Cut(a: string, b: string)
    ensures (a + b)[..|a|] == a && (a + b)[|a|..] == b
  {
  }

  // ---- Fields ----

  datatype Field = Int(n: nat, w: nat) | Str(s: string)

  datatype Fields = Nil | Cons(head: Field, tail: Fields)

  // What the parser hands back: the value, and the buffer behind it (the advanced pointer).
  datatype Read<+T> = Read(value: T, rest: string)

  // A std::string's size is a size_t.
  predicate Sized(s: string) {
    |s| < 0x1_0000_0000_0000_0000
  }

  // The chars of one field, in front of what follows it.
  function Enc(f: Field, rest: string): string {
    match f
    case Int(n, w) => LE(n, w) + rest
    case Str(s) => LE(|s|, 8) + (s + rest)
  }

  function EncAll(fs: Fields, rest: string): string {
    match fs
    case Nil => rest
    case Cons(f, tail) => Enc(f, EncAll(tail, rest))
  }

  function LengthOf(fs: Fields): nat {
    match fs
    case Nil => 0
    case Cons(Int(_, w), tail) => w + LengthOf(tail)
    case Cons(Str(s), tail) => 8 + |s| + LengthOf(tail)
  }

  function ReadInt(b: string, w: nat): Option<Read<nat>> {
    if w <= |b| then Some(Read(UnLE(b[..w]), b[w..])) else None
  }

  function ReadStr(b: string): Option<Read<string>> {
    match ReadInt(b, 8)
    case None => None
    case Some(Read(n, r)) => if n <= |r| then Some(Read(r[..n], r[n..])) else None
  }

  lemma Pow256Eight()
    ensures Pow256(1) == 0x100 && Pow256(2) == 0x1_0000
    ensures Pow256(8) == 0x1_0000_0000_0000_0000
  {
  }

  lemma ReadIntOfEnc(n: nat, w: nat, rest: string)
    requires n < Pow256(w)
    ensures ReadInt(Enc(Int(n, w), rest), w) == Some(Read(n, rest))
  {
    UnLEofLE(n, w);
    Cut(LE(n, w), rest);
  }

  lemma ReadStrOfEnc(s: string, rest: string)
    requires Sized(s)
    ensures ReadStr(Enc(Str(s), rest)) == Some(Read(s, rest))
  {
    Pow256Eight();
    ReadIntOfEnc(|s|, 8, s + rest);
    Cut(s, rest);
  }

  // Whatever was read as an integer or as a string prints back to the chars that were consumed.
  lemma EncOfReadInt(b: string, w: nat)
    requires Bytes(b) && ReadInt(b, w).Some?
    ensures var r := ReadInt(b, w).value;
            r.value < Pow256(w) && b == Enc(Int(r.value, w), r.rest) && Bytes(r.rest)
  {
    LEofUnLE(b[..w]);
    assert b == b[..w] + b[w..];
  }

  lemma EncOfReadStr(b: string)
    requires Bytes(b) && ReadStr(b).Some?
    ensures var r := ReadStr(b).value;
            Sized(r.value) && b == Enc(Str(r.value), r.rest) && Bytes(r.rest)
  {
    EncOfReadInt(b, 8);
    Pow256Eight();
    var r := ReadInt(b, 8).value;
    assert r.rest == r.rest[..r.value] + r.rest[r.value..];
  }

  lemma {:induction false} EncAllLength(fs: Fields, rest: string)
    ensures |EncAll(fs, rest)| == LengthOf(fs) + |rest|
  {
    if fs.Cons? {
      EncAllLength(fs.tail, rest);
    }
  }

  // What follows a field list is just appended.
  lemma {:induction false} EncAllRest(fs: Fields, rest: string)
    ensures EncAll(fs, rest) == EncAll(fs, "") + rest
  {
    match fs
    case Nil =>
    case Cons(f, tail) =>
      EncAllRest(tail, rest);
      EncRest(f, EncAll(tail, ""), rest);
  }

  lemma EncRest(f: Field, x: string, y: string)
    ensures Enc(f, x + y) == Enc(f, x) + y
  {
  }

  lemma Assoc(a: string, b: string, c: string)
    ensures a + (b + c) == (a + b) + c
  {
  }

  // ---- Header ----

  datatype HeaderValue = HeaderValue(version: nat, pUuid: string, kind: nat, flags: nat)

  // What the C++ field types can hold; GetHeaderLength returns an int.
  predicate HeaderTyped(h: HeaderValue) {
    h.version < 0x1_0000 && |h.pUuid| + 13 < 0x8000_0000 && h.kind < 0x100 && h.flags < 0x1_0000
  }

  // Header::Pack refuses anything else.
  predicate HeaderComplete(h: HeaderValue) {
    h.version != 0 && h.pUuid != "" && h.kind != 0
  }

  function HeaderFields(h: HeaderValue, tail: Fields): Fields {
    Cons(Int(h.version, 2), Cons(Str(h.pUuid), Cons(Int(h.kind, 1), Cons(Int(h.flags, 2), tail))))
  }

  // Header::Unpack.
  function ReadHeader(b: string): Option<Read<HeaderValue>> {
    match ReadInt(b, 2)
    case None => None
    case Some(Read(version, b1)) =>
      match ReadStr(b1)
      case None => None
      case Some(Read(pUuid, b2)) =>
        match ReadInt(b2, 1)
        case None => None
        case Some(Read(kind, b3)) =>
          match ReadInt(b3, 2)
          case None => None
          case Some(Read(flags, b4)) => Some(Read(HeaderValue(version, pUuid, kind, flags), b4))
  }

  // The chars of a header, in front of what follows it.
  lemma EncHeaderUnfolds(h: HeaderValue, tail: Fields, rest: string)
    ensures EncAll(HeaderFields(h, tail), rest)
         == Enc(Int(h.version, 2), Enc(Str(h.pUuid), Enc(Int(h.kind, 1), Enc(Int(h.flags, 2), EncAll(tail, rest)))))
    ensures EncAll(HeaderFields(h, tail), rest) == EncAll(HeaderFields(h, Nil), EncAll(tail, rest))
  {
    HeaderOnce(h, tail, rest);
    HeaderOnce(h, Nil, EncAll(tail, rest));
  }

  lemma HeaderOnce(h: HeaderValue, tail: Fields, rest: string)
    ensures EncAll(HeaderFields(h, tail), rest)
         == Enc(Int(h.version, 2), Enc(Str(h.pUuid), Enc(Int(h.kind, 1), Enc(Int(h.flags, 2), EncAll(tail, rest)))))
  {
    var f3 := Cons(Int(h.flags, 2), tail);
    var f2 := Cons(Int(h.kind, 1), f3);
    var f1 := Cons(Str(h.pUuid), f2);
    assert EncAll(f2, rest) == Enc(Int(h.kind, 1), EncAll(f3, rest));
    assert EncAll(f1, rest) == Enc(Str(h.pUuid), EncAll(f2, rest));
  }

  lemma ReadHeaderOfEnc(h: HeaderValue, tail: Fields, rest: string)
    requires HeaderTyped(h)
    ensures ReadHeader(EncAll(HeaderFields(h, tail), rest)) == Some(Read(h, EncAll(tail, rest)))
  {
    Pow256Eight();
    HeaderOnce(h, tail, rest);
    var b4 := EncAll(tail, rest);
    var b3 := Enc(Int(h.flags, 2), b4);
    var b2 := Enc(Int(h.kind, 1), b3);
    var b1 := Enc(Str(h.pUuid), b2);
    ReadIntOfEnc(h.version, 2, b1);
    ReadStrOfEnc(h.pUuid, b2);
    ReadIntOfEnc(h.kind, 1, b3);
    ReadIntOfEnc(h.flags, 2, b4);
  }

  lemma EncOfReadHeader(b: string)
    requires Bytes(b) && ReadHeader(b).Some?
    ensures var r := ReadHeader(b).value;
            b == EncAll(HeaderFields(r.value, Nil), r.rest) && Bytes(r.rest)
  {
    var r := ReadHeader(b).value;
    EncOfReadInt(b, 2);
    var b1 := ReadInt(b, 2).value.rest;
    EncOfReadStr(b1);
    var b2 := ReadStr(b1).value.rest;
    EncOfReadInt(b2, 1);
    var b3 := ReadInt(b2, 1).value.rest;
    EncOfReadInt(b3, 2);
    HeaderOnce(r.value, Nil, r.rest);
  }

  // ---- Bodies ----

  function ScopeCode(s: Scope): nat {
    match s
    case Process => 0
    case Host => 1
    case All => 2
    case Other(code) => code
  }

  // The cast of the scope byte; no byte is as large as 256.
  function ScopeOf(n: nat): Option<Scope> {
    if n == 0 then Some(Process)
    else if n == 1 then Some(Host)
    else if n == 2 then Some(All)
    else if n < 256 then Some(Other(n))
    else None
  }

  // AdvertiseBase's own fields.
  datatype BaseValue = BaseValue(topic: string, info: Address)

  // AdvertiseBase::Pack refuses anything else; the control address may be empty.
  predicate BaseComplete(v: BaseValue) {
    v.topic != "" && v.info.addr != "" && v.info.nUuid != ""
  }

  function BaseFields(v: BaseValue, tail: Fields): Fields {
    Cons(Str(v.topic), Cons(Str(v.info.addr), Cons(Str(v.info.ctrl), Cons(Str(v.info.nUuid),
      Cons(Int(ScopeCode(v.info.scope), 1), tail)))))
  }

  // k strings in a row.
  function ReadStrs(b: string, k: nat): (r: Option<Read<seq<string>>>)
    ensures r.Some? ==> |r.value.value| == k
    decreases k, |b|
  {
    if k == 0 then Some(Read([], b)) else
      match ReadStr(b)
      case None => None
      case Some(Read(x, b1)) =>
        match ReadStrs(b1, k - 1)
        case None => None
        case Some(Read(xs, b2)) => Some(Read([x] + xs, b2))
  }

  function EncStrs(xs: seq<string>, rest: string): string {
    if xs == [] then rest else Enc(Str(xs[0]), EncStrs(xs[1..], rest))
  }

  predicate AllSized(xs: seq<string>) {
    forall i | 0 <= i < |xs| :: Sized(xs[i])
  }

  lemma EncStrsCons(x: string, xs: seq<string>, rest: string)
    ensures EncStrs([x] + xs, rest) == Enc(Str(x), EncStrs(xs, rest))
    ensures Sized(x) && AllSized(xs) <==> AllSized([x] + xs)
  {
  }

  lemma {:induction false} ReadStrsOfEnc(xs: seq<string>, rest: string)
    requires AllSized(xs)
    ensures ReadStrs(EncStrs(xs, rest), |xs|) == Some(Read(xs, rest))
  {
    if xs != [] {
      assert xs == [xs[0]] + xs[1..];
      EncStrsCons(xs[0], xs[1..], rest);
      ReadStrsOfEnc(xs[1..], rest);
      ReadStrOfEnc(xs[0], EncStrs(xs[1..], rest));
    }
  }

  ghost predicate StrsAre(b: string, r: Read<seq<string>>) {
    AllSized(r.value) && b == EncStrs(r.value, r.rest) && Bytes(r.rest)
  }

  lemma {:induction false} EncOfReadStrs(b: string, k: nat)
    requires Bytes(b) && ReadStrs(b, k).Some?
    ensures StrsAre(b, ReadStrs(b, k).value)
    decreases k
  {
    if k > 0 {
      var x, r := ReadStrsStep(b, k);
      EncOfReadStrs(x.rest, k - 1);
      assert StrsAre(x.rest, r);
      EncStrsBack(b, x, r);
    }
  }

  lemma EncStrsBack(b: string, x: Read<string>, r: Read<seq<string>>)
    requires Sized(x.value) && b == Enc(Str(x.value), x.rest)
    requires StrsAre(x.rest, r)
    ensures StrsAre(b, Read([x.value] + r.value, r.rest))
  {
  }

  lemma ReadStrsStep(b: string, k: nat) returns (x: Read<string>, r: Read<seq<string>>)
    requires Bytes(b) && k > 0 && ReadStrs(b, k).Some?
    ensures Sized(x.value) && b == Enc(Str(x.value), x.rest) && Bytes(x.rest)
    ensures ReadStrs(x.rest, k - 1) == Some(r)
    ensures ReadStrs(b, k) == Some(Read([x.value] + r.value, r.rest))
  {
    EncOfReadStr(b);
    x := ReadStr(b).value;
    r := ReadStrs(x.rest, k - 1).value;
  }

  function ReadScope(b: string): Option<Read<Scope>> {
    match ReadInt(b, 1)
    case None => None
    case Some(Read(code, r)) =>
      match ScopeOf(code)
      case None => None
      case Some(scope) => Some(Read(scope, r))
  }

  function BaseOf(xs: seq<string>, scope: Scope): BaseValue
    requires |xs| == 4
  {
    BaseValue(xs[0], Address(xs[1], xs[2], xs[3], scope))
  }

  // AdvertiseBase::UnpackBody.
  function ReadBase(b: string): Option<Read<BaseValue>> {
    match ReadStrs(b, 4)
    case None => None
    case Some(Read(xs, b4)) =>
      match ReadScope(b4)
      case None => None
      case Some(Read(scope, b5)) => Some(Read(BaseOf(xs, scope), b5))
  }

  function BaseStrs(v: BaseValue): (xs: seq<string>)
    ensures |xs| == 4
  {
    [v.topic, v.info.addr, v.info.ctrl, v.info.nUuid]
  }

  lemma EncBaseUnfolds(v: BaseValue, tail: Fields, rest: string)
    ensures EncAll(BaseFields(v, tail), rest)
         == EncStrs(BaseStrs(v), Enc(Int(ScopeCode(v.info.scope), 1), EncAll(tail, rest)))
  {
    var end := Enc(Int(ScopeCode(v.info.scope), 1), EncAll(tail, rest));
    var f4 := Cons(Int(ScopeCode(v.info.scope), 1), tail);
    var f3 := Cons(Str(v.info.nUuid), f4);
    var f2 := Cons(Str(v.info.ctrl), f3);
    var f1 := Cons(Str(v.info.addr), f2);
    StrsStep(v.info.nUuid, [], f4, rest, end);
    StrsStep(v.info.ctrl, [v.info.nUuid], f3, rest, end);
    StrsStep(v.info.addr, [v.info.ctrl, v.info.nUuid], f2, rest, end);
    StrsStep(v.topic, [v.info.addr, v.info.ctrl, v.info.nUuid], f1, rest, end);
  }

  lemma StrsStep(x: string, xs: seq<string>, f: Fields, rest: string, end: string)
    requires EncAll(f, rest) == EncStrs(xs, end)
    ensures EncAll(Cons(Str(x), f), rest) == EncStrs([x] + xs, end)
  {
  }

  predicate BaseSized(v: BaseValue) {
    Sized(v.topic) && Sized(v.info.addr) && Sized(v.info.ctrl) && Sized(v.info.nUuid)
  }

  lemma ScopeByteIs(b: string, scope: Scope, rest: string)
    requires ReadInt(b, 1) == Some(Read(ScopeCode(scope), rest))
    ensures ReadScope(b) == Some(Read(scope, rest))
  {
  }

  lemma BaseParts(v: BaseValue)
    ensures BaseOf(BaseStrs(v), v.info.scope) == v
  {
  }

  // ReadBase is four strings and a scope.
  lemma ReadBaseIs(b: string, v: BaseValue, b4: string, rest: string)
    requires ReadStrs(b, 4) == Some(Read(BaseStrs(v), b4))
    requires ReadScope(b4) == Some(Read(v.info.scope, rest))
    ensures ReadBase(b) == Some(Read(v, rest))
  {
    BaseParts(v);
  }

  lemma ReadBaseOfEnc(v: BaseValue, tail: Fields, rest: string)
    requires BaseSized(v)
    ensures ReadBase(EncAll(BaseFields(v, tail), rest)) == Some(Read(v, EncAll(tail, rest)))
  {
    var code, end := ScopeCode(v.info.scope), EncAll(tail, rest);
    var b4 := Enc(Int(code, 1), end);
    EncBaseUnfolds(v, tail, rest);
    ReadStrsOfEnc(BaseStrs(v), b4);
    ReadScopeOfEnc(v.info.scope, end);
    ReadBaseIs(EncAll(BaseFields(v, tail), rest), v, b4, end);
  }

  lemma ReadScopeOfEnc(scope: Scope, rest: string)
    ensures ReadScope(Enc(Int(ScopeCode(scope), 1), rest)) == Some(Read(scope, rest))
  {
    Pow256Eight();
    ReadIntOfEnc(ScopeCode(scope), 1, rest);
    ScopeByteIs(Enc(Int(ScopeCode(scope), 1), rest), scope, rest);
  }

  lemma EncOfReadScope(b: string)
    requires Bytes(b) && ReadScope(b).Some?
    ensures var r := ReadScope(b).value; b == Enc(Int(ScopeCode(r.value), 1), r.rest) && Bytes(r.rest)
  {
    EncOfReadInt(b, 1);
  }

  lemma EncOfReadBase(b: string)
    requires Bytes(b) && ReadBase(b).Some?
    ensures var r := ReadBase(b).value;
            b == EncAll(BaseFields(r.value, Nil), r.rest) && BaseSized(r.value) && Bytes(r.rest)
  {
    var r := ReadBase(b).value;
    EncOfReadStrs(b, 4);
    var xs := ReadStrs(b, 4).value;
    EncOfReadScope(xs.rest);
    assert xs.value == BaseStrs(r.value);
    EncBaseUnfolds(r.value, Nil, r.rest);
  }

  datatype BodyClass = SubscriptionMsg | AdvertiseMsg | AdvertiseSrv

  datatype Body =
    | SubBody(topic: string)
    | AdvBody(base: BaseValue, msgTypeName: string)
    | SrvBody(base: BaseValue, reqTypeName: string, repTypeName: string)

  function ClassOf(v: Body): BodyClass {
    match v
    case SubBody(_) => SubscriptionMsg
    case AdvBody(_, _) => AdvertiseMsg
    case SrvBody(_, _, _) => AdvertiseSrv
  }

  function BodyFields(v: Body): Fields {
    match v
    case SubBody(t) => Cons(Str(t), Nil)
    case AdvBody(base, m) => BaseFields(base, Cons(Str(m), Nil))
    case SrvBody(base, q, p) => BaseFields(base, Cons(Str(q), Cons(Str(p), Nil)))
  }

  predicate BodyComplete(v: Body) {
    match v
    case SubBody(t) => t != ""
    case AdvBody(base, m) => BaseComplete(base) && m != ""
    case SrvBody(base, q, p) => BaseComplete(base) && q != "" && p != ""
  }

  // The three UnpackBody functions.
  function ReadBody(c: BodyClass, b: string): Option<Read<Body>> {
    match c
    case SubscriptionMsg => (
      match ReadStr(b)
      case None => None
      case Some(Read(t, r)) => Some(Read(SubBody(t), r)))
    case AdvertiseMsg => (
      match ReadBase(b)
      case None => None
      case Some(Read(base, r)) =>
        match ReadStr(r)
        case None => None
        case Some(Read(m, r')) => Some(Read(AdvBody(base, m), r')))
    case AdvertiseSrv =>
      match ReadBase(b)
      case None => None
      case Some(Read(base, r)) =>
        match ReadStrs(r, 2)
        case None => None
        case Some(Read(xs, r2)) => Some(Read(SrvBody(base, xs[0], xs[1]), r2))
  }

  // A body is read exactly when its parts are.
  lemma ReadBodyParts(c: BodyClass, b: string)
    ensures c == SubscriptionMsg && ReadBody(c, b).Some? ==> ReadStr(b).Some?
    ensures c != SubscriptionMsg && ReadBody(c, b).Some? ==> ReadBase(b).Some?
    ensures c == AdvertiseMsg && ReadBody(c, b).Some? ==> ReadStr(ReadBase(b).value.rest).Some?
    ensures c == AdvertiseSrv && ReadBody(c, b).Some? ==> ReadStrs(ReadBase(b).value.rest, 2).Some?
  {
  }

  lemma AdvBodyIs(b: string, base: Read<BaseValue>, m: Read<string>)
    requires ReadBase(b) == Some(base) && ReadStr(base.rest) == Some(m)
    ensures ReadBody(AdvertiseMsg, b) == Some(Read(AdvBody(base.value, m.value), m.rest))
  {
  }

  lemma SrvBodyIs(b: string, base: Read<BaseValue>, q: string, p: Read<string>)
    requires ReadBase(b) == Some(base) && ReadStrs(base.rest, 2) == Some(Read([q, p.value], p.rest))
    ensures ReadBody(AdvertiseSrv, b) == Some(Read(SrvBody(base.value, q, p.value), p.rest))
  {
  }

  predicate BodySized(v: Body) {
    match v
    case SubBody(t) => Sized(t)
    case AdvBody(base, m) => BaseSized(base) && Sized(m)
    case SrvBody(base, q, p) => BaseSized(base) && Sized(q) && Sized(p)
  }

  // Each body as its common part in front of its own strings.
  function BodyChars(v: Body, rest: string): string {
    match v
    case SubBody(t) => Enc(Str(t), rest)
    case AdvBody(base, m) => EncAll(BaseFields(base, Nil), Enc(Str(m), rest))
    case SrvBody(base, q, p) => EncAll(BaseFields(base, Nil), EncStrs([q, p], rest))
  }

  lemma EncBodyUnfolds(v: Body, rest: string)
    ensures EncAll(BodyFields(v), rest) == BodyChars(v, rest)
  {
    match v
    case SubBody(t) =>
    case AdvBody(base, m) =>
      EncBaseUnfolds(base, Cons(Str(m), Nil), rest);
      EncBaseUnfolds(base, Nil, Enc(Str(m), rest));
    case SrvBody(base, q, p) =>
      var tail := Cons(Str(p), Nil);
      StrsStep(p, [], Nil, rest, rest);
      StrsStep(q, [p], tail, rest, rest);
      assert [q] + [p] == [q, p];
      EncBaseUnfolds(base, Cons(Str(q), tail), rest);
      EncBaseUnfolds(base, Nil, EncStrs([q, p], rest));
  }

  lemma ReadBodyOfEnc(v: Body, rest: string)
    requires BodySized(v)
    ensures ReadBody(ClassOf(v), EncAll(BodyFields(v), rest)) == Some(Read(v, rest))
  {
    EncBodyUnfolds(v, rest);
    match v
    case SubBody(t) => ReadStrOfEnc(t, rest);
    case AdvBody(base, m) =>
      ReadBaseOfEnc(base, Nil, Enc(Str(m), rest));
      ReadStrOfEnc(m, rest);
    case SrvBody(base, q, p) =>
      ReadBaseOfEnc(base, Nil, EncStrs([q, p], rest));
      ReadStrsOfEnc([q, p], rest);
  }

  lemma EncOfReadBody(c: BodyClass, b: string)
    requires Bytes(b) && ReadBody(c, b).Some?
    ensures var r := ReadBody(c, b).value;
            ClassOf(r.value) == c && b == EncAll(BodyFields(r.value), r.rest)
  {
    var r := ReadBody(c, b).value;
    EncBodyUnfolds(r.value, r.rest);
    match c
    case SubscriptionMsg => EncOfReadStr(b);
    case AdvertiseMsg =>
      EncOfReadBase(b);
      EncOfReadStr(ReadBase(b).value.rest);
    case AdvertiseSrv =>
      EncOfReadBase(b);
      EncOfReadStrs(ReadBase(b).value.rest, 2);
      assert ReadStrs(ReadBase(b).value.rest, 2).value.value == [r.value.reqTypeName, r.value.repTypeName];
  }

  // ---- Whole packets ----

  function PacketFields(h: HeaderValue, v: Body): Fields {
    HeaderFields(h, BodyFields(v))
  }

  // Header::Unpack, then UnpackBody on what is behind the header.
  function ReadPacket(c: BodyClass, b: string): Option<Read<(HeaderValue, Body)>> {
    match ReadHeader(b)
    case None => None
    case Some(Read(h, r)) =>
      match ReadBody(c, r)
      case None => None
      case Some(Read(v, r')) => Some(Read((h, v), r'))
  }

  // Printing, then parsing in front of anything at all, gives every field back and stops exactly
  // behind what was printed.
  lemma PacketRoundTrip(h: HeaderValue, v: Body, junk: string)
    requires HeaderTyped(h) && BodySized(v)
    ensures ReadPacket(ClassOf(v), EncAll(PacketFields(h, v), "") + junk) == Some(Read((h, v), junk))
  {
    EncAllRest(PacketFields(h, v), junk);
    ReadHeaderOfEnc(h, BodyFields(v), junk);
    ReadBodyOfEnc(v, junk);
  }

  // Parsing, then printing, gives back exactly the chars that were consumed.
  lemma PacketParsePrint(c: BodyClass, b: string)
    requires Bytes(b) && ReadPacket(c, b).Some?
    ensures var r := ReadPacket(c, b).value;
            b == EncAll(PacketFields(r.value.0, r.value.1), "") + r.rest
  {
    var r := ReadPacket(c, b).value;
    EncOfReadHeader(b);
    EncOfReadBody(c, ReadHeader(b).value.rest);
    EncHeaderUnfolds(r.value.0, BodyFields(r.value.1), r.rest);
    EncAllRest(PacketFields(r.value.0, r.value.1), r.rest);
  }

  // Prefix-free, hence injective, per message class.
  lemma PacketPrefixFree(h1: HeaderValue, v1: Body, s1: string, h2: HeaderValue, v2: Body, s2: string)
    requires HeaderTyped(h1) && BodySized(v1) && HeaderTyped(h2) && BodySized(v2)
    requires ClassOf(v1) == ClassOf(v2)
    requires EncAll(PacketFields(h1, v1), "") + s1 == EncAll(PacketFields(h2, v2), "") + s2
    ensures h1 == h2 && v1 == v2 && s1 == s2
  {
    PacketRoundTrip(h1, v1, s1);
    PacketRoundTrip(h2, v2, s2);
  }
}
