// The discovery messages and the datagrams SendMsg turns them into (src/Discovery.cc).
module Messages {
  import opened Types
  import opened Wire

  datatype Message =
    | Adv(kind: Kind, pUuid: string, topic: string, info: Address)
    | Unadv(kind: Kind, pUuid: string, topic: string, info: Address)
    | Sub(kind: Kind, pUuid: string, topic: string)
    | Heartbeat(pUuid: string)
    | Bye(pUuid: string)
    | Unknown(pUuid: string)  // a type byte no switch of the source handles; never sent

  const VERSION: nat := 1
  const NOT_USED := "not used"

  // The message types of include/ignition/transport/Packet.hh.
  function TypeCode(m: Message): nat {
    match m
    case Adv(k, _, _, _) => if k == Msg then 1 else 6
    case Sub(k, _, _) => if k == Msg then 2 else 7
    case Unadv(k, _, _, _) => if k == Msg then 3 else 8
    case Heartbeat(_) => 4
    case Bye(_) => 5
    case Unknown(_) => 0
  }

  function HeaderOf(m: Message): HeaderValue {
    HeaderValue(VERSION, m.pUuid, TypeCode(m), 0)
  }

  // The body SendMsg packs, if the message has one.
  function BodyOf(m: Message): Option<Body> {
    match m
    case Adv(_, _, topic, info) => Some(AdvBody(BaseValue(topic, info), NOT_USED))
    case Unadv(_, _, topic, info) => Some(AdvBody(BaseValue(topic, info), NOT_USED))
    case Sub(_, _, topic) => Some(SubBody(topic))
    case _ => None
  }

  // Sizes a std::string can have, and a header length an int can hold.
  predicate Representable(m: Message) {
    |m.pUuid| + 13 < 0x8000_0000 && (BodyOf(m).Some? ==> BodySized(BodyOf(m).value))
  }

  function BodyFieldsOf(m: Message): Fields {
    match BodyOf(m)
    case None => Nil
    case Some(v) => BodyFields(v)
  }

  // The datagram SendMsg sends.  The buffer is zero-filled, and Pack may refuse to write the body or
  // anything at all; SendMsg does not look at what Pack returns and sends the buffer regardless.
  function Datagram(m: Message): string {
    if !HeaderComplete(HeaderOf(m)) then Zeros(13 + |m.pUuid| + LengthOf(BodyFieldsOf(m)))
    else if BodyOf(m).Some? && !BodyComplete(BodyOf(m).value) then
      EncAll(HeaderFields(HeaderOf(m), Nil), Zeros(LengthOf(BodyFieldsOf(m))))
    else EncAll(HeaderFields(HeaderOf(m), BodyFieldsOf(m)), "")
  }

  // The switch of DispatchDiscoveryMsg on the type byte, and the body it unpacks.
  function ParseBody(h: HeaderValue, r: string): Option<Message> {
    if h.kind == 1 || h.kind == 6 || h.kind == 3 || h.kind == 8 then ParseAdvertise(h, ReadBody(AdvertiseMsg, r))
    else if h.kind == 2 || h.kind == 7 then ParseSubscribe(h, ReadBody(SubscriptionMsg, r))
    else if h.kind == 4 then Some(Heartbeat(h.pUuid))
    else if h.kind == 5 then Some(Bye(h.pUuid))
    else Some(Unknown(h.pUuid))
  }

  function ParseAdvertise(h: HeaderValue, body: Option<Read<Body>>): Option<Message> {
    match body
    case Some(Read(AdvBody(base, _), _)) =>
      var kind := if h.kind == 1 || h.kind == 3 then Msg else Srv;
      if h.kind == 1 || h.kind == 6 then Some(Adv(kind, h.pUuid, base.topic, base.info))
      else Some(Unadv(kind, h.pUuid, base.topic, base.info))
    case _ => None
  }

  function ParseSubscribe(h: HeaderValue, body: Option<Read<Body>>): Option<Message> {
    match body
    case Some(Read(SubBody(topic), _)) => Some(Sub(if h.kind == 2 then Msg else Srv, h.pUuid, topic))
    case _ => None
  }

  // What a receiver makes of a buffer that starts with a datagram.
  function Parse(b: string): Option<Message> {
    match ReadHeader(b)
    case None => None
    case Some(Read(h, r)) => ParseBody(h, r)
  }

  const BLANK := Address("", "", "", Process)

  // The message a receiver sees when m is sent: m itself, unless Pack refused.
  function Transmit(m: Message): Message {
    if m.pUuid == "" then Unknown("")
    else match m
      case Adv(k, p, t, a) => if BaseComplete(BaseValue(t, a)) then m else Adv(k, p, "", BLANK)
      case Unadv(k, p, t, a) => if BaseComplete(BaseValue(t, a)) then m else Unadv(k, p, "", BLANK)
      case _ => m
  }

  lemma ZerosSplit(x: nat, y: nat)
    ensures Zeros(x + y) == Zeros(x) + Zeros(y)
  {
  }

  lemma EncEmptyStr(rest: string)
    ensures Enc(Str(""), rest) == Zeros(8) + rest
  {
  }

  const BLANK_HEADER := HeaderValue(0, "", 0, 0)
  const BLANK_BODY := AdvBody(BaseValue("", BLANK), "")

  lemma ZerosInFront(x: nat, y: nat, rest: string)
    ensures Zeros(x) + (Zeros(y) + rest) == Zeros(x + y) + rest
  {
    ZerosSplit(x, y);
  }

  lemma ZeroHeader(rest: string)
    ensures EncAll(HeaderFields(BLANK_HEADER, Nil), rest) == Zeros(13) + rest
  {
    EncHeaderUnfolds(BLANK_HEADER, Nil, rest);
    LEofZero(2);
    LEofZero(1);
    var b4 := Zeros(2) + rest;
    var b3 := Zeros(1) + b4;
    EncEmptyStr(b3);
    ZerosInFront(1, 2, rest);
    ZerosInFront(8, 3, rest);
    ZerosInFront(2, 11, rest);
  }

  lemma ZeroBody(rest: string)
    ensures EncAll(BodyFields(BLANK_BODY), rest) == Zeros(41) + rest
  {
    EncBodyUnfolds(BLANK_BODY, rest);
    var b := Enc(Str(""), rest);
    EncEmptyStr(rest);
    EncBaseUnfolds(BLANK_BODY.base, Nil, b);
    LEofZero(1);
    var e := Zeros(1) + b;
    assert Enc(Int(0, 1), b) == e;
    assert BaseStrs(BLANK_BODY.base) == ["", "", "", ""];
    StrsStep4(e);
    ZerosInFront(1, 8, rest);
    ZerosInFront(32, 9, rest);
  }

  lemma StrsStep4(e: string)
    ensures EncStrs(["", "", "", ""], e) == Zeros(32) + e
  {
    ZeroStrs(4, e);
    assert seq(4, _ => "") == ["", "", "", ""];
  }

  lemma {:induction false} ZeroStrs(k: nat, e: string)
    ensures EncStrs(seq(k, _ => ""), e) == Zeros(8 * k) + e
  {
    if k == 0 {
      assert Zeros(0) + e == e;
    } else {
      ZeroStrs(k - 1, e);
      assert seq(k, _ => "")[1..] == seq(k - 1, _ => "");
      EncEmptyStr(Zeros(8 * (k - 1)) + e);
      ZerosSplit(8, 8 * (k - 1));
      assert Zeros(8) + (Zeros(8 * (k - 1)) + e) == Zeros(8 * k) + e;
    }
  }

  lemma ParseBodyOfEnc(m: Message, junk: string)
    requires !m.Unknown? && Representable(m)
    ensures ParseBody(HeaderOf(m), EncAll(BodyFieldsOf(m), junk)) == Some(m)
  {
    if BodyOf(m).Some? {
      ReadBodyOfEnc(BodyOf(m).value, junk);
    }
  }

  // The body of a refused advertisement arrives as zeros.
  lemma ParseBodyOfZeros(m: Message, n: nat, junk: string)
    requires m.Adv? || m.Unadv?
    requires n >= 41
    ensures ParseBody(HeaderOf(m), Zeros(n) + junk) == Some(m.(topic := "", info := BLANK))
  {
    ZerosSplit(41, n - 41);
    Assoc(Zeros(41), Zeros(n - 41), junk);
    ZeroBody(Zeros(n - 41) + junk);
    ReadBodyOfEnc(BLANK_BODY, Zeros(n - 41) + junk);
  }

  lemma ParseNothing(n: nat, junk: string)
    ensures Parse(Zeros(13 + n) + junk) == Some(Unknown(""))
  {
    ZerosSplit(13, n);
    Assoc(Zeros(13), Zeros(n), junk);
    ZeroHeader(Zeros(n) + junk);
    ReadHeaderOfEnc(BLANK_HEADER, Nil, Zeros(n) + junk);
  }

  lemma ParseHeaderAnd(h: HeaderValue, body: string, junk: string)
    requires HeaderTyped(h)
    ensures Parse(EncAll(HeaderFields(h, Nil), body) + junk) == ParseBody(h, body + junk)
  {
    EncAllRest(HeaderFields(h, Nil), body);
    EncAllRest(HeaderFields(h, Nil), body + junk);
    Assoc(EncAll(HeaderFields(h, Nil), ""), body, junk);
    ReadHeaderOfEnc(h, Nil, body + junk);
  }

  lemma ParseComplete(m: Message, junk: string)
    requires !m.Unknown? && Representable(m)
    ensures Parse(EncAll(HeaderFields(HeaderOf(m), BodyFieldsOf(m)), "") + junk) == Some(m)
  {
    var fs := BodyFieldsOf(m);
    EncHeaderUnfolds(HeaderOf(m), fs, "");
    EncAllRest(fs, junk);
    ParseHeaderAnd(HeaderOf(m), EncAll(fs, ""), junk);
    ParseBodyOfEnc(m, junk);
  }

  // Pack wrote the header and refused the body.
  lemma ParseRefused(m: Message, junk: string)
    requires !m.Unknown? && Representable(m)
    requires BodyOf(m).Some? && !BodyComplete(BodyOf(m).value)
    ensures Parse(EncAll(HeaderFields(HeaderOf(m), Nil), Zeros(LengthOf(BodyFieldsOf(m)))) + junk)
         == Some(if m.Sub? then m else m.(topic := "", info := BLANK))
  {
    var n := LengthOf(BodyFieldsOf(m));
    ParseHeaderAnd(HeaderOf(m), Zeros(n), junk);
    if m.Sub? {
      EncEmptyStr(junk);
      ParseBodyOfEnc(m, junk);
    } else {
      RefusedLength(BodyOf(m).value);
      ParseBodyOfZeros(m, n, junk);
    }
  }

  // A datagram, followed by whatever the 64 KiB receive buffer holds behind it, reads as Transmit.
  lemma ParseDatagram(m: Message, junk: string)
    requires !m.Unknown? && Representable(m)
    ensures Parse(Datagram(m) + junk) == Some(Transmit(m))
  {
    if m.pUuid == "" {
      ParseNothing(LengthOf(BodyFieldsOf(m)), junk);
    } else if BodyOf(m).Some? && !BodyComplete(BodyOf(m).value) {
      ParseRefused(m, junk);
    } else {
      ParseComplete(m, junk);
    }
  }

  lemma RefusedLength(v: Body)
    requires v.AdvBody?
    ensures LengthOf(BodyFields(v)) >= 41
  {
    var f5 := Cons(Str(v.msgTypeName), Nil);
    var f4 := Cons(Int(ScopeCode(v.base.info.scope), 1), f5);
    var f3 := Cons(Str(v.base.info.nUuid), f4);
    var f2 := Cons(Str(v.base.info.ctrl), f3);
    var f1 := Cons(Str(v.base.info.addr), f2);
    assert LengthOf(f4) >= 9;
    assert LengthOf(f3) >= 17;
    assert LengthOf(f2) >= 25;
    assert LengthOf(f1) >= 33;
  }

  // Complete messages are told apart by their datagrams, whatever the buffers hold behind them.
  lemma DatagramInjective(m: Message, m': Message, junk: string, junk': string)
    requires !m.Unknown? && Representable(m) && !m'.Unknown? && Representable(m')
    requires Transmit(m) == m && Transmit(m') == m'
    requires Datagram(m) + junk == Datagram(m') + junk'
    ensures m == m'
  {
    ParseDatagram(m, junk);
    ParseDatagram(m', junk');
  }
}
