// src/Packet.cc: packing into and unpacking out of a char buffer at a moving pointer.  A pointer is an
// array and an offset; null is the null array.  GetHeader() returns a copy in the source, so messages
// hold their header as a value and pack a copy of it.
module Packet {
  import opened Types
  import opened Wire

  // b with e written over it at off.
  function Patched(b: string, off: nat, e: string): string
    requires off + |e| <= |b|
  {
    b[..off] + e + b[off + |e|..]
  }

  lemma PatchedTwice(b: string, off: nat, x: string, y: string)
    requires off + |x| + |y| <= |b|
    ensures Patched(Patched(b, off, x), off + |x|, y) == Patched(b, off, x + y)
  {
  }

  // In the middle of packing the fields all at off: done is written, rest is still to come and goes
  // to pos.
  ghost predicate WritingAfter(b0: string, b: string, off: nat, pos: nat, all: Fields, rest: Fields, done: string) {
    && off + |EncAll(all, "")| <= |b0| && EncAll(all, "") == done + EncAll(rest, "")
    && pos == off + |done| && b == Patched(b0, off, done)
  }

  ghost predicate Writing(b0: string, b: string, off: nat, pos: nat, all: Fields, rest: Fields) {
    exists done :: WritingAfter(b0, b, off, pos, all, rest, done)
  }

  lemma WritingStarts(b: string, off: nat, all: Fields)
    requires off + LengthOf(all) <= |b|
    ensures Writing(b, b, off, off, all, all)
  {
    EncAllLength(all, "");
    assert Patched(b, off, "") == b;
    assert "" + EncAll(all, "") == EncAll(all, "");
    assert WritingAfter(b, b, off, off, all, all, "");
  }

  lemma WritingEnds(b0: string, b: string, off: nat, pos: nat, all: Fields)
    requires Writing(b0, b, off, pos, all, Nil)
    ensures pos == off + LengthOf(all) && off + LengthOf(all) == off + |EncAll(all, "")| <= |b0|
    ensures b == Patched(b0, off, EncAll(all, ""))
  {
    EncAllLength(all, "");
    var done :| WritingAfter(b0, b, off, pos, all, Nil, done);
    assert done + "" == done;
  }

  lemma WritingGoesOn(b0: string, b: string, off: nat, pos: nat, all: Fields, f: Field, tail: Fields)
    requires Writing(b0, b, off, pos, all, Cons(f, tail))
    ensures pos + |Enc(f, "")| <= |b|
    ensures Writing(b0, Patched(b, pos, Enc(f, "")), off, pos + |Enc(f, "")|, all, tail)
  {
    var done :| WritingAfter(b0, b, off, pos, all, Cons(f, tail), done);
    var x, r := Enc(f, ""), EncAll(tail, "");
    EncRest(f, "", r);
    assert "" + r == r;
    Assoc(done, x, r);
    PatchedTwice(b0, off, done, x);
    assert WritingAfter(b0, Patched(b, pos, x), off, pos + |x|, all, tail, done + x);
  }

  // memcpy into the buffer.
  method CopyIn(buf: array<char>, off: nat, src: string)
    requires off + |src| <= buf.Length
    modifies buf
    ensures buf[..] == Patched(old(buf[..]), off, src)
  {
    for i := 0 to |src|
      invariant forall j | 0 <= j < buf.Length :: buf[j] == if off <= j < off + i then src[j - off] else old(buf[j])
    {
      buf[off + i] := src[i];
    }
  }

  // Two memcpys in a row: a length, then the chars.
  method CopyBoth(buf: array<char>, off: nat, x: string, y: string)
    requires off + |x| + |y| <= buf.Length
    modifies buf
    ensures buf[..] == Patched(old(buf[..]), off, x + y)
  {
    PatchedTwice(buf[..], off, x, y);
    CopyIn(buf, off, x);
    CopyIn(buf, off + |x|, y);
  }

  method PutInt(buf: array<char>, pos: nat, n: nat, w: nat,
                ghost b0: string, ghost off: nat, ghost all: Fields, ghost tail: Fields) returns (next: nat)
    requires Writing(b0, buf[..], off, pos, all, Cons(Int(n, w), tail))
    modifies buf
    ensures next == pos + w
    ensures Writing(b0, buf[..], off, next, all, tail)
  {
    WritingGoesOn(b0, buf[..], off, pos, all, Int(n, w), tail);
    assert Enc(Int(n, w), "") == LE(n, w);
    CopyIn(buf, pos, LE(n, w));
    next := pos + w;
  }

  method PutStr(buf: array<char>, pos: nat, s: string,
                ghost b0: string, ghost off: nat, ghost all: Fields, ghost tail: Fields) returns (next: nat)
    requires Writing(b0, buf[..], off, pos, all, Cons(Str(s), tail))
    modifies buf
    ensures next == pos + 8 + |s|
    ensures Writing(b0, buf[..], off, next, all, tail)
  {
    EncStrAlone(s);
    WritingGoesOn(b0, buf[..], off, pos, all, Str(s), tail);
    CopyBoth(buf, pos, LE(|s|, 8), s);
    next := pos + 8 + |s|;
  }

  lemma EncStrAlone(s: string)
    ensures Enc(Str(s), "") == LE(|s|, 8) + s
  {
  }

  // memcpy out of the buffer.
  method GetInt(buf: array<char>, pos: nat, w: nat) returns (n: nat)
    requires pos <= buf.Length && ReadInt(buf[pos..], w).Some?
    ensures pos + w <= buf.Length
    ensures ReadInt(buf[pos..], w) == Some(Read(n, buf[pos + w..]))
  {
    n := 0;
    var i := w;
    assert buf[pos..][..w] == buf[pos..pos + w];
    assert buf[pos..][w..] == buf[pos + w..];
    while i > 0
      invariant 0 <= i <= w
      invariant n == UnLE(buf[pos + i..pos + w])
    {
      i := i - 1;
      assert buf[pos + i..pos + w][1..] == buf[pos + i + 1..pos + w];
      n := buf[pos + i] as int + 256 * n;
    }
  }

  method GetStr(buf: array<char>, pos: nat) returns (s: string, next: nat)
    requires pos <= buf.Length && ReadStr(buf[pos..]).Some?
    ensures next == pos + 8 + |s| <= buf.Length
    ensures ReadStr(buf[pos..]) == Some(Read(s, buf[next..]))
  {
    var n := GetInt(buf, pos, 8);
    var at := pos + 8;
    s := buf[at..at + n];
    next := at + n;
    assert buf[at..][..n] == s;
    assert buf[at..][n..] == buf[next..];
  }

  class Header {
    var version: nat
    var pUuid: string
    var kind: nat
    var flags: nat

    constructor (h: HeaderValue)
      ensures Value() == h
    {
      version, pUuid, kind, flags := h.version, h.pUuid, h.kind, h.flags;
    }

    function Value(): HeaderValue reads this {
      HeaderValue(version, pUuid, kind, flags)
    }

    // The number of chars Pack writes.
    function GetHeaderLength(): (n: nat)
      reads this
      ensures n == |EncAll(HeaderFields(Value(), Nil), "")|
    {
      HeaderLength(Value());
      2 + 8 + |pUuid| + 1 + 2
    }

    // Writes exactly the header, or refuses and writes nothing.
    method Pack(buf: array?<char>, off: nat) returns (len: nat)
      requires buf != null ==> off + GetHeaderLength() <= buf.Length
      modifies buf
      ensures len == if HeaderComplete(Value()) && buf != null then GetHeaderLength() else 0
      ensures buf != null ==>
        buf[..] == if len > 0 then Patched(old(buf[..]), off, EncAll(HeaderFields(Value(), Nil), ""))
                                         else old(buf[..])
    {
      if version == 0 || pUuid == "" || kind == 0 {
        return 0;
      }
      if buf == null {
        return 0;
      }
      ghost var b0 := buf[..];
      ghost var f0 := HeaderFields(Value(), Nil);
      EncAllLength(f0, "");
      WritingStarts(b0, off, f0);
      var pos := PutInt(buf, off, version, 2, b0, off, f0, f0.tail);
      pos := PutStr(buf, pos, pUuid, b0, off, f0, f0.tail.tail);
      pos := PutInt(buf, pos, kind, 1, b0, off, f0, f0.tail.tail.tail);
      pos := PutInt(buf, pos, flags, 2, b0, off, f0, Nil);
      WritingEnds(b0, buf[..], off, pos, f0);
      return GetHeaderLength();
    }

    // Reads back whatever ReadHeader finds and returns how far it got.
    method Unpack(buf: array?<char>, off: nat) returns (len: nat)
      requires buf != null ==> off <= buf.Length && ReadHeader(buf[off..]).Some?
      modifies this
      ensures buf == null ==> len == 0 && Value() == old(Value())
      ensures buf != null ==> len == GetHeaderLength() && off + len <= buf.Length
      ensures buf != null ==> ReadHeader(old(buf[off..])) == Some(Read(Value(), old(buf[off + len..])))
    {
      if buf == null {
        return 0;
      }
      version := GetInt(buf, off, 2);
      var pos := off + 2;
      pUuid, pos := GetStr(buf, pos);
      kind := GetInt(buf, pos, 1);
      flags := GetInt(buf, pos + 1, 2);
      return GetHeaderLength();
    }
  }

  // ---- What a message's Pack leaves in the buffer ----

  function EncHeader(h: HeaderValue): string {
    EncAll(HeaderFields(h, Nil), "")
  }

  function EncBase(v: BaseValue): string {
    EncAll(BaseFields(v, Nil), "")
  }

  function EncBody(v: Body): string {
    EncAll(BodyFields(v), "")
  }

  // Each class packs in stages and stops at the first one that refuses: the header, for the advertise
  // messages the common fields, then the rest.
  function Written(h: HeaderValue, v: Body): string {
    if !HeaderComplete(h) then ""
    else if BodyComplete(v) then EncHeader(h) + EncBody(v)
    else if v.SubBody? || !BaseComplete(v.base) then EncHeader(h)
    else EncHeader(h) + EncBase(v.base)
  }

  function LengthOfMsg(h: HeaderValue, v: Body): nat {
    13 + |h.pUuid| + LengthOf(BodyFields(v))
  }

  lemma HeaderLength(h: HeaderValue)
    ensures |EncHeader(h)| == LengthOf(HeaderFields(h, Nil)) == 13 + |h.pUuid|
  {
    EncAllLength(HeaderFields(h, Nil), "");
    var f3 := Cons(Int(h.flags, 2), Nil);
    var f2 := Cons(Int(h.kind, 1), f3);
    var f1 := Cons(Str(h.pUuid), f2);
    assert LengthOf(f3) == 2;
    assert LengthOf(f2) == 3;
    assert LengthOf(f1) == 8 + |h.pUuid| + 3;
  }

  lemma BaseLength(v: BaseValue, tail: Fields)
    ensures LengthOf(BaseFields(v, tail))
         == 33 + |v.topic| + |v.info.addr| + |v.info.ctrl| + |v.info.nUuid| + LengthOf(tail)
  {
    var f4 := Cons(Int(ScopeCode(v.info.scope), 1), tail);
    var f3 := Cons(Str(v.info.nUuid), f4);
    var f2 := Cons(Str(v.info.ctrl), f3);
    var f1 := Cons(Str(v.info.addr), f2);
    assert LengthOf(f3) == 8 + |v.info.nUuid| + LengthOf(f4);
    assert LengthOf(f2) == 8 + |v.info.ctrl| + LengthOf(f3);
    assert LengthOf(f1) == 8 + |v.info.addr| + LengthOf(f2);
  }

  lemma BodyLength(v: Body)
    ensures |EncBody(v)| == LengthOf(BodyFields(v))
    ensures v.SubBody? ==> LengthOf(BodyFields(v)) == 8 + |v.topic|
    ensures v.AdvBody? ==> LengthOf(BodyFields(v)) == |EncBase(v.base)| + 8 + |v.msgTypeName|
    ensures v.SrvBody? ==> LengthOf(BodyFields(v)) == |EncBase(v.base)| + 16 + |v.reqTypeName| + |v.repTypeName|
  {
    EncAllLength(BodyFields(v), "");
    match v
    case SubBody(t) =>
    case AdvBody(base, m) =>
      EncAllLength(BaseFields(base, Nil), "");
      BaseLength(base, Nil);
      BaseLength(base, Cons(Str(m), Nil));
    case SrvBody(base, q, p) =>
      EncAllLength(BaseFields(base, Nil), "");
      BaseLength(base, Nil);
      var f := Cons(Str(p), Nil);
      assert LengthOf(f) == 8 + |p|;
      assert LengthOf(Cons(Str(q), f)) == 8 + |q| + LengthOf(f);
      BaseLength(base, Cons(Str(q), f));
  }

  // Pack writes within the message length, and a finished message is its header then its body.
  lemma WrittenFits(h: HeaderValue, v: Body)
    ensures |Written(h, v)| <= LengthOfMsg(h, v)
    ensures HeaderComplete(h) && BodyComplete(v) ==> |Written(h, v)| == LengthOfMsg(h, v)
    ensures EncAll(HeaderFields(h, BodyFields(v)), "") == EncHeader(h) + EncBody(v)
  {
    HeaderLength(h);
    BodyLength(v);
    EncHeaderUnfolds(h, BodyFields(v), "");
    EncAllRest(HeaderFields(h, Nil), EncBody(v));
  }

  lemma EncBodyOf(v: Body)
    ensures v.AdvBody? ==> EncBody(v) == EncBase(v.base) + Enc(Str(v.msgTypeName), "")
    ensures v.SrvBody? ==>
      EncBody(v) == EncBase(v.base) + EncAll(Cons(Str(v.reqTypeName), Cons(Str(v.repTypeName), Nil)), "")
  {
    EncBodyUnfolds(v, "");
    match v
    case SubBody(_) =>
    case AdvBody(base, m) => EncAllRest(BaseFields(base, Nil), Enc(Str(m), ""));
    case SrvBody(base, q, p) =>
      StrsStep(p, [], Nil, "", "");
      StrsStep(q, [p], Cons(Str(p), Nil), "", "");
      assert [q] + [p] == [q, p];
      EncAllRest(BaseFields(base, Nil), EncStrs([q, p], ""));
  }

  lemma AdvLength(v: BaseValue, name: string)
    ensures LengthOf(BodyFields(AdvBody(v, name))) == |EncBase(v)| + 8 + |name|
  {
    BodyLength(AdvBody(v, name));
  }

  lemma SrvLength(v: BaseValue, req: string, rep: string)
    ensures LengthOf(BodyFields(SrvBody(v, req, rep))) == |EncBase(v)| + 16 + |req| + |rep|
  {
    BodyLength(SrvBody(v, req, rep));
  }

  class SubscriptionMsg {
    var header: HeaderValue
    var topic: string

    constructor (header: HeaderValue, topic: string)
      ensures this.header == header && this.topic == topic
    {
      this.header, this.topic := header, topic;
    }

    function Value(): Body reads this {
      SubBody(topic)
    }

    function GetMsgLength(): (n: nat)
      reads this
      ensures n == LengthOfMsg(header, Value())
    {
      BodyLength(Value());
      13 + |header.pUuid| + 8 + |topic|
    }

    method Pack(buf: array?<char>, off: nat) returns (len: nat)
      requires buf != null ==> off + GetMsgLength() <= buf.Length
      modifies buf
      ensures len == if HeaderComplete(header) && BodyComplete(Value()) && buf != null then GetMsgLength() else 0
      ensures buf != null ==> off + |Written(header, Value())| <= buf.Length
      ensures buf != null ==> buf[..] == Patched(old(buf[..]), off, Written(header, Value()))
    {
      WrittenFits(header, Value());
      HeaderLength(header);
      var h := new Header(header);
      var headerLen := h.Pack(buf, off);
      if headerLen == 0 {
        return 0;
      }
      len := PackRest(buf, off, old(buf[..]));
    }

    // Behind the header.
    method PackRest(buf: array<char>, off: nat, ghost b0: string) returns (len: nat)
      requires HeaderComplete(header) && off + GetMsgLength() <= buf.Length == |b0|
      requires off + |EncHeader(header)| <= |b0| && buf[..] == Patched(b0, off, EncHeader(header))
      modifies buf
      ensures len == if BodyComplete(Value()) then GetMsgLength() else 0
      ensures off + |Written(header, Value())| <= |b0| && buf[..] == Patched(b0, off, Written(header, Value()))
    {
      WrittenFits(header, Value());
      HeaderLength(header);
      BodyLength(Value());
      if topic == "" {
        return 0;
      }
      ghost var b1 := buf[..];
      ghost var bf := BodyFields(Value());
      var at := off + 13 + |header.pUuid|;
      WritingStarts(b1, at, bf);
      var pos := PutStr(buf, at, topic, b1, at, bf, Nil);
      WritingEnds(b1, buf[..], at, pos, bf);
      PatchedTwice(b0, off, EncHeader(header), EncBody(Value()));
      return GetMsgLength();
    }

    method UnpackBody(buf: array?<char>, off: nat) returns (len: nat)
      requires buf != null ==> off <= buf.Length && ReadBody(BodyClass.SubscriptionMsg, buf[off..]).Some?
      modifies this
      ensures header == old(header)
      ensures buf == null ==> len == 0 && topic == old(topic)
      ensures buf != null ==> off + len <= buf.Length
      ensures buf != null ==> ReadBody(BodyClass.SubscriptionMsg, old(buf[off..])).value.value == Value()
      ensures buf != null ==> ReadBody(BodyClass.SubscriptionMsg, old(buf[off..])).value.rest == old(buf[off + len..])
    {
      if buf == null {
        return 0;
      }
      var next: nat;
      topic, next := GetStr(buf, off);
      return 8 + |topic|;
    }
  }

  class AdvertiseBase {
    var header: HeaderValue
    var topic: string
    var addr: string
    var ctrl: string
    var nUuid: string
    var scope: Scope

    constructor (header: HeaderValue, v: BaseValue)
      ensures this.header == header && Value() == v
    {
      this.header, topic := header, v.topic;
      addr, ctrl, nUuid, scope := v.info.addr, v.info.ctrl, v.info.nUuid, v.info.scope;
    }

    function Value(): BaseValue reads this {
      BaseValue(topic, Address(addr, ctrl, nUuid, scope))
    }

    function GetMsgLength(): (n: nat)
      reads this
      ensures n == |EncHeader(header)| + |EncBase(Value())|
    {
      HeaderLength(header);
      BaseLength(Value(), Nil);
      EncAllLength(BaseFields(Value(), Nil), "");
      13 + |header.pUuid| + 8 + |topic| + 8 + |addr| + 8 + |ctrl| + 8 + |nUuid| + 1
    }

    function WrittenBase(): string reads this {
      if !HeaderComplete(header) then ""
      else if !BaseComplete(Value()) then EncHeader(header)
      else EncHeader(header) + EncBase(Value())
    }

    method Pack(buf: array?<char>, off: nat) returns (len: nat)
      requires buf != null ==> off + GetMsgLength() <= buf.Length
      modifies buf
      ensures len == if HeaderComplete(header) && BaseComplete(Value()) && buf != null then GetMsgLength() else 0
      ensures buf != null ==> off + |WrittenBase()| <= buf.Length
      ensures buf != null ==> buf[..] == Patched(old(buf[..]), off, WrittenBase())
    {
      HeaderLength(header);
      var h := new Header(header);
      var headerLen := h.Pack(buf, off);
      if headerLen == 0 {
        return 0;
      }
      len := PackRest(buf, off, old(buf[..]));
    }

    // Behind the header.
    method PackRest(buf: array<char>, off: nat, ghost b0: string) returns (len: nat)
      requires HeaderComplete(header) && off + GetMsgLength() <= buf.Length == |b0|
      requires off + |EncHeader(header)| <= |b0| && buf[..] == Patched(b0, off, EncHeader(header))
      modifies buf
      ensures len == if BaseComplete(Value()) then GetMsgLength() else 0
      ensures off + |WrittenBase()| <= |b0| && buf[..] == Patched(b0, off, WrittenBase())
    {
      HeaderLength(header);
      if topic == "" || addr == "" || nUuid == "" {
        return 0;
      }
      PutFields(buf, off + 13 + |header.pUuid|);
      PatchedTwice(b0, off, EncHeader(header), EncBase(Value()));
      return GetMsgLength();
    }

    // The five memcpy pairs behind the header.
    method PutFields(buf: array<char>, at: nat)
      requires at + |EncBase(Value())| <= buf.Length
      modifies buf
      ensures buf[..] == Patched(old(buf[..]), at, EncBase(Value()))
    {
      ghost var b1 := buf[..];
      ghost var f0 := BaseFields(Value(), Nil);
      EncAllLength(f0, "");
      WritingStarts(b1, at, f0);
      ghost var f1 := f0.tail;
      ghost var f2 := f1.tail;
      ghost var f3 := f2.tail;
      ghost var f4 := f3.tail;
      var pos := PutStr(buf, at, topic, b1, at, f0, f1);
      pos := PutStr(buf, pos, addr, b1, at, f0, f2);
      pos := PutStr(buf, pos, ctrl, b1, at, f0, f3);
      pos := PutStr(buf, pos, nUuid, b1, at, f0, f4);
      pos := PutInt(buf, pos, ScopeCode(scope), 1, b1, at, f0, Nil);
      WritingEnds(b1, buf[..], at, pos, f0);
    }

    method UnpackBody(buf: array?<char>, off: nat) returns (len: nat)
      requires buf != null ==> off <= buf.Length && ReadBase(buf[off..]).Some?
      modifies this
      ensures header == old(header)
      ensures buf == null ==> len == 0 && Value() == old(Value())
      ensures buf != null ==> len == |EncBase(Value())| && 0 < len && off + len <= buf.Length
      ensures buf != null ==> ReadBase(old(buf[off..])).value.value == Value()
      ensures buf != null ==> ReadBase(old(buf[off..])).value.rest == old(buf[off + len..])
    {
      if buf == null {
        return 0;
      }
      len := Unpack(buf, off);
    }

    method Unpack(buf: array<char>, off: nat) returns (len: nat)
      requires off <= buf.Length && ReadBase(buf[off..]).Some?
      modifies this
      ensures header == old(header)
      ensures len == |EncBase(Value())| && 0 < len && off + len <= buf.Length
      ensures ReadBase(old(buf[off..])) == Some(Read(Value(), old(buf[off + len..])))
    {
      var v: BaseValue;
      v, len := GetBase(buf, off);
      topic, addr, ctrl, nUuid, scope := v.topic, v.info.addr, v.info.ctrl, v.info.nUuid, v.info.scope;
    }
  }

  // The five reads of AdvertiseBase::UnpackBody.
  method GetBase(buf: array<char>, off: nat) returns (v: BaseValue, len: nat)
    requires off <= buf.Length && ReadBase(buf[off..]).Some?
    ensures len == |EncBase(v)| && 0 < len && off + len <= buf.Length
    ensures ReadBase(buf[off..]) == Some(Read(v, buf[off + len..]))
  {
    var topic, addr, ctrl, nUuid, p4 := GetFour(buf, off);
    var code := GetInt(buf, p4, 1);
    v := BaseValue(topic, Address(addr, ctrl, nUuid, ScopeOf(code).value));
    BaseReadIs(buf[off..], v, buf[p4..], buf[p4 + 1..]);
    BaseEncLength(v);
    len := 8 + |topic| + 8 + |addr| + 8 + |ctrl| + 8 + |nUuid| + 1;
  }

  // Four strings and a scope byte make a base.
  lemma BaseReadIs(b: string, v: BaseValue, b4: string, rest: string)
    requires ReadStrs(b, 4) == Some(Read([v.topic, v.info.addr, v.info.ctrl, v.info.nUuid], b4))
    requires ReadInt(b4, 1) == Some(Read(ScopeCode(v.info.scope), rest))
    ensures ReadBase(b) == Some(Read(v, rest))
  {
    ScopeByteIs(b4, v.info.scope, rest);
    ReadBaseIs(b, v, b4, rest);
  }

  method GetFour(buf: array<char>, off: nat)
    returns (topic: string, addr: string, ctrl: string, nUuid: string, next: nat)
    requires off <= buf.Length && ReadStrs(buf[off..], 4).Some?
    ensures next == off + 32 + |topic| + |addr| + |ctrl| + |nUuid| <= buf.Length
    ensures ReadStrs(buf[off..], 4) == Some(Read([topic, addr, ctrl, nUuid], buf[next..]))
  {
    ghost var x, y, z, w := ReadFour(buf[off..]);
    topic, next := GetStr(buf, off);
    addr, next := GetStr(buf, next);
    ctrl, next := GetStr(buf, next);
    nUuid, next := GetStr(buf, next);
  }

  lemma BaseEncLength(v: BaseValue)
    ensures |EncBase(v)| == 33 + |v.topic| + |v.info.addr| + |v.info.ctrl| + |v.info.nUuid|
  {
    BaseLength(v, Nil);
    EncAllLength(BaseFields(v, Nil), "");
  }

  lemma ReadNext(b: string, k: nat) returns (x: Read<string>, r: Read<seq<string>>)
    requires k > 0 && ReadStrs(b, k).Some?
    ensures ReadStr(b) == Some(x) && ReadStrs(x.rest, k - 1) == Some(r)
    ensures ReadStrs(b, k) == Some(Read([x.value] + r.value, r.rest))
  {
    x := ReadStr(b).value;
    r := ReadStrs(x.rest, k - 1).value;
  }

  // The strings ReadStrs reads, one by one.
  lemma ReadPair(b: string) returns (x: Read<string>, y: Read<string>)
    requires ReadStrs(b, 2).Some?
    ensures ReadStr(b) == Some(x) && ReadStr(x.rest) == Some(y)
    ensures ReadStrs(b, 2) == Some(Read([x.value, y.value], y.rest))
  {
    var r, e: Read<seq<string>>;
    x, r := ReadNext(b, 2);
    y, e := ReadNext(x.rest, 1);
    assert [x.value] + ([y.value] + []) == [x.value, y.value];
  }

  lemma ReadFour(b: string) returns (x: Read<string>, y: Read<string>, z: Read<string>, w: Read<string>)
    requires ReadStrs(b, 4).Some?
    ensures ReadStr(b) == Some(x) && ReadStr(x.rest) == Some(y) && ReadStr(y.rest) == Some(z)
    ensures ReadStr(z.rest) == Some(w)
    ensures ReadStrs(b, 4) == Some(Read([x.value, y.value, z.value, w.value], w.rest))
  {
    var r, e: Read<seq<string>>;
    x, r := ReadNext(b, 4);
    y, e := ReadNext(x.rest, 3);
    z, w := ReadPair(y.rest);
    assert [x.value] + ([y.value] + [z.value, w.value]) == [x.value, y.value, z.value, w.value];
  }

  // AdvertiseMsg adds one string to AdvertiseBase, which it derives from in the source.
  class AdvertiseMsg {
    const base: AdvertiseBase
    var msgTypeName: string

    constructor (header: HeaderValue, v: BaseValue, msgTypeName: string)
      ensures fresh(base) && base.header == header && Value() == AdvBody(v, msgTypeName)
    {
      base := new AdvertiseBase(header, v);
      this.msgTypeName := msgTypeName;
    }

    function Value(): Body reads this, base {
      AdvBody(base.Value(), msgTypeName)
    }

    function GetMsgLength(): (n: nat)
      reads this, base
      ensures n == LengthOfMsg(base.header, Value())
    {
      HeaderLength(base.header);
      BodyLength(Value());
      base.GetMsgLength() + 8 + |msgTypeName|
    }

    method Pack(buf: array?<char>, off: nat) returns (len: nat)
      requires buf != null ==> off + GetMsgLength() <= buf.Length
      modifies buf
      ensures len == if HeaderComplete(base.header) && BodyComplete(Value()) && buf != null then GetMsgLength() else 0
      ensures buf != null ==> off + |Written(base.header, Value())| <= buf.Length
      ensures buf != null ==> buf[..] == Patched(old(buf[..]), off, Written(base.header, Value()))
    {
      WrittenFits(base.header, Value());
      var common := base.Pack(buf, off);
      if common == 0 {
        return 0;
      }
      len := PackRest(buf, off, old(buf[..]));
    }

    // Behind the common fields.
    method PackRest(buf: array<char>, off: nat, ghost b0: string) returns (len: nat)
      requires HeaderComplete(base.header) && BaseComplete(base.Value()) && off + GetMsgLength() <= buf.Length == |b0|
      requires off + base.GetMsgLength() <= |b0|
      requires buf[..] == Patched(b0, off, EncHeader(base.header) + EncBase(base.Value()))
      modifies buf
      ensures len == if BodyComplete(Value()) then GetMsgLength() else 0
      ensures off + |Written(base.header, Value())| <= |b0|
      ensures buf[..] == Patched(b0, off, Written(base.header, Value()))
    {
      WrittenFits(base.header, Value());
      EncBodyOf(Value());
      AdvLength(base.Value(), msgTypeName);
      if msgTypeName == "" {
        return 0;
      }
      ghost var b1 := buf[..];
      ghost var tail := Cons(Str(msgTypeName), Nil);
      var at := off + base.GetMsgLength();
      EncAllLength(tail, "");
      WritingStarts(b1, at, tail);
      var pos := PutStr(buf, at, msgTypeName, b1, at, tail, Nil);
      WritingEnds(b1, buf[..], at, pos, tail);
      PatchedTwice(b0, off, EncHeader(base.header) + EncBase(base.Value()), Enc(Str(msgTypeName), ""));
      Assoc(EncHeader(base.header), EncBase(base.Value()), Enc(Str(msgTypeName), ""));
      return GetMsgLength();
    }

    method UnpackBody(buf: array?<char>, off: nat) returns (len: nat)
      requires buf != null ==> off <= buf.Length && ReadBody(BodyClass.AdvertiseMsg, buf[off..]).Some?
      modifies this, base
      ensures base.header == old(base.header)
      ensures buf == null ==> len == 0 && Value() == old(Value())
      ensures buf != null ==> off + len <= buf.Length
      ensures buf != null ==> ReadBody(BodyClass.AdvertiseMsg, old(buf[off..])).value.value == Value()
      ensures buf != null ==> ReadBody(BodyClass.AdvertiseMsg, old(buf[off..])).value.rest == old(buf[off + len..])
    {
      if buf == null {
        len := base.UnpackBody(buf, off);
        return;
      }
      len := Unpack(buf, off, buf[off..]);
    }

    method Unpack(buf: array<char>, off: nat, ghost b: string) returns (len: nat)
      requires off <= buf.Length && b == buf[off..] && ReadBody(BodyClass.AdvertiseMsg, b).Some?
      modifies this, base
      ensures base.header == old(base.header)
      ensures off + len <= buf.Length
      ensures ReadBody(BodyClass.AdvertiseMsg, b).value.value == Value()
      ensures ReadBody(BodyClass.AdvertiseMsg, b).value.rest == old(buf[off + len..])
    {
      ReadBodyParts(BodyClass.AdvertiseMsg, b);
      var common := base.UnpackBody(buf, off);
      assert ReadBase(b).value.rest == buf[off + common..];
      var name, next := GetName(buf, off + common, b, base.Value());
      len := SetName(name);
      assert next == off + len;
    }

    // The name is kept, and the answer is the length of the body.
    method SetName(name: string) returns (len: nat)
      modifies this
      ensures msgTypeName == name && len == |EncBase(base.Value())| + 8 + |name|
    {
      msgTypeName := name;
      AdvLength(base.Value(), name);
      len := GetMsgLength() - (13 + |base.header.pUuid|);
    }
  }

  // What AdvertiseMsg::UnpackBody reads behind the common fields v of the buffer b.
  method GetName(buf: array<char>, at: nat, ghost b: string, ghost v: BaseValue) returns (name: string, next: nat)
    requires at <= buf.Length && ReadBody(BodyClass.AdvertiseMsg, b).Some?
    requires ReadBase(b).Some? && ReadBase(b).value.value == v && ReadBase(b).value.rest == buf[at..]
    ensures next == at + 8 + |name| <= buf.Length
    ensures ReadBody(BodyClass.AdvertiseMsg, b).value.value == AdvBody(v, name)
    ensures ReadBody(BodyClass.AdvertiseMsg, b).value.rest == buf[next..]
  {
    ReadBodyParts(BodyClass.AdvertiseMsg, b);
    name, next := GetStr(buf, at);
    AdvBodyIs(b, Read(v, buf[at..]), Read(name, buf[next..]));
  }

  // The two memcpy pairs of AdvertiseSrv::Pack.
  method PutTwo(buf: array<char>, at: nat, x: string, y: string)
    requires at + 16 + |x| + |y| <= buf.Length
    modifies buf
    ensures var e := EncAll(Cons(Str(x), Cons(Str(y), Nil)), "");
            at + |e| <= buf.Length && buf[..] == Patched(old(buf[..]), at, e)
  {
    ghost var b1 := buf[..];
    ghost var last := Cons(Str(y), Nil);
    ghost var tail := Cons(Str(x), last);
    EncAllLength(tail, "");
    assert LengthOf(last) == 8 + |y|;
    WritingStarts(b1, at, tail);
    var pos := PutStr(buf, at, x, b1, at, tail, last);
    pos := PutStr(buf, pos, y, b1, at, tail, Nil);
    WritingEnds(b1, buf[..], at, pos, tail);
  }

  method GetTwo(buf: array<char>, pos: nat) returns (x: string, y: string, next: nat)
    requires pos <= buf.Length && ReadStrs(buf[pos..], 2).Some?
    ensures next == pos + 16 + |x| + |y| <= buf.Length
    ensures ReadStrs(buf[pos..], 2) == Some(Read([x, y], buf[next..]))
  {
    ghost var a, b := ReadPair(buf[pos..]);
    x, next := GetStr(buf, pos);
    y, next := GetStr(buf, next);
  }

  class AdvertiseSrv {
    const base: AdvertiseBase
    var reqTypeName: string
    var repTypeName: string

    constructor (header: HeaderValue, v: BaseValue, reqTypeName: string, repTypeName: string)
      ensures fresh(base) && base.header == header && Value() == SrvBody(v, reqTypeName, repTypeName)
    {
      base := new AdvertiseBase(header, v);
      this.reqTypeName, this.repTypeName := reqTypeName, repTypeName;
    }

    function Value(): Body reads this, base {
      SrvBody(base.Value(), reqTypeName, repTypeName)
    }

    function GetMsgLength(): (n: nat)
      reads this, base
      ensures n == LengthOfMsg(base.header, Value())
    {
      HeaderLength(base.header);
      BodyLength(Value());
      base.GetMsgLength() + 8 + |reqTypeName| + 8 + |repTypeName|
    }

    method Pack(buf: array?<char>, off: nat) returns (len: nat)
      requires buf != null ==> off + GetMsgLength() <= buf.Length
      modifies buf
      ensures len == if HeaderComplete(base.header) && BodyComplete(Value()) && buf != null then GetMsgLength() else 0
      ensures buf != null ==> off + |Written(base.header, Value())| <= buf.Length
      ensures buf != null ==> buf[..] == Patched(old(buf[..]), off, Written(base.header, Value()))
    {
      WrittenFits(base.header, Value());
      var common := base.Pack(buf, off);
      if common == 0 {
        return 0;
      }
      len := PackRest(buf, off, old(buf[..]));
    }

    // Behind the common fields.
    method PackRest(buf: array<char>, off: nat, ghost b0: string) returns (len: nat)
      requires HeaderComplete(base.header) && BaseComplete(base.Value()) && off + GetMsgLength() <= buf.Length == |b0|
      requires off + base.GetMsgLength() <= |b0|
      requires buf[..] == Patched(b0, off, EncHeader(base.header) + EncBase(base.Value()))
      modifies buf
      ensures len == if BodyComplete(Value()) then GetMsgLength() else 0
      ensures off + |Written(base.header, Value())| <= |b0|
      ensures buf[..] == Patched(b0, off, Written(base.header, Value()))
    {
      WrittenFits(base.header, Value());
      EncBodyOf(Value());
      SrvLength(base.Value(), reqTypeName, repTypeName);
      if reqTypeName == "" || repTypeName == "" {
        return 0;
      }
      ghost var tail := Cons(Str(reqTypeName), Cons(Str(repTypeName), Nil));
      PutTwo(buf, off + base.GetMsgLength(), reqTypeName, repTypeName);
      PatchedTwice(b0, off, EncHeader(base.header) + EncBase(base.Value()), EncAll(tail, ""));
      Assoc(EncHeader(base.header), EncBase(base.Value()), EncAll(tail, ""));
      return GetMsgLength();
    }

    method UnpackBody(buf: array?<char>, off: nat) returns (len: nat)
      requires buf != null ==> off <= buf.Length && ReadBody(BodyClass.AdvertiseSrv, buf[off..]).Some?
      modifies this, base
      ensures base.header == old(base.header)
      ensures buf == null ==> len == 0 && Value() == old(Value())
      ensures buf != null ==> off + len <= buf.Length
      ensures buf != null ==> ReadBody(BodyClass.AdvertiseSrv, old(buf[off..])).value.value == Value()
      ensures buf != null ==> ReadBody(BodyClass.AdvertiseSrv, old(buf[off..])).value.rest == old(buf[off + len..])
    {
      if buf == null {
        len := base.UnpackBody(buf, off);
        return;
      }
      len := Unpack(buf, off, buf[off..]);
    }

    method Unpack(buf: array<char>, off: nat, ghost b: string) returns (len: nat)
      requires off <= buf.Length && b == buf[off..] && ReadBody(BodyClass.AdvertiseSrv, b).Some?
      modifies this, base
      ensures base.header == old(base.header)
      ensures off + len <= buf.Length
      ensures ReadBody(BodyClass.AdvertiseSrv, b).value.value == Value()
      ensures ReadBody(BodyClass.AdvertiseSrv, b).value.rest == old(buf[off + len..])
    {
      ReadBodyParts(BodyClass.AdvertiseSrv, b);
      var common := base.UnpackBody(buf, off);
      assert ReadBase(b).value.rest == buf[off + common..];
      var req, rep, next := GetTypeNames(buf, off + common, b, base.Value());
      len := SetNames(req, rep);
      assert next == off + len;
    }

    // The names are kept, and the answer is the length of the body.
    method SetNames(req: string, rep: string) returns (len: nat)
      modifies this
      ensures reqTypeName == req && repTypeName == rep && len == |EncBase(base.Value())| + 16 + |req| + |rep|
    {
      reqTypeName, repTypeName := req, rep;
      SrvLength(base.Value(), req, rep);
      len := GetMsgLength() - (13 + |base.header.pUuid|);
    }
  }

  // What AdvertiseSrv::UnpackBody reads behind the common fields v of the buffer b.
  method GetTypeNames(buf: array<char>, at: nat, ghost b: string, ghost v: BaseValue)
    returns (req: string, rep: string, next: nat)
    requires at <= buf.Length && ReadBody(BodyClass.AdvertiseSrv, b).Some?
    requires ReadBase(b).Some? && ReadBase(b).value.value == v && ReadBase(b).value.rest == buf[at..]
    ensures next == at + 16 + |req| + |rep| <= buf.Length
    ensures ReadBody(BodyClass.AdvertiseSrv, b).value.value == SrvBody(v, req, rep)
    ensures ReadBody(BodyClass.AdvertiseSrv, b).value.rest == buf[next..]
  {
    ReadBodyParts(BodyClass.AdvertiseSrv, b);
    req, rep, next := GetTwo(buf, at);
    SrvBodyIs(b, Read(v, buf[at..]), req, Read(rep, buf[next..]));
  }
}
