// The datagrams char by char, as protocol version 1 has them, for strings shorter than 65536.
module Layout {
  import opened Types
  import opened Wire
  import opened Messages

  // A length of up to 65535 in a uint64_t, low byte first, then the chars.
  function Text(s: string, rest: string): string
    requires |s| < 65536
  {
    [(|s| % 256) as char, (|s| / 256) as char, 0 as char, 0 as char, 0 as char, 0 as char, 0 as char, 0 as char]
    + (s + rest)
  }

  // Version 1 in a uint16_t, the process UUID, the type in a uint8_t, and no flags.
  function Head(pUuid: string, code: nat, rest: string): string
    requires |pUuid| < 65536 && code < 256
  {
    [1 as char, 0 as char] + Text(pUuid, [code as char] + ([0 as char, 0 as char] + rest))
  }

  // Topic, address, control address, node UUID and scope byte, then what the advertisement has of its own.
  function Row(topic: string, a: Address, scope: nat, rest: string): string
    requires |topic| < 65536 && |a.addr| < 65536 && |a.ctrl| < 65536 && |a.nUuid| < 65536 && scope < 256
  {
    Text(topic, Text(a.addr, Text(a.ctrl, Text(a.nUuid, [scope as char] + rest))))
  }

  lemma LowBytes(n: nat)
    requires n < 65536
    ensures LE(n, 8) == [(n % 256) as char, (n / 256) as char, 0 as char, 0 as char, 0 as char, 0 as char, 0 as char,
                         0 as char]
  {
    LEofZero(6);
    LowByte(n / 256, 7);
    assert LE(n, 8) == [(n % 256) as char] + LE(n / 256, 7);
  }

  lemma LowByte(n: nat, w: nat)
    requires n < 256 && w > 0
    ensures LE(n, w) == [n as char] + LE(0, w - 1)
  {
  }

  lemma ShortIs(n: nat)
    requires n < 256
    ensures LE(n, 1) == [n as char] && LE(n, 2) == [n as char, 0 as char]
  {
    LowByte(n, 1);
    LowByte(n, 2);
    LowByte(0, 1);
  }

  lemma TextIs(s: string, rest: string)
    requires |s| < 65536
    ensures Enc(Str(s), rest) == Text(s, rest)
  {
    LowBytes(|s|);
  }

  lemma HeadIs(m: Message, rest: string)
    requires |m.pUuid| < 65536
    ensures EncAll(HeaderFields(HeaderOf(m), Nil), rest) == Head(m.pUuid, TypeCode(m), rest)
  {
    EncHeaderUnfolds(HeaderOf(m), Nil, rest);
    ShortIs(1);
    ShortIs(0);
    ShortIs(TypeCode(m));
    TextIs(m.pUuid, [TypeCode(m) as char] + ([0 as char, 0 as char] + rest));
  }

  lemma RowIs(topic: string, a: Address, rest: string)
    requires |topic| < 65536 && |a.addr| < 65536 && |a.ctrl| < 65536 && |a.nUuid| < 65536 && ScopeCode(a.scope) < 256
    ensures EncStrs(BaseStrs(BaseValue(topic, a)), Enc(Int(ScopeCode(a.scope), 1), rest))
         == Row(topic, a, ScopeCode(a.scope), rest)
  {
    var b := [ScopeCode(a.scope) as char] + rest;
    ShortIs(ScopeCode(a.scope));
    assert Enc(Int(ScopeCode(a.scope), 1), rest) == b;
    TextIs(a.nUuid, b);
    TextIs(a.ctrl, Text(a.nUuid, b));
    TextIs(a.addr, Text(a.ctrl, Text(a.nUuid, b)));
    TextIs(topic, Text(a.addr, Text(a.ctrl, Text(a.nUuid, b))));
    FourStrs(topic, a.addr, a.ctrl, a.nUuid, b);
  }

  lemma FourStrs(x: string, y: string, z: string, w: string, e: string)
    ensures EncStrs([x, y, z, w], e) == Enc(Str(x), Enc(Str(y), Enc(Str(z), Enc(Str(w), e))))
  {
    assert [w][1..] == [] && [z, w][1..] == [w] && [y, z, w][1..] == [z, w] && [x, y, z, w][1..] == [y, z, w];
    assert EncStrs([w], e) == Enc(Str(w), e);
    assert EncStrs([z, w], e) == Enc(Str(z), EncStrs([w], e));
    assert EncStrs([y, z, w], e) == Enc(Str(y), EncStrs([z, w], e));
  }

  // HEARTBEAT and BYE are a header.
  lemma BareLayout(pUuid: string)
    requires pUuid != "" && |pUuid| < 65536
    ensures Datagram(Heartbeat(pUuid)) == Head(pUuid, 4, "") && Datagram(Bye(pUuid)) == Head(pUuid, 5, "")
  {
    HeadIs(Heartbeat(pUuid), "");
    HeadIs(Bye(pUuid), "");
  }

  // SUB and SUB_SRV have the topic behind it.
  lemma SubLayout(k: Kind, pUuid: string, topic: string)
    requires pUuid != "" && topic != "" && |pUuid| < 65536 && |topic| < 65536
    ensures Datagram(Sub(k, pUuid, topic)) == Head(pUuid, if k == Msg then 2 else 7, Text(topic, ""))
  {
    var m := Sub(k, pUuid, topic);
    EncHeaderUnfolds(HeaderOf(m), BodyFieldsOf(m), "");
    EncBodyUnfolds(SubBody(topic), "");
    TextIs(topic, "");
    HeadIs(m, Text(topic, ""));
  }

  // The number an advertisement's scope has.
  predicate ScopeNumber(scope: Scope, n: nat) {
    n < 256 && ((scope == Process && n == 0) || (scope == Host && n == 1) || (scope == All && n == 2)
                || (scope.Other? && n == scope.code))
  }

  // The advertisements have the row behind it, and a type name that is not used.
  lemma AdvLayout(k: Kind, pUuid: string, topic: string, a: Address, n: nat)
    requires pUuid != "" && topic != "" && a.addr != "" && a.nUuid != "" && ScopeNumber(a.scope, n)
    requires |pUuid| < 65536 && |topic| < 65536 && |a.addr| < 65536 && |a.ctrl| < 65536 && |a.nUuid| < 65536
    ensures var row := Row(topic, a, n, Text("not used", ""));
            && Datagram(Adv(k, pUuid, topic, a)) == Head(pUuid, if k == Msg then 1 else 6, row)
            && Datagram(Unadv(k, pUuid, topic, a)) == Head(pUuid, if k == Msg then 3 else 8, row)
  {
    var row := Row(topic, a, n, Text("not used", ""));
    BodyIs(topic, a);
    AdvertisementIs(Adv(k, pUuid, topic, a), row);
    AdvertisementIs(Unadv(k, pUuid, topic, a), row);
    HeadIs(Adv(k, pUuid, topic, a), row);
    HeadIs(Unadv(k, pUuid, topic, a), row);
  }

  lemma BodyIs(topic: string, a: Address)
    requires |topic| < 65536 && |a.addr| < 65536 && |a.ctrl| < 65536 && |a.nUuid| < 65536
    ensures EncAll(BodyFields(AdvBody(BaseValue(topic, a), "not used")), "")
         == Row(topic, a, ScopeCode(a.scope), Text("not used", ""))
  {
    EncBodyUnfolds(AdvBody(BaseValue(topic, a), "not used"), "");
    EncBaseUnfolds(BaseValue(topic, a), Nil, Enc(Str("not used"), ""));
    TextIs("not used", "");
    RowIs(topic, a, Text("not used", ""));
  }

  lemma AdvertisementIs(m: Message, body: string)
    requires (m.Adv? || m.Unadv?) && m.pUuid != "" && BaseComplete(BaseValue(m.topic, m.info))
    requires EncAll(BodyFields(AdvBody(BaseValue(m.topic, m.info), "not used")), "") == body
    ensures Datagram(m) == EncAll(HeaderFields(HeaderOf(m), Nil), body)
  {
    EncHeaderUnfolds(HeaderOf(m), BodyFieldsOf(m), "");
  }

  // The body of class AdvertiseSrv, which discovery does not send: the row and two type names.
  lemma SrvBodyLayout(topic: string, a: Address, req: string, rep: string, n: nat)
    requires ScopeNumber(a.scope, n) && |req| < 65536 && |rep| < 65536
    requires |topic| < 65536 && |a.addr| < 65536 && |a.ctrl| < 65536 && |a.nUuid| < 65536
    ensures EncAll(BodyFields(SrvBody(BaseValue(topic, a), req, rep)), "") == Row(topic, a, n, Text(req, Text(rep, "")))
  {
    EncBodyUnfolds(SrvBody(BaseValue(topic, a), req, rep), "");
    assert [req, rep][1..] == [rep] && [rep][1..] == [];
    assert EncStrs([rep], "") == Enc(Str(rep), "");
    assert EncStrs([req, rep], "") == Enc(Str(req), EncStrs([rep], ""));
    TextIs(rep, "");
    TextIs(req, Text(rep, ""));
    EncBaseUnfolds(BaseValue(topic, a), Nil, Text(req, Text(rep, "")));
    RowIs(topic, a, Text(req, Text(rep, "")));
  }

  // ---- What Pack refuses ----

  lemma RefusedIff(h: HeaderValue, v: Body)
    ensures HeaderComplete(h) <==> h.version != 0 && h.pUuid != "" && h.kind != 0
    ensures v.SubBody? ==> (BodyComplete(v) <==> v.topic != "")
    ensures !v.SubBody? ==>
      (BodyComplete(v) <==>
       && v.base.topic != "" && v.base.info.addr != "" && v.base.info.nUuid != ""
       && (v.AdvBody? ==> v.msgTypeName != "") && (v.SrvBody? ==> v.reqTypeName != "" && v.repTypeName != ""))
  {
  }

  // A message with an empty required field goes out with zeros where the refused part would be: the body, or, for
  // an empty process UUID, everything.
  lemma RefusedLayout(m: Message, n: nat)
    requires |m.pUuid| < 65536 && (m.Adv? || m.Unadv?) && (m.topic == "" || m.info.addr == "" || m.info.nUuid == "")
    requires n == |m.topic| + |m.info.addr| + |m.info.ctrl| + |m.info.nUuid| + 49
    ensures Datagram(m) == if m.pUuid == "" then Zeros(13 + n) else Head(m.pUuid, TypeCode(m), Zeros(n))
  {
    AdvertisementLength(BaseValue(m.topic, m.info));
    RefusedHead(m, n);
  }

  lemma RefusedHead(m: Message, n: nat)
    requires |m.pUuid| < 65536 && (m.Adv? || m.Unadv?) && (m.topic == "" || m.info.addr == "" || m.info.nUuid == "")
    requires n == LengthOf(BodyFields(AdvBody(BaseValue(m.topic, m.info), "not used")))
    ensures Datagram(m) == if m.pUuid == "" then Zeros(13 + n) else Head(m.pUuid, TypeCode(m), Zeros(n))
  {
    RefusedIs(m, n);
    if m.pUuid != "" {
      HeadIs(m, Zeros(n));
    }
  }

  lemma RefusedIs(m: Message, n: nat)
    requires (m.Adv? || m.Unadv?) && (m.topic == "" || m.info.addr == "" || m.info.nUuid == "")
    requires n == LengthOf(BodyFields(AdvBody(BaseValue(m.topic, m.info), "not used")))
    ensures Datagram(m) == if m.pUuid == "" then Zeros(13 + n)
                           else EncAll(HeaderFields(HeaderOf(m), Nil), Zeros(n))
  {
  }

  lemma AdvertisementLength(v: BaseValue)
    ensures LengthOf(BodyFields(AdvBody(v, "not used")))
         == |v.topic| + |v.info.addr| + |v.info.ctrl| + |v.info.nUuid| + 49
  {
    var f5 := Cons(Str("not used"), Nil);
    assert LengthOf(f5) == 16;
    var f4 := Cons(Int(ScopeCode(v.info.scope), 1), f5);
    var f3 := Cons(Str(v.info.nUuid), f4);
    var f2 := Cons(Str(v.info.ctrl), f3);
    var f1 := Cons(Str(v.info.addr), f2);
    assert LengthOf(f4) == 17 && LengthOf(f3) == 25 + |v.info.nUuid|;
    assert LengthOf(f2) == 33 + |v.info.nUuid| + |v.info.ctrl|;
    assert LengthOf(f1) == 41 + |v.info.nUuid| + |v.info.ctrl| + |v.info.addr|;
    assert BodyFields(AdvBody(v, "not used")) == Cons(Str(v.topic), f1);
  }

  lemma RefusedSubLayout(k: Kind, pUuid: string, topic: string)
    requires |pUuid| < 65536 && (pUuid == "" || topic == "")
    ensures Datagram(Sub(k, pUuid, topic))
         == if pUuid == "" then Zeros(21 + |topic|) else Head(pUuid, if k == Msg then 2 else 7, Zeros(8))
  {
    var m := Sub(k, pUuid, topic);
    assert LengthOf(BodyFieldsOf(m)) == 8 + |topic|;
    HeadIs(m, Zeros(LengthOf(BodyFieldsOf(m))));
  }
}
