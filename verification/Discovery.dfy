// src/Discovery.cc as the object it is: tables, activity map and callbacks updated in place, raw
// datagrams in and out.  Every method is proved to be the step of Protocol it implements.  Sending is
// modelled by returning the datagrams, executing a callback by returning the event.
module Discovery {
  import opened Types
  import opened Ordering
  import opened TopicTable
  import TopicStorage
  import opened Wire
  import opened Packet
  import opened Messages
  import P = Protocol

  function Datagrams(ms: seq<Message>): seq<string> {
    seq(|ms|, i requires 0 <= i < |ms| => Datagram(ms[i]))
  }

  lemma DatagramsConcat(xs: seq<Message>, ys: seq<Message>)
    ensures Datagrams(xs + ys) == Datagrams(xs) + Datagrams(ys)
  {
  }

  // A zero-filled buffer with what Pack wrote at its front is the datagram of the message.
  lemma PackedDatagram(m: Message)
    requires BodyOf(m).Some?
    ensures var h, v := HeaderOf(m), BodyOf(m).value;
            && |Written(h, v)| <= LengthOfMsg(h, v)
            && Patched(Zeros(LengthOfMsg(h, v)), 0, Written(h, v)) == Datagram(m)
  {
    var h, v := HeaderOf(m), BodyOf(m).value;
    var w, n := Written(h, v), LengthOfMsg(h, v);
    WrittenFits(h, v);
    HeaderLength(h);
    var p := Patched(Zeros(n), 0, w);
    assert p == w + Zeros(n - |w|);
    if !HeaderComplete(h) {
      assert p == Zeros(n);
    } else if !BodyComplete(v) {
      EncAllRest(HeaderFields(h, Nil), Zeros(LengthOf(BodyFields(v))));
    }
  }

  lemma BareDatagram(m: Message)
    requires m.Heartbeat? || m.Bye?
    ensures Datagram(m)
         == if HeaderComplete(HeaderOf(m)) then EncHeader(HeaderOf(m)) else Zeros(|EncHeader(HeaderOf(m))|)
  {
  }

  // ---- The loops of Discover and RunHeartbeatTask, one key further ----

  lemma {:induction false} ConnectNext(k: Kind, t: string, m: Addresses, ps: seq<string>, i: nat)
    requires forall p | p in ps :: p in m
    requires i < |ps|
    ensures P.ConnectProcs(k, t, m, ps[..i + 1])
         == P.ConnectProcs(k, t, m, ps[..i]) + P.ConnectAll(k, t, ps[i], m[ps[i]])
    decreases i
  {
    if i == 0 {
      assert ps[..1][1..] == [];
    } else {
      ConnectNext(k, t, m, ps[1..], i - 1);
      assert ps[..i + 1][1..] == ps[1..][..i] && ps[..i][1..] == ps[1..][..i - 1];
    }
  }

  lemma {:induction false} AdvertiseNext(k: Kind, p: string, nodes: map<string, seq<Address>>, ts: seq<string>, i: nat)
    requires forall t | t in ts :: t in nodes
    requires i < |ts|
    ensures P.AdvertiseTopics(k, p, nodes, ts[..i + 1])
         == P.AdvertiseTopics(k, p, nodes, ts[..i]) + P.AdvertiseAll(k, p, ts[i], nodes[ts[i]])
    decreases i
  {
    if i == 0 {
      assert ts[..1][1..] == [];
    } else {
      AdvertiseNext(k, p, nodes, ts[1..], i - 1);
      assert ts[..i + 1][1..] == ts[1..][..i] && ts[..i][1..] == ts[1..][..i - 1];
    }
  }

  lemma BatchDatagrams(m: Message, xs: seq<Message>, ys: seq<Message>)
    ensures Datagrams([m] + xs + ys) == [Datagram(m)] + Datagrams(xs) + Datagrams(ys)
  {
  }

  // ---- The loop of RunActivityTask, one key further ----

  ghost predicate ExpiredIn(s: P.State, p: string, now: int) {
    p in s.activity && P.Expired(s.activity[p], now, s.me.silence)
  }

  ghost predicate AnyExpired(s: P.State, now: int) {
    exists p :: ExpiredIn(s, p, now)
  }

  ghost predicate Remain(s: P.State, ps: seq<string>, i: nat) {
    i <= |ps| && Increasing(ps[i..]) && forall p | p in ps[i..] :: p in s.activity
  }

  lemma OverNext(s: P.State, ps: seq<string>, i: nat, now: int)
    requires i < |ps| && Remain(s, ps, i)
    ensures ps[i] in s.activity && Remain(s, ps, i + 1)
    ensures ps[i] in ps[i..] && ps[i] !in ps[i + 1..] && forall p | p in ps[i + 1..] :: p in ps[i..]
    ensures var s' := P.DropBoth(s, ps[i]).(activity := s.activity - {ps[i]});
            var o := P.ActivityOver(s, ps[i..], now);
            if !ExpiredIn(s, ps[i], now) then o == P.ActivityOver(s, ps[i + 1..], now)
            else if !s.me.cbs.disconnection then o == P.Output(P.DropBoth(s, ps[i]), [], [])
            else
              && Remain(s', ps, i + 1)
              && o.next == P.ActivityOver(s', ps[i + 1..], now).next
              && o.events
                 == [P.Disconnected(Msg, "", ps[i], P.NO_ADDRESS)] + P.ActivityOver(s', ps[i + 1..], now).events
  {
    var qs := ps[i..];
    IncreasingDistinct(qs);
    assert qs[0] == ps[i] && qs[1..] == ps[i + 1..];
  }

  lemma OneMore<T>(xs: seq<T>, x: T, ys: seq<T>)
    ensures xs + ([x] + ys) == (xs + [x]) + ys
  {
  }

  ghost predicate NoneBefore(s: P.State, ps: seq<string>, i: nat, now: int) {
    i <= |ps| && forall j | 0 <= j < i :: !ExpiredIn(s, ps[j], now)
  }

  lemma NoneExpired(s: P.State, ps: seq<string>, now: int)
    requires ps == Keys(s.activity.Keys) && NoneBefore(s, ps, |ps|, now)
    ensures !AnyExpired(s, now)
  {
    forall p ensures !ExpiredIn(s, p, now) {
      if p in ps {
        var j :| 0 <= j < |ps| && ps[j] == p;
      }
    }
  }

  lemma {:induction false} AnswersNext(k: Kind, p: string, t: string, v: seq<Address>, i: nat, ip: string, host: string)
    requires i < |v|
    ensures var more := if P.Hidden(v[i].scope, ip, host) then [] else [Adv(k, p, t, v[i])];
            P.Answers(k, p, t, v[..i + 1], ip, host) == P.Answers(k, p, t, v[..i], ip, host) + more
    decreases i
  {
    if i == 0 {
      assert v[..1][1..] == [];
    } else {
      AnswersNext(k, p, t, v[1..], i - 1, ip, host);
      assert v[..i + 1][1..] == v[1..][..i] && v[..i][1..] == v[1..][..i - 1];
    }
  }

  // The time stamp is written before the message is looked at; writing it once more changes nothing.
  lemma HeardAlready(s: P.State, ip: string, m: Message, now: int)
    requires m.pUuid != s.me.pUuid
    ensures P.Receive(s.(activity := s.activity[m.pUuid := now]), ip, m, now) == P.Receive(s, ip, m, now)
  {
    var heard := s.activity[m.pUuid := now];
    assert heard[m.pUuid := now] == heard;
    assert heard - {m.pUuid} == s.activity - {m.pUuid};
  }

  class Discovery {
    const pUuid: string
    const hostAddr: string
    var silenceInterval: nat
    var connectionCb: bool
    var disconnectionCb: bool
    var connectionSrvCb: bool
    var disconnectionSrvCb: bool
    const infoMsg: TopicStorage.Storage
    const infoSrv: TopicStorage.Storage
    var activity: map<string, int>

    ghost predicate Held() reads infoMsg, infoSrv {
      infoMsg != infoSrv && infoMsg.Valid() && infoSrv.Valid()
    }

    // Every remote process with a row is watched, and the process itself is not.
    ghost predicate Valid() reads this, infoMsg, infoSrv {
      Held() && P.Covered(View())
    }

    ghost function View(): P.State reads this, infoMsg, infoSrv {
      P.State(P.Config(pUuid, hostAddr, silenceInterval,
                       P.Callbacks(connectionCb, disconnectionCb, connectionSrvCb, disconnectionSrvCb)),
              infoMsg.data, infoSrv.data, activity)
    }

    constructor (pUuid: string, hostAddr: string)
      ensures Valid() && P.Fresh(View()) && fresh(infoMsg) && fresh(infoSrv)
      ensures this.pUuid == pUuid && this.hostAddr == hostAddr && silenceInterval == 3000
      ensures View().me.cbs == P.Callbacks(false, false, false, false)
    {
      this.pUuid, this.hostAddr, silenceInterval := pUuid, hostAddr, 3000;
      connectionCb, disconnectionCb, connectionSrvCb, disconnectionSrvCb := false, false, false, false;
      infoMsg := new TopicStorage.Storage();
      infoSrv := new TopicStorage.Storage();
      activity := map[];
    }

    // Pack the message and send the buffer, whatever Pack answered.
    method SendMsg(m: Message) returns (sent: string)
      requires !m.Unknown?
      ensures sent == Datagram(m)
    {
      var header := HeaderOf(m);
      if m.Adv? || m.Unadv? {
        PackedDatagram(m);
        var advMsg := new AdvertiseMsg(header, BaseValue(m.topic, m.info), NOT_USED);
        sent := PackAdvertise(advMsg);
      } else if m.Sub? {
        PackedDatagram(m);
        var subMsg := new SubscriptionMsg(header, m.topic);
        var n := subMsg.GetMsgLength();
        var buffer := new char[n](_ => 0 as char);
        assert buffer[..] == Zeros(n);
        var len := subMsg.Pack(buffer, 0);
        sent := buffer[..];
      } else {
        BareDatagram(m);
        sent := PackHeader(header);
      }
    }

    method PackHeader(header: HeaderValue) returns (sent: string)
      ensures sent == if HeaderComplete(header) then EncHeader(header) else Zeros(|EncHeader(header)|)
    {
      var h := new Header(header);
      var n := h.GetHeaderLength();
      var buffer := new char[n](_ => 0 as char);
      assert buffer[..] == Zeros(n);
      HeaderLength(header);
      var len := h.Pack(buffer, 0);
      sent := buffer[..];
    }

    method PackAdvertise(advMsg: AdvertiseMsg) returns (sent: string)
      ensures |Written(advMsg.base.header, advMsg.Value())| <= LengthOfMsg(advMsg.base.header, advMsg.Value())
      ensures var h, v := advMsg.base.header, advMsg.Value();
              sent == Patched(Zeros(LengthOfMsg(h, v)), 0, Written(h, v))
    {
      var n := advMsg.GetMsgLength();
      var buffer := new char[n](_ => 0 as char);
      assert buffer[..] == Zeros(n);
      WrittenFits(advMsg.base.header, advMsg.Value());
      var len := advMsg.Pack(buffer, 0);
      sent := buffer[..];
    }

    method Advertise(kind: Kind, topic: string, addr: string, ctrl: string, nUuid: string, scope: Scope)
      returns (sent: seq<string>)
      requires Valid()
      modifies infoMsg, infoSrv
      ensures Valid()
      ensures var o := P.Advertise(old(View()), kind, topic, Address(addr, ctrl, nUuid, scope));
              View() == o.next && sent == Datagrams(o.sent)
    {
      P.StepKeepsInv(View(), P.DoAdvertise(kind, topic, Address(addr, ctrl, nUuid, scope)));
      sent := Announce(kind, topic, addr, ctrl, nUuid, scope);
    }

    // What Advertise does to the tables.
    method Announce(kind: Kind, topic: string, addr: string, ctrl: string, nUuid: string, scope: Scope)
      returns (sent: seq<string>)
      requires Held()
      modifies infoMsg, infoSrv
      ensures Held()
      ensures var o := P.Advertise(old(View()), kind, topic, Address(addr, ctrl, nUuid, scope));
              View() == o.next && sent == Datagrams(o.sent)
    {
      var added: bool;
      if kind == Msg {
        added := infoMsg.AddAddress(topic, addr, ctrl, pUuid, nUuid, scope);
      } else {
        added := infoSrv.AddAddress(topic, addr, ctrl, pUuid, nUuid, scope);
      }
      if scope == Process {
        return [];
      }
      var d := SendMsg(Adv(kind, pUuid, topic, Address(addr, ctrl, nUuid, scope)));
      return [d];
    }

    method Unadvertise(kind: Kind, topic: string, nUuid: string) returns (sent: seq<string>)
      requires Valid()
      modifies infoMsg, infoSrv
      ensures Valid()
      ensures var o := P.Unadvertise(old(View()), kind, topic, nUuid);
              View() == o.next && sent == Datagrams(o.sent)
    {
      P.StepKeepsInv(View(), P.DoUnadvertise(kind, topic, nUuid));
      sent := Recall(kind, topic, nUuid);
    }

    // The same for Unadvertise.
    method Recall(kind: Kind, topic: string, nUuid: string) returns (sent: seq<string>)
      requires Held()
      modifies infoMsg, infoSrv
      ensures Held()
      ensures var o := P.Unadvertise(old(View()), kind, topic, nUuid);
              View() == o.next && sent == Datagrams(o.sent)
    {
      var storage := if kind == Msg then infoMsg else infoSrv;
      var inf := storage.GetAddress(topic, pUuid, nUuid);
      if inf.None? {
        return [];
      }
      Take(storage, kind, topic, nUuid);
      if inf.value.scope == Process {
        return [];
      }
      var d := SendMsg(Unadv(kind, pUuid, topic, inf.value.(nUuid := nUuid)));
      return [d];
    }

    method Take(storage: TopicStorage.Storage, kind: Kind, topic: string, nUuid: string)
      requires Held() && storage == if kind == Msg then infoMsg else infoSrv
      modifies storage
      ensures Held()
      ensures View() == P.SetInfo(old(View()), kind, DropNode(P.Info(old(View()), kind), topic, pUuid, nUuid))
    {
      var removed := storage.DelAddressByNode(topic, pUuid, nUuid);
    }

    method Discover(topic: string, isSrv: bool) returns (sent: seq<string>, events: seq<P.Event>)
      requires Held()
      ensures var o := P.Discover(View(), if isSrv then Srv else Msg, topic);
              sent == Datagrams(o.sent) && events == o.events
    {
      var kind := if isSrv then Srv else Msg;
      var storage := if isSrv then infoSrv else infoMsg;
      var cb := if isSrv then connectionSrvCb else connectionCb;
      var d := SendMsg(Sub(kind, pUuid, topic));
      sent, events := [d], [];
      var known := storage.HasTopic(topic);
      HasTopicMeansSomeRow(storage.data, topic);
      if known {
        var addresses := storage.GetAddresses(topic);
        if addresses.Some? {
          events := ConnectEach(kind, topic, addresses.value, cb);
        }
      }
    }

    // The nested loops of Discover.
    method ConnectEach(kind: Kind, topic: string, m: Addresses, cb: bool) returns (events: seq<P.Event>)
      ensures events == if cb then P.ConnectProcs(kind, topic, m, Keys(m.Keys)) else []
    {
      events := [];
      var ps := Keys(m.Keys);
      for i := 0 to |ps|
        invariant events == if cb then P.ConnectProcs(kind, topic, m, ps[..i]) else []
      {
        ConnectNext(kind, topic, m, ps, i);
        var more := ConnectVector(kind, topic, ps[i], m[ps[i]], cb);
        events := events + more;
      }
      assert ps[..|ps|] == ps;
    }

    method ConnectVector(kind: Kind, topic: string, p: string, v: seq<Address>, cb: bool) returns (events: seq<P.Event>)
      ensures events == if cb then P.ConnectAll(kind, topic, p, v) else []
    {
      events := [];
      for j := 0 to |v|
        invariant events == if cb then P.ConnectAll(kind, topic, p, v)[..j] else []
      {
        if cb {
          events := events + [P.Connected(kind, topic, p, v[j])];
        }
      }
    }

    method RunHeartbeat() returns (sent: seq<string>)
      ensures sent == Datagrams(P.HeartbeatBatch(View()))
    {
      var d := SendMsg(Heartbeat(pUuid));
      var nodes := infoMsg.GetAddressesByProc(pUuid);
      var msgs := AdvertiseEach(Msg, nodes);
      nodes := infoSrv.GetAddressesByProc(pUuid);
      var srvs := AdvertiseEach(Srv, nodes);
      sent := [d] + msgs + srvs;
      BatchDatagrams(Heartbeat(pUuid), P.OwnAdvertisements(View(), Msg), P.OwnAdvertisements(View(), Srv));
    }

    // The nested loops of RunHeartbeatTask.
    method AdvertiseEach(kind: Kind, nodes: map<string, seq<Address>>) returns (sent: seq<string>)
      ensures sent == Datagrams(P.AdvertiseTopics(kind, pUuid, nodes, Keys(nodes.Keys)))
    {
      sent := [];
      var ts := Keys(nodes.Keys);
      for i := 0 to |ts|
        invariant sent == Datagrams(P.AdvertiseTopics(kind, pUuid, nodes, ts[..i]))
      {
        AdvertiseNext(kind, pUuid, nodes, ts, i);
        DatagramsConcat(P.AdvertiseTopics(kind, pUuid, nodes, ts[..i]),
                        P.AdvertiseAll(kind, pUuid, ts[i], nodes[ts[i]]));
        var more := AdvertiseVector(kind, ts[i], nodes[ts[i]]);
        sent := sent + more;
      }
      assert ts[..|ts|] == ts;
    }

    method AdvertiseVector(kind: Kind, topic: string, v: seq<Address>) returns (sent: seq<string>)
      ensures sent == Datagrams(P.AdvertiseAll(kind, pUuid, topic, v))
    {
      sent := [];
      for j := 0 to |v|
        invariant sent == Datagrams(P.AdvertiseAll(kind, pUuid, topic, v))[..j]
      {
        var d := SendMsg(Adv(kind, pUuid, topic, v[j]));
        sent := sent + [d];
      }
    }

    // One pass of RunActivityTask.  thrown: the missing callback was called.
    method RunActivity(now: int) returns (events: seq<P.Event>, thrown: bool)
      requires Valid()
      modifies this`activity, infoMsg, infoSrv
      ensures Valid()
      ensures View() == P.Activity(old(View()), now).next && events == P.Activity(old(View()), now).events
      ensures thrown <==> !disconnectionCb && AnyExpired(old(View()), now)
    {
      P.ActivityKeepsInv(View(), now);
      events, thrown := Sweep(now);
    }

    // Its loop.
    method Sweep(now: int) returns (events: seq<P.Event>, thrown: bool)
      requires Held()
      modifies this`activity, infoMsg, infoSrv
      ensures Held()
      ensures View() == P.Activity(old(View()), now).next && events == P.Activity(old(View()), now).events
      ensures thrown <==> !disconnectionCb && AnyExpired(old(View()), now)
    {
      events, thrown := [], false;
      ghost var s := View();
      var ps := Keys(activity.Keys);
      ghost var all := P.ActivityOver(s, ps, now);
      assert ps[0..] == ps;
      for i := 0 to |ps|
        invariant Held() && View().me == s.me
        invariant Remain(View(), ps, i)
        invariant Rest(ps, i, now).next == all.next && all.events == events + Rest(ps, i, now).events
        invariant !disconnectionCb ==> View() == s && NoneBefore(s, ps, i, now)
      {
        var expired := Visit(ps[i], now, ps, i);
        if expired {
          if !disconnectionCb {
            return events, true;
          }
          OneMore(events, P.Disconnected(Msg, "", ps[i], P.NO_ADDRESS), Rest(ps, i + 1, now).events);
          events := events + [P.Disconnected(Msg, "", ps[i], P.NO_ADDRESS)];
        }
      }
      assert ps[|ps|..] == [];
      if !disconnectionCb {
        NoneExpired(s, ps, now);
      }
    }

    // One turn of the loop, and what it leaves of the pass.
    method Visit(p: string, now: int, ghost ps: seq<string>, ghost i: nat) returns (expired: bool)
      requires Held() && i < |ps| && p == ps[i] && Remain(View(), ps, i)
      modifies this`activity, infoMsg, infoSrv
      ensures Held() && View().me == old(View()).me && expired == ExpiredIn(old(View()), p, now)
      ensures !expired ==> View() == old(View())
      ensures expired && !disconnectionCb ==> P.ActivityOver(old(View()), ps[i..], now) == P.Output(View(), [], [])
      ensures expired && disconnectionCb ==>
        P.ActivityOver(old(View()), ps[i..], now).events
        == [P.Disconnected(Msg, "", p, P.NO_ADDRESS)] + Rest(ps, i + 1, now).events
      ensures !expired ==> P.ActivityOver(old(View()), ps[i..], now).events == Rest(ps, i + 1, now).events
      ensures !(expired && !disconnectionCb) ==>
        Remain(View(), ps, i + 1) && P.ActivityOver(old(View()), ps[i..], now).next == Rest(ps, i + 1, now).next
    {
      OverNext(View(), ps, i, now);
      expired := Forget(p, now);
    }

    // What is left of a pass.
    ghost function Rest(ps: seq<string>, i: nat, now: int): P.Output
      reads this, infoMsg, infoSrv
    {
      if Remain(View(), ps, i) then P.ActivityOver(View(), ps[i..], now) else P.Output(View(), [], [])
    }

    // Up to the call of the callback and, if that is set, past it.
    method Forget(p: string, now: int) returns (expired: bool)
      requires Held() && p in activity
      modifies this`activity, infoMsg, infoSrv
      ensures Held() && expired == ExpiredIn(old(View()), p, now)
      ensures View() == if !expired then old(View())
                        else if disconnectionCb then P.DropBoth(old(View()), p).(activity := old(activity) - {p})
                        else P.DropBoth(old(View()), p)
    {
      expired := (now - activity[p]) / 1_000_000 > silenceInterval;
      if expired {
        var r := infoMsg.DelAddressesByProc(p);
        r := infoSrv.DelAddressesByProc(p);
        if disconnectionCb {
          activity := activity - {p};
        }
      }
    }

    // ~Discovery broadcasts BYE.
    method Exit() returns (sent: seq<string>)
      ensures sent == Datagrams(P.Step(View(), P.DoExit).sent)
    {
      var d := SendMsg(Bye(pUuid));
      sent := [d];
    }

    // What arrives in the receive buffer: a datagram with anything behind it.
    method DispatchDiscoveryMsg(fromIp: string, buf: array<char>, now: int)
      returns (sent: seq<string>, events: seq<P.Event>)
      requires Valid() && Parse(buf[..]).Some?
      modifies this`activity, infoMsg, infoSrv
      ensures Valid()
      ensures var o := P.Step(old(View()), P.Recv(fromIp, Parse(old(buf[..])).value, now));
              View() == o.next && sent == Datagrams(o.sent) && events == o.events
    {
      P.ReceiveKeepsInv(View(), fromIp, Parse(buf[..]).value, now);
      sent, events := Handle(fromIp, buf, now);
    }

    // What it does with the message.
    method Handle(fromIp: string, buf: array<char>, now: int)
      returns (sent: seq<string>, events: seq<P.Event>)
      requires Held() && Parse(buf[..]).Some?
      modifies this`activity, infoMsg, infoSrv
      ensures Held()
      ensures var o := P.Receive(old(View()), fromIp, Parse(old(buf[..])).value, now);
              View() == o.next && sent == Datagrams(o.sent) && events == o.events
    {
      sent, events := [], [];
      ghost var m := Parse(buf[..]).value;
      var h, pBody := UnpackHeader(buf);
      if h.pUuid == pUuid {
        return;
      }
      HeardAlready(View(), fromIp, m, now);
      activity := activity[h.pUuid := now];
      if h.kind == 1 || h.kind == 6 {
        var topic, info := UnpackAdvertise(buf, pBody, h);
        events := OnAdvertise(fromIp, if h.kind == 1 then Msg else Srv, h.pUuid, topic, info);
      } else if h.kind == 2 || h.kind == 7 {
        var topic := UnpackSubscription(buf, pBody, h);
        sent := OnSubscription(fromIp, if h.kind == 2 then Msg else Srv, h.pUuid, topic);
      } else if h.kind == 5 {
        events := OnBye(fromIp, h.pUuid);
      } else if h.kind == 3 || h.kind == 8 {
        var topic, info := UnpackAdvertise(buf, pBody, h);
        events := OnUnadvertise(fromIp, if h.kind == 3 then Msg else Srv, h.pUuid, topic, info);
      }
    }

    method OnAdvertise(fromIp: string, kind: Kind, p: string, topic: string, info: Address)
      returns (events: seq<P.Event>)
      requires Held() && p != pUuid && p in activity
      modifies infoMsg, infoSrv
      ensures Held()
      ensures var o := P.Receive(old(View()), fromIp, Adv(kind, p, topic, info), activity[p]);
              View() == o.next && events == o.events && o.sent == []
    {
      assert activity == activity[p := activity[p]];
      if info.scope == Process || (info.scope == Host && fromIp != hostAddr) {
        return [];
      }
      var storage := if kind == Msg then infoMsg else infoSrv;
      var cb := if kind == Msg then connectionCb else connectionSrvCb;
      var added := storage.AddAddress(topic, info.addr, info.ctrl, p, info.nUuid, info.scope);
      events := if added && cb then [P.Connected(kind, topic, p, info)] else [];
    }

    method OnUnadvertise(fromIp: string, kind: Kind, p: string, topic: string, info: Address)
      returns (events: seq<P.Event>)
      requires Held() && p != pUuid && p in activity
      modifies infoMsg, infoSrv
      ensures Held()
      ensures var o := P.Receive(old(View()), fromIp, Unadv(kind, p, topic, info), activity[p]);
              View() == o.next && events == o.events && o.sent == []
    {
      assert activity == activity[p := activity[p]];
      if info.scope == Process || (info.scope == Host && fromIp != hostAddr) {
        return [];
      }
      var storage := if kind == Msg then infoMsg else infoSrv;
      var cb := if kind == Msg then disconnectionCb else disconnectionSrvCb;
      events := if cb then [P.Disconnected(kind, topic, p, info)] else [];
      var removed := storage.DelAddressByNode(topic, p, info.nUuid);
    }

    method OnBye(fromIp: string, p: string) returns (events: seq<P.Event>)
      requires Held() && p != pUuid && p in activity
      modifies this`activity, infoMsg, infoSrv
      ensures Held()
      ensures var o := P.Receive(old(View()), fromIp, Bye(p), old(activity)[p]);
              View() == o.next && events == o.events && o.sent == []
    {
      activity := activity - {p};
      events := [];
      if disconnectionCb {
        events := events + [P.Disconnected(Msg, "", p, P.NO_ADDRESS)];
      }
      if disconnectionSrvCb {
        events := events + [P.Disconnected(Srv, "", p, P.NO_ADDRESS)];
      }
      var r := infoMsg.DelAddressesByProc(p);
      r := infoSrv.DelAddressesByProc(p);
    }

    // Answer with this process's rows the requester may see.
    method OnSubscription(fromIp: string, kind: Kind, p: string, topic: string) returns (sent: seq<string>)
      requires Held() && p != pUuid && p in activity
      ensures var o := P.Receive(View(), fromIp, Sub(kind, p, topic), activity[p]);
              View() == o.next && sent == Datagrams(o.sent) && o.events == []
    {
      assert activity == activity[p := activity[p]];
      var storage := if kind == Msg then infoMsg else infoSrv;
      sent := [];
      var any := storage.HasAnyAddresses(topic, pUuid);
      if any {
        var addresses := storage.GetAddresses(topic);
        if addresses.Some? {
          sent := AnswerEach(kind, topic, addresses.value[pUuid], fromIp);
        }
      }
    }

    method AnswerEach(kind: Kind, topic: string, v: seq<Address>, fromIp: string) returns (sent: seq<string>)
      ensures sent == Datagrams(P.Answers(kind, pUuid, topic, v, fromIp, hostAddr))
    {
      sent := [];
      for i := 0 to |v|
        invariant sent == Datagrams(P.Answers(kind, pUuid, topic, v[..i], fromIp, hostAddr))
      {
        AnswersNext(kind, pUuid, topic, v, i, fromIp, hostAddr);
        if !(v[i].scope == Process || (v[i].scope == Host && fromIp != hostAddr)) {
          var d := SendMsg(Adv(kind, pUuid, topic, v[i]));
          sent := sent + [d];
        }
      }
      assert v[..|v|] == v;
    }
  }

  method UnpackHeader(buf: array<char>) returns (h: HeaderValue, pBody: nat)
    requires ReadHeader(buf[..]).Some?
    ensures pBody <= buf.Length && ReadHeader(buf[..]) == Some(Read(h, buf[pBody..]))
  {
    assert buf[0..] == buf[..];
    var header := new Header(HeaderValue(0, "", 0, 0));
    pBody := header.Unpack(buf, 0);
    h := header.Value();
  }

  method UnpackAdvertise(buf: array<char>, pBody: nat, h: HeaderValue) returns (topic: string, info: Address)
    requires pBody <= buf.Length && ReadBody(BodyClass.AdvertiseMsg, buf[pBody..]).Some?
    ensures exists r: Read<Body> :: ReadBody(BodyClass.AdvertiseMsg, buf[pBody..]) == Some(r)
                                    && r.value.AdvBody? && r.value.base == BaseValue(topic, info)
  {
    var advMsg := new AdvertiseMsg(h, BaseValue("", BLANK), "");
    var len := advMsg.UnpackBody(buf, pBody);
    topic := advMsg.base.topic;
    info := Address(advMsg.base.addr, advMsg.base.ctrl, advMsg.base.nUuid, advMsg.base.scope);
  }

  method UnpackSubscription(buf: array<char>, pBody: nat, h: HeaderValue) returns (topic: string)
    requires pBody <= buf.Length && ReadBody(BodyClass.SubscriptionMsg, buf[pBody..]).Some?
    ensures ReadBody(BodyClass.SubscriptionMsg, buf[pBody..]).value.value == SubBody(topic)
  {
    var subMsg := new SubscriptionMsg(h, "");
    var len := subMsg.UnpackBody(buf, pBody);
    topic := subMsg.topic;
  }
}
