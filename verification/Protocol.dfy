// One process of the discovery protocol as a state machine (src/Discovery.cc).  Every public call,
// every received datagram and every pass of a background task runs under one mutex, so each is one
// step: a state, the messages handed to SendMsg, and the callbacks executed.
module Protocol {
  import opened Types
  import opened Ordering
  import opened TopicTable
  import TopicStorage
  import opened Messages

  // Which callbacks the client has registered.
  datatype Callbacks = Callbacks(connection: bool, disconnection: bool, connectionSrv: bool, disconnectionSrv: bool)

  // activity maps a remote process to the time, in nanoseconds, of its last datagram.
  datatype Config = Config(pUuid: string, hostAddr: string, silence: nat, cbs: Callbacks)

  datatype State = State(me: Config, infoMsg: Table, infoSrv: Table, activity: map<string, int>)

  datatype Event =
    | Connected(kind: Kind, topic: string, pUuid: string, info: Address)
    | Disconnected(kind: Kind, topic: string, pUuid: string, info: Address)

  datatype Output = Output(next: State, sent: seq<Message>, events: seq<Event>)

  // The address in a process-wide disconnection.
  const NO_ADDRESS := Address("", "", "", All)

  function Info(s: State, k: Kind): Table {
    if k == Msg then s.infoMsg else s.infoSrv
  }

  function SetInfo(s: State, k: Kind, d: Table): State {
    if k == Msg then s.(infoMsg := d) else s.(infoSrv := d)
  }

  function Vector(s: State, k: Kind, t: string, p: string): seq<Address> {
    Vec(Info(s, k), t, p)
  }

  function ConnectCb(s: State, k: Kind): bool {
    if k == Msg then s.me.cbs.connection else s.me.cbs.connectionSrv
  }

  function DisconnectCb(s: State, k: Kind): bool {
    if k == Msg then s.me.cbs.disconnection else s.me.cbs.disconnectionSrv
  }

  // The scope check: a datagram from another process never shows Process rows, and shows Host rows
  // only when its source address is this host.
  predicate Hidden(scope: Scope, fromIp: string, hostAddr: string) {
    scope == Process || (scope == Host && fromIp != hostAddr)
  }

  // ---- The steps ----

  ghost function Advertise(s: State, k: Kind, t: string, a: Address): Output {
    Output(SetInfo(s, k, Insert(Info(s, k), t, s.me.pUuid, a)),
           if a.scope == Process then [] else [Adv(k, s.me.pUuid, t, a)],
           [])
  }

  ghost function Unadvertise(s: State, k: Kind, t: string, n: string): Output {
    match First(Vector(s, k, t, s.me.pUuid), n)
    case None => Output(s, [], [])
    case Some(inf) =>
      Output(SetInfo(s, k, DropNode(Info(s, k), t, s.me.pUuid, n)),
             if inf.scope == Process then [] else [Unadv(k, s.me.pUuid, t, inf.(nUuid := n))],
             [])
  }

  function ConnectAll(k: Kind, t: string, p: string, v: seq<Address>): seq<Event> {
    seq(|v|, i requires 0 <= i < |v| => Connected(k, t, p, v[i]))
  }

  function ConnectProcs(k: Kind, t: string, m: Addresses, ps: seq<string>): seq<Event>
    requires forall p | p in ps :: p in m
  {
    if ps == [] then [] else ConnectAll(k, t, ps[0], m[ps[0]]) + ConnectProcs(k, t, m, ps[1..])
  }

  function Discover(s: State, k: Kind, t: string): Output {
    Output(s, [Sub(k, s.me.pUuid, t)],
           if ConnectCb(s, k) && t in Info(s, k)
           then ConnectProcs(k, t, Info(s, k)[t], Keys(Info(s, k)[t].Keys)) else [])
  }

  function AdvertiseAll(k: Kind, p: string, t: string, v: seq<Address>): seq<Message> {
    seq(|v|, i requires 0 <= i < |v| => Adv(k, p, t, v[i]))
  }

  function AdvertiseTopics(k: Kind, p: string, nodes: map<string, seq<Address>>, ts: seq<string>): seq<Message>
    requires forall t | t in ts :: t in nodes
  {
    if ts == [] then [] else AdvertiseAll(k, p, ts[0], nodes[ts[0]]) + AdvertiseTopics(k, p, nodes, ts[1..])
  }

  function OwnAdvertisements(s: State, k: Kind): seq<Message> {
    var nodes := TopicStorage.ByProc(Info(s, k), s.me.pUuid);
    AdvertiseTopics(k, s.me.pUuid, nodes, Keys(nodes.Keys))
  }

  function HeartbeatBatch(s: State): seq<Message> {
    [Heartbeat(s.me.pUuid)] + OwnAdvertisements(s, Msg) + OwnAdvertisements(s, Srv)
  }

  // The answers to a SUB: this process's rows the requester may see.
  function Answers(k: Kind, p: string, t: string, v: seq<Address>, fromIp: string, hostAddr: string): seq<Message> {
    if v == [] then [] else
      (if Hidden(v[0].scope, fromIp, hostAddr) then [] else [Adv(k, p, t, v[0])])
      + Answers(k, p, t, v[1..], fromIp, hostAddr)
  }

  function DropBoth(s: State, p: string): State {
    s.(infoMsg := DropProc(s.infoMsg, p), infoSrv := DropProc(s.infoSrv, p))
  }

  ghost function Receive(s: State, fromIp: string, m: Message, now: int): Output {
    if m.pUuid == s.me.pUuid then Output(s, [], []) else
      var heard := s.activity[m.pUuid := now];
      var s1 := s.(activity := heard);
      match m
      case Adv(k, p, t, a) =>
        if Hidden(a.scope, fromIp, s.me.hostAddr) then Output(s1, [], []) else
          var added := !Known(Vector(s, k, t, p), a.addr, a.nUuid);
          Output(SetInfo(s, k, Insert(Info(s, k), t, p, a)).(activity := heard), [],
                 if added && ConnectCb(s, k) then [Connected(k, t, p, a)] else [])
      case Unadv(k, p, t, a) =>
        if Hidden(a.scope, fromIp, s.me.hostAddr) then Output(s1, [], []) else
          Output(SetInfo(s, k, DropNode(Info(s, k), t, p, a.nUuid)).(activity := heard), [],
                 if DisconnectCb(s, k) then [Disconnected(k, t, p, a)] else [])
      case Sub(k, p, t) =>
        Output(s1, Answers(k, s.me.pUuid, t, Vector(s, k, t, s.me.pUuid), fromIp, s.me.hostAddr), [])
      case Heartbeat(p) => Output(s1, [], [])
      case Bye(p) =>
        Output(DropBoth(s, p).(activity := s.activity - {p}), [],
               (if s.me.cbs.disconnection then [Disconnected(Msg, "", p, NO_ADDRESS)] else [])
               + (if s.me.cbs.disconnectionSrv then [Disconnected(Srv, "", p, NO_ADDRESS)] else []))
      case Unknown(p) => Output(s1, [], [])
  }

  // duration_cast to milliseconds truncates.
  predicate Expired(ts: int, now: int, silence: nat) {
    (now - ts) / 1_000_000 > silence
  }

  // One pass of RunActivityTask over the remaining keys.  The disconnection callback is called
  // without looking whether it is set: if it is not, std::function throws.  The exception leaves the
  // thread function with the mutex locked, so the process terminates; what is given here is the state
  // at the throw, the rows already gone and the activity entry still present.
  function ActivityOver(s: State, ps: seq<string>, now: int): Output
    requires forall p | p in ps :: p in s.activity
    requires Increasing(ps)
    decreases |ps|
  {
    if ps == [] then Output(s, [], []) else
      var p := ps[0];
      IncreasingDistinct(ps);
      if !Expired(s.activity[p], now, s.me.silence) then ActivityOver(s, ps[1..], now)
      else if !s.me.cbs.disconnection then Output(DropBoth(s, p), [], [])
      else
        var o := ActivityOver(DropBoth(s, p).(activity := s.activity - {p}), ps[1..], now);
        o.(events := [Disconnected(Msg, "", p, NO_ADDRESS)] + o.events)
  }

  function Activity(s: State, now: int): Output {
    ActivityOver(s, Keys(s.activity.Keys), now)
  }

  datatype Input =
    | DoAdvertise(kind: Kind, topic: string, info: Address)
    | DoUnadvertise(kind: Kind, topic: string, nUuid: string)
    | DoDiscover(kind: Kind, topic: string)
    | DoHeartbeat
    | DoActivity(now: int)
    | DoExit
    | Recv(fromIp: string, msg: Message, now: int)

  ghost function Step(s: State, i: Input): Output {
    match i
    case DoAdvertise(k, t, a) => Advertise(s, k, t, a)
    case DoUnadvertise(k, t, n) => Unadvertise(s, k, t, n)
    case DoDiscover(k, t) => Discover(s, k, t)
    case DoHeartbeat => Output(s, HeartbeatBatch(s), [])
    case DoActivity(now) => Activity(s, now)
    case DoExit => Output(s, [Bye(s.me.pUuid)], [])
    case Recv(ip, m, now) => Receive(s, ip, m, now)
  }

  // ---- The invariant: remote rows are covered by activity, the own UUID never is ----

  ghost predicate Covered(s: State) {
    s.me.pUuid !in s.activity && forall k, t, p | Vector(s, k, t, p) != [] && p != s.me.pUuid :: p in s.activity
  }

  ghost predicate Inv(s: State) {
    Canonical(s.infoMsg) && Canonical(s.infoSrv) && Covered(s)
  }

  // The state outside the tables and the activity map never changes.
  ghost predicate SameProcess(s: State, s': State) {
    s'.me == s.me
  }

  lemma DropBothVec(s: State, p: string)
    requires Canonical(s.infoMsg) && Canonical(s.infoSrv)
    ensures Canonical(DropBoth(s, p).infoMsg) && Canonical(DropBoth(s, p).infoSrv)
    ensures forall k, t, q :: Vector(DropBoth(s, p), k, t, q) == if q == p then [] else Vector(s, k, t, q)
  {
    DropProcVec(s.infoMsg, p);
    DropProcVec(s.infoSrv, p);
  }

  // What one pass leaves, entry by entry, when the callback is set: exactly the processes in ps past
  // the silence interval go, with all their rows and one event each; nothing else changes.
  lemma {:induction false} ActivityOverMeaning(s: State, ps: seq<string>, now: int)
    requires TablesCanonical(s) && s.me.cbs.disconnection
    requires Increasing(ps) && forall p | p in ps :: p in s.activity
    ensures var o := ActivityOver(s, ps, now);
            && SameProcess(s, o.next)
            && Canonical(o.next.infoMsg) && Canonical(o.next.infoSrv)
            && (forall p ::
                  p in o.next.activity
                  <==> p in s.activity && !(p in ps && Expired(s.activity[p], now, s.me.silence)))
            && (forall p | p in o.next.activity :: o.next.activity[p] == s.activity[p])
            && (forall k, t, p :: Vector(o.next, k, t, p)
                               == if p in ps && Expired(s.activity[p], now, s.me.silence) then []
                                  else Vector(s, k, t, p))
            && o.events == DropEvents(s.activity, ps, now, s.me.silence)
    decreases |ps|
  {
    if ps != [] {
      var p := ps[0];
      IncreasingDistinct(ps);
      assert forall q :: q in ps <==> q == p || q in ps[1..];
      if Expired(s.activity[p], now, s.me.silence) {
        var s' := DropBoth(s, p).(activity := s.activity - {p});
        DropBothVec(s, p);
        assert forall k, t, q :: Vector(s', k, t, q) == Vector(DropBoth(s, p), k, t, q);
        ActivityOverMeaning(s', ps[1..], now);
        DropEventsLocal(s.activity, s'.activity, ps[1..], now, s.me.silence);
      } else {
        ActivityOverMeaning(s, ps[1..], now);
      }
    }
  }

  // One disconnection per expired process, in key order.
  function DropEvents(activity: map<string, int>, ps: seq<string>, now: int, silence: nat): seq<Event>
    requires forall p | p in ps :: p in activity
  {
    if ps == [] then [] else
      (if Expired(activity[ps[0]], now, silence) then [Disconnected(Msg, "", ps[0], NO_ADDRESS)] else [])
      + DropEvents(activity, ps[1..], now, silence)
  }

  lemma {:induction false} DropEventsLocal(a: map<string, int>, b: map<string, int>, ps: seq<string>, now: int,
                                           silence: nat)
    requires forall p | p in ps :: p in a && p in b && a[p] == b[p]
    ensures DropEvents(a, ps, now, silence) == DropEvents(b, ps, now, silence)
  {
    if ps != [] {
      DropEventsLocal(a, b, ps[1..], now, silence);
    }
  }

  // Without a callback the pass stops at the first expired process.
  lemma {:induction false} ActivityOverThrows(s: State, ps: seq<string>, now: int)
    requires Canonical(s.infoMsg) && Canonical(s.infoSrv) && !s.me.cbs.disconnection
    requires Increasing(ps) && forall p | p in ps :: p in s.activity
    ensures var o := ActivityOver(s, ps, now);
            && SameProcess(s, o.next) && o.events == []
            && Canonical(o.next.infoMsg) && Canonical(o.next.infoSrv)
            && o.next.activity == s.activity
            && forall k, t, p :: Vector(o.next, k, t, p) == Vector(s, k, t, p)
                              || (Vector(o.next, k, t, p) == [] && p in ps && Expired(s.activity[p], now, s.me.silence))
    decreases |ps|
  {
    if ps != [] {
      IncreasingDistinct(ps);
      DropBothVec(s, ps[0]);
      if !Expired(s.activity[ps[0]], now, s.me.silence) {
        ActivityOverThrows(s, ps[1..], now);
        assert forall q | q in ps[1..] :: q in ps;
      }
    }
  }

  // The first of ps that has expired.
  ghost predicate FirstExpired(s: State, ps: seq<string>, p: string, now: int)
    requires forall r | r in ps :: r in s.activity
  {
    && p in ps && Expired(s.activity[p], now, s.me.silence)
    && forall r | r in ps && Less(r, p) :: !Expired(s.activity[r], now, s.me.silence)
  }

  // Its rows are what goes.
  lemma {:induction false} ActivityOverStops(s: State, ps: seq<string>, now: int, k: Kind, t: string, p: string)
    requires TablesCanonical(s) && !s.me.cbs.disconnection
    requires Increasing(ps) && forall r | r in ps :: r in s.activity
    ensures Vector(ActivityOver(s, ps, now).next, k, t, p)
         == if FirstExpired(s, ps, p, now) then [] else Vector(s, k, t, p)
    decreases |ps|
  {
    if ps != [] {
      IncreasingDistinct(ps);
      DropBothVec(s, ps[0]);
      assert forall r :: r in ps <==> r == ps[0] || r in ps[1..];
      assert forall r | r in ps[1..] :: Less(ps[0], r);
      if p in ps {
        LessTrichotomy(ps[0], p);
      }
      if !Expired(s.activity[ps[0]], now, s.me.silence) {
        ActivityOverStops(s, ps[1..], now, k, t, p);
      } else if p == ps[0] {
        forall r | r in ps[1..] ensures !Less(r, p) {
          LessTrichotomy(r, p);
        }
      }
    }
  }

  // RunActivityTask, one pass with the callback set: leaves exactly the processes not past the
  // silence interval, no row of an expired process, every other row as it was.
  lemma ActivityPass(s: State, now: int)
    requires Inv(s) && s.me.cbs.disconnection
    ensures var o := Activity(s, now);
            && o.next.activity
               == (map p | p in s.activity && !Expired(s.activity[p], now, s.me.silence) :: s.activity[p])
            && (forall k, t, p :: Vector(o.next, k, t, p)
                               == if p in s.activity && Expired(s.activity[p], now, s.me.silence) then []
                                  else Vector(s, k, t, p))
            && |o.events| == |set p | p in s.activity && Expired(s.activity[p], now, s.me.silence)|
            && (forall p :: Disconnected(Msg, "", p, NO_ADDRESS) in o.events
                            <==> p in s.activity && Expired(s.activity[p], now, s.me.silence))
  {
    var ps := Keys(s.activity.Keys);
    ActivityOverMeaning(s, ps, now);
    PassEvents(s, now);
  }

  lemma PassEvents(s: State, now: int)
    ensures var events := DropEvents(s.activity, Keys(s.activity.Keys), now, s.me.silence);
            && |events| == |set p | p in s.activity && Expired(s.activity[p], now, s.me.silence)|
            && forall p :: Disconnected(Msg, "", p, NO_ADDRESS) in events
                           <==> p in s.activity && Expired(s.activity[p], now, s.me.silence)
  {
    var ps := Keys(s.activity.Keys);
    DropEventsCount(s.activity, ps, now, s.me.silence);
    assert (set p | p in s.activity && Expired(s.activity[p], now, s.me.silence))
        == (set p | p in ps && Expired(s.activity[p], now, s.me.silence));
  }

  lemma {:induction false} DropEventsCount(a: map<string, int>, ps: seq<string>, now: int, silence: nat)
    requires Increasing(ps) && forall p | p in ps :: p in a
    ensures |DropEvents(a, ps, now, silence)| == |set p | p in ps && Expired(a[p], now, silence)|
    ensures forall p :: Disconnected(Msg, "", p, NO_ADDRESS) in DropEvents(a, ps, now, silence)
                        <==> p in ps && Expired(a[p], now, silence)
  {
    var all := set p | p in ps && Expired(a[p], now, silence);
    if ps == [] {
      assert all == {};
    } else {
      IncreasingDistinct(ps);
      DropEventsCount(a, ps[1..], now, silence);
      var rest := set p | p in ps[1..] && Expired(a[p], now, silence);
      assert forall q :: q in ps <==> q == ps[0] || q in ps[1..];
      assert ps[0] !in ps[1..];
      assert all == if Expired(a[ps[0]], now, silence) then rest + {ps[0]} else rest;
    }
  }

  // ---- What a received message does, vector by vector ----

  // The rows q holds for the sender of m, for one topic, after m.
  ghost function Effect(m: Message, k: Kind, t: string, fromIp: string, hostAddr: string,
                        v: seq<Address>): seq<Address> {
    match m
    case Adv(k', _, t', a) =>
      if k' == k && t' == t && !Hidden(a.scope, fromIp, hostAddr) && !Known(v, a.addr, a.nUuid) then v + [a] else v
    case Unadv(k', _, t', a) =>
      if k' == k && t' == t && !Hidden(a.scope, fromIp, hostAddr) then Without(v, a.nUuid) else v
    case Bye(_) => []
    case _ => v
  }

  ghost predicate TablesCanonical(s: State) {
    Canonical(s.infoMsg) && Canonical(s.infoSrv)
  }

  lemma InsertAt(s: State, k: Kind, t: string, p: string, a: Address)
    requires TablesCanonical(s)
    ensures var s' := SetInfo(s, k, Insert(Info(s, k), t, p, a));
            && TablesCanonical(s')
            && forall k', t', p' :: Vector(s', k', t', p')
                 == if k' == k && t' == t && p' == p && !Known(Vector(s, k, t, p), a.addr, a.nUuid)
                    then Vector(s, k, t, p) + [a] else Vector(s, k', t', p')
  {
  }

  lemma DropAt(s: State, k: Kind, t: string, p: string, n: string)
    requires TablesCanonical(s)
    ensures var s' := SetInfo(s, k, DropNode(Info(s, k), t, p, n));
            && TablesCanonical(s')
            && forall k', t', p' :: Vector(s', k', t', p')
                 == if k' == k && t' == t && p' == p then Without(Vector(s, k, t, p), n) else Vector(s, k', t', p')
  {
    DropNodeVec(Info(s, k), t, p, n);
  }

  // s' differs from s, in its tables, only by what m does to the rows of its sender.
  ghost predicate EffectOf(s: State, s': State, m: Message, ip: string) {
    forall k, t, p :: Vector(s', k, t, p)
      == if p == m.pUuid && p != s.me.pUuid then Effect(m, k, t, ip, s.me.hostAddr, Vector(s, k, t, p))
         else Vector(s, k, t, p)
  }

  lemma ReceiveVec(s: State, ip: string, m: Message, now: int)
    requires TablesCanonical(s)
    ensures var s' := Receive(s, ip, m, now).next;
            && SameProcess(s, s') && TablesCanonical(s') && EffectOf(s, s', m, ip)
            && s'.activity == if m.pUuid == s.me.pUuid then s.activity
                              else if m.Bye? then s.activity - {m.pUuid} else s.activity[m.pUuid := now]
  {
    if m.pUuid != s.me.pUuid {
      match m
      case Adv(k, p, t, a) => ReceiveAdv(s, ip, m, now);
      case Unadv(k, p, t, a) => ReceiveUnadv(s, ip, m, now);
      case Bye(p) => ReceiveBye(s, ip, m, now);
      case _ => SameTables(s, Receive(s, ip, m, now).next);
    }
  }

  lemma ReceiveAdv(s: State, ip: string, m: Message, now: int)
    requires TablesCanonical(s) && m.Adv? && m.pUuid != s.me.pUuid
    ensures TablesCanonical(Receive(s, ip, m, now).next) && EffectOf(s, Receive(s, ip, m, now).next, m, ip)
  {
    if Hidden(m.info.scope, ip, s.me.hostAddr) {
      SameTables(s, Receive(s, ip, m, now).next);
    } else {
      InsertAt(s, m.kind, m.topic, m.pUuid, m.info);
      var s0 := SetInfo(s, m.kind, Insert(Info(s, m.kind), m.topic, m.pUuid, m.info));
      SameTables(s0, s0.(activity := s.activity[m.pUuid := now]));
    }
  }

  lemma SameTables(s: State, s': State)
    requires s'.infoMsg == s.infoMsg && s'.infoSrv == s.infoSrv
    ensures forall k, t, p :: Vector(s', k, t, p) == Vector(s, k, t, p)
  {
  }

  lemma ReceiveUnadv(s: State, ip: string, m: Message, now: int)
    requires TablesCanonical(s) && m.Unadv? && m.pUuid != s.me.pUuid
    ensures TablesCanonical(Receive(s, ip, m, now).next) && EffectOf(s, Receive(s, ip, m, now).next, m, ip)
  {
    if Hidden(m.info.scope, ip, s.me.hostAddr) {
      SameTables(s, Receive(s, ip, m, now).next);
    } else {
      DropAt(s, m.kind, m.topic, m.pUuid, m.info.nUuid);
      var s0 := SetInfo(s, m.kind, DropNode(Info(s, m.kind), m.topic, m.pUuid, m.info.nUuid));
      SameTables(s0, s0.(activity := s.activity[m.pUuid := now]));
    }
  }

  lemma ReceiveBye(s: State, ip: string, m: Message, now: int)
    requires TablesCanonical(s) && m.Bye? && m.pUuid != s.me.pUuid
    ensures TablesCanonical(Receive(s, ip, m, now).next) && EffectOf(s, Receive(s, ip, m, now).next, m, ip)
  {
    DropBothVec(s, m.pUuid);
    var s' := Receive(s, ip, m, now).next;
    assert forall k, t, p :: Vector(s', k, t, p) == Vector(DropBoth(s, m.pUuid), k, t, p);
  }

  // ---- Every step keeps the invariant ----

  lemma ReceiveKeepsInv(s: State, ip: string, m: Message, now: int)
    requires Inv(s)
    ensures Inv(Receive(s, ip, m, now).next) && SameProcess(s, Receive(s, ip, m, now).next)
  {
    ReceiveVec(s, ip, m, now);
  }

  lemma ActivityKeepsInv(s: State, now: int)
    requires Inv(s)
    ensures Inv(Activity(s, now).next) && SameProcess(s, Activity(s, now).next)
  {
    var ps := Keys(s.activity.Keys);
    if s.me.cbs.disconnection {
      ActivityOverMeaning(s, ps, now);
    } else {
      ActivityOverThrows(s, ps, now);
    }
  }

  // What the two local updates do to the vectors.
  lemma LocalVec(s: State, i: Input)
    requires TablesCanonical(s)
    requires LocalUpdate(i)
    ensures var s' := Step(s, i).next;
            && SameProcess(s, s') && TablesCanonical(s') && s'.activity == s.activity
            && forall k, t, p :: Vector(s', k, t, p)
                              == if p == s.me.pUuid then OwnEffect(i, k, t, Vector(s, k, t, p)) else Vector(s, k, t, p)
  {
    match i
    case DoAdvertise(k, t, a) => InsertAt(s, k, t, s.me.pUuid, a);
    case DoUnadvertise(k, t, n) =>
      if First(Vector(s, k, t, s.me.pUuid), n).None? {
        WithoutAbsent(Vector(s, k, t, s.me.pUuid), n);
      } else {
        DropAt(s, k, t, s.me.pUuid, n);
      }
  }

  predicate LocalUpdate(i: Input) {
    i.DoAdvertise? || i.DoUnadvertise?
  }

  // The process's own rows for one topic after a local call.
  ghost function OwnEffect(i: Input, k: Kind, t: string, v: seq<Address>): seq<Address> {
    match i
    case DoAdvertise(k', t', a) => if k' == k && t' == t && !Known(v, a.addr, a.nUuid) then v + [a] else v
    case DoUnadvertise(k', t', n) => if k' == k && t' == t then Without(v, n) else v
    case _ => v
  }

  lemma StepKeepsInv(s: State, i: Input)
    requires Inv(s)
    ensures Inv(Step(s, i).next) && SameProcess(s, Step(s, i).next)
  {
    match i
    case DoAdvertise(k, t, a) => LocalVec(s, i);
    case DoUnadvertise(k, t, n) => LocalVec(s, i);
    case DoActivity(now) => ActivityKeepsInv(s, now);
    case Recv(ip, m, now) => ReceiveKeepsInv(s, ip, m, now);
    case _ =>
  }

  // The own rows after any single step.
  lemma StepOwn(s: State, i: Input, k: Kind, t: string)
    requires Inv(s)
    ensures Vector(Step(s, i).next, k, t, s.me.pUuid) == OwnEffect(i, k, t, Vector(s, k, t, s.me.pUuid))
  {
    match i
    case DoAdvertise(_, _, _) => LocalVec(s, i);
    case DoUnadvertise(_, _, _) => LocalVec(s, i);
    case DoActivity(now) =>
      var ps := Keys(s.activity.Keys);
      if s.me.cbs.disconnection {
        ActivityOverMeaning(s, ps, now);
      } else {
        ActivityOverThrows(s, ps, now);
      }
    case Recv(ip, m, now) => ReceiveVec(s, ip, m, now);
    case _ =>
  }

  // ---- Whole runs of one process in an arbitrary environment ----

  ghost function Run(s: State, tr: seq<Input>): State
    decreases |tr|
  {
    if tr == [] then s else Step(Run(s, tr[..|tr| - 1]), tr[|tr| - 1]).next
  }

  // A freshly constructed Discovery object.
  ghost predicate Fresh(s: State) {
    s.infoMsg == map[] && s.infoSrv == map[] && s.activity == map[]
  }

  // Activity coverage: in every run, whatever is received from whomever.
  lemma {:induction false} RunKeepsInv(s: State, tr: seq<Input>)
    requires Inv(s)
    ensures Inv(Run(s, tr)) && SameProcess(s, Run(s, tr))
    decreases |tr|
  {
    if tr != [] {
      RunKeepsInv(s, tr[..|tr| - 1]);
      StepKeepsInv(Run(s, tr[..|tr| - 1]), tr[|tr| - 1]);
    }
  }

  lemma FreshInv(s: State)
    requires Fresh(s)
    ensures Inv(s)
  {
  }

  function LocalPart(tr: seq<Input>): seq<Input>
    decreases |tr|
  {
    if tr == [] then [] else
      LocalPart(tr[..|tr| - 1]) + if LocalUpdate(tr[|tr| - 1]) then [tr[|tr| - 1]] else []
  }

  // The process's own rows are what its own Advertise and Unadvertise calls alone would have made
  // them: datagrams, activity passes and heartbeats neither add nor remove any.
  lemma {:induction false} LocalAdvertisementsStable(s: State, tr: seq<Input>, k: Kind, t: string)
    requires Inv(s)
    ensures Vector(Run(s, tr), k, t, s.me.pUuid) == Vector(Run(s, LocalPart(tr)), k, t, s.me.pUuid)
    decreases |tr|
  {
    if tr != [] {
      var i, rest := tr[|tr| - 1], tr[..|tr| - 1];
      LocalAdvertisementsStable(s, rest, k, t);
      RunKeepsInv(s, rest);
      RunKeepsInv(s, LocalPart(rest));
      StepOwn(Run(s, rest), i, k, t);
      StepOwn(Run(s, LocalPart(rest)), i, k, t);
      var lp := LocalPart(tr);
      if LocalUpdate(i) {
        assert lp[..|lp| - 1] == LocalPart(rest);
      } else {
        assert lp == LocalPart(rest);
      }
    }
  }
}
