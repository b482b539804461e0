// Any number of processes over a multicast network that may lose, duplicate and reorder datagrams:
// everything ever sent stays on the air, and each delivery hands one of those datagrams to one
// process.  A run is the list of its actions.
module Network {
  import opened Types
  import opened TopicTable
  import TopicStorage
  import opened Ordering
  import opened Messages
  import opened Protocol

  // A datagram with the source address its receivers see.
  datatype Packet = Packet(fromIp: string, msg: Message)

  datatype System = System(procs: map<string, State>, net: iset<Packet>)

  datatype Action = Act(p: string, i: Input) | Deliver(q: string, packet: Packet, now: int)

  ghost function OnAir(s: State, sent: seq<Message>): iset<Packet> {
    iset pk: Packet | pk.fromIp == s.me.hostAddr && pk.msg in sent
  }

  // One process takes one step; what it sends goes on the air.
  ghost function StepAt(sys: System, q: string, i: Input): (sys': System)
    requires q in sys.procs
    ensures sys'.procs.Keys == sys.procs.Keys
  {
    var o := Step(sys.procs[q], i);
    System(sys.procs[q := o.next], sys.net + OnAir(sys.procs[q], o.sent))
  }

  ghost function Perform(sys: System, x: Action): (sys': System)
    ensures sys'.procs.Keys == sys.procs.Keys
  {
    match x
    case Act(p, i) => if p !in sys.procs || i.Recv? then sys else StepAt(sys, p, i)
    case Deliver(q, pk, now) =>
      if q !in sys.procs || pk !in sys.net then sys else StepAt(sys, q, Recv(pk.fromIp, Transmit(pk.msg), now))
  }

  ghost function Exec(sys: System, xs: seq<Action>): (sys': System)
    ensures sys'.procs.Keys == sys.procs.Keys
    decreases |xs|
  {
    if xs == [] then sys else Perform(Exec(sys, xs[..|xs| - 1]), xs[|xs| - 1])
  }

  lemma ExecNext(sys: System, xs: seq<Action>, x: Action)
    ensures Exec(sys, xs + [x]) == Perform(Exec(sys, xs), x)
  {
    assert (xs + [x])[..|xs|] == xs;
  }

  ghost predicate Start(sys: System) {
    sys.net == iset{} && forall p | p in sys.procs :: sys.procs[p].me.pUuid == p && Fresh(sys.procs[p])
  }

  // p itself called Advertise with exactly these arguments.
  ghost predicate Advertised(xs: seq<Action>, p: string, k: Kind, t: string, a: Address) {
    Act(p, DoAdvertise(k, t, a)) in xs
  }

  // ---- What a step sends ----

  // Every message carries the sender's UUID; an ADV is the one being made now or a stored own row.
  ghost predicate Truthful(s: State, i: Input, m: Message) {
    m.pUuid == s.me.pUuid && !m.Unknown? && (m.Bye? ==> i.DoExit?)
    && (m.Unadv? ==> i.DoUnadvertise? && m.info in Vector(s, m.kind, m.topic, s.me.pUuid))
    && (m.Sub? ==> i == DoDiscover(m.kind, m.topic))
    && (m.Adv? ==> i == DoAdvertise(m.kind, m.topic, m.info) || m.info in Vector(s, m.kind, m.topic, s.me.pUuid))
  }

  lemma {:induction false} AnswersOwn(k: Kind, p: string, t: string, v: seq<Address>, ip: string, host: string)
    ensures forall m | m in Answers(k, p, t, v, ip, host) ::
              m.Adv? && m.kind == k && m.pUuid == p && m.topic == t && m.info in v && !Hidden(m.info.scope, ip, host)
  {
    if v != [] {
      AnswersOwn(k, p, t, v[1..], ip, host);
      assert forall a | a in v[1..] :: a in v;
    }
  }

  lemma {:induction false} AdvertiseTopicsOwn(k: Kind, p: string, nodes: map<string, seq<Address>>, ts: seq<string>)
    requires forall t | t in ts :: t in nodes
    ensures forall m :: m in AdvertiseTopics(k, p, nodes, ts) <==>
              m.Adv? && m.kind == k && m.pUuid == p && m.topic in ts && m.info in nodes[m.topic]
  {
    if ts != [] {
      AdvertiseTopicsOwn(k, p, nodes, ts[1..]);
      AdvertiseAllOwn(k, p, ts[0], nodes[ts[0]]);
      assert forall t :: t in ts <==> t == ts[0] || t in ts[1..];
    }
  }

  lemma AdvertiseAllOwn(k: Kind, p: string, t: string, v: seq<Address>)
    ensures forall m :: m in AdvertiseAll(k, p, t, v) <==>
              m.Adv? && m.kind == k && m.pUuid == p && m.topic == t && m.info in v
  {
    var all := AdvertiseAll(k, p, t, v);
    forall m: Message | m.Adv? && m.kind == k && m.pUuid == p && m.topic == t && m.info in v ensures m in all {
      var i :| 0 <= i < |v| && v[i] == m.info;
      assert all[i] == m;
    }
  }

  // The heartbeat batch holds the own rows, all of them and nothing else.
  lemma OwnAdvertisementsAre(s: State, k: Kind)
    ensures forall m :: m in OwnAdvertisements(s, k) <==>
              m.Adv? && m.kind == k && m.pUuid == s.me.pUuid && m.info in Vector(s, k, m.topic, s.me.pUuid)
  {
    var nodes := TopicStorage.ByProc(Info(s, k), s.me.pUuid);
    AdvertiseTopicsOwn(k, s.me.pUuid, nodes, Keys(nodes.Keys));
  }

  lemma HeartbeatTruthful(s: State)
    ensures forall m | m in HeartbeatBatch(s) :: Truthful(s, DoHeartbeat, m)
  {
    OwnAdvertisementsAre(s, Msg);
    OwnAdvertisementsAre(s, Srv);
  }

  lemma SentTruthful(s: State, i: Input)
    ensures forall m | m in Step(s, i).sent :: Truthful(s, i, m)
  {
    match i
    case DoHeartbeat => HeartbeatTruthful(s);
    case DoActivity(now) => ActivitySilent(s, Keys(s.activity.Keys), now);
    case DoUnadvertise(k, t, n) =>
      var inf := First(Vector(s, k, t, s.me.pUuid), n);
      assert inf.Some? ==> inf.value.(nUuid := n) == inf.value;
    case Recv(ip, m, now) =>
      if m.Sub? {
        AnswersOwn(m.kind, s.me.pUuid, m.topic, Vector(s, m.kind, m.topic, s.me.pUuid), ip, s.me.hostAddr);
      }
    case _ =>
  }

  lemma {:induction false} ActivitySilent(s: State, ps: seq<string>, now: int)
    requires forall p | p in ps :: p in s.activity
    requires Increasing(ps)
    ensures ActivityOver(s, ps, now).sent == []
    decreases |ps|
  {
    if ps != [] {
      IncreasingDistinct(ps);
      if !Expired(s.activity[ps[0]], now, s.me.silence) {
        ActivitySilent(s, ps[1..], now);
      } else if s.me.cbs.disconnection {
        ActivitySilent(DropBoth(s, ps[0]).(activity := s.activity - {ps[0]}), ps[1..], now);
      }
    }
  }

  // ---- The rows after any step ----

  // A row held under p after a step was held before, or came with an ADV from p that passed the scope
  // check, or is the process's own and was advertised just now.
  lemma StepRows(s: State, i: Input, k: Kind, t: string, p: string, a: Address)
    requires Inv(s) && a in Vector(Step(s, i).next, k, t, p)
    ensures a in Vector(s, k, t, p)
         || (p == s.me.pUuid && i == DoAdvertise(k, t, a))
         || (p != s.me.pUuid && i.Recv? && i.msg == Adv(k, p, t, a) && !Hidden(a.scope, i.fromIp, s.me.hostAddr))
  {
    match i
    case DoAdvertise(_, _, _) => LocalVec(s, i);
    case DoUnadvertise(_, _, n) =>
      LocalVec(s, i);
      WithoutMember(Vector(s, k, t, p), n);
    case DoActivity(now) => PassRows(s, now, k, t, p);
    case Recv(ip, m, now) => ReceivedRows(s, ip, m, now, k, t, p, a);
    case _ =>
  }

  lemma PassRows(s: State, now: int, k: Kind, t: string, p: string)
    requires Inv(s)
    ensures Vector(Activity(s, now).next, k, t, p) == Vector(s, k, t, p) || Vector(Activity(s, now).next, k, t, p) == []
  {
    if s.me.cbs.disconnection {
      ActivityOverMeaning(s, Keys(s.activity.Keys), now);
    } else {
      ActivityOverThrows(s, Keys(s.activity.Keys), now);
    }
  }

  lemma ReceivedRows(s: State, ip: string, m: Message, now: int, k: Kind, t: string, p: string, a: Address)
    requires Inv(s) && a in Vector(Receive(s, ip, m, now).next, k, t, p)
    ensures a in Vector(s, k, t, p)
         || (p != s.me.pUuid && m == Adv(k, p, t, a) && !Hidden(a.scope, ip, s.me.hostAddr))
  {
    ReceiveVec(s, ip, m, now);
    if m.Unadv? {
      WithoutMember(Vector(s, k, t, p), m.info.nUuid);
    }
  }

  // ---- The system invariant ----

  // Each process, and what it may hold.
  ghost predicate ProcOk(sys: System, xs: seq<Action>, q: string)
    requires q in sys.procs
  {
    var s := sys.procs[q];
    s.me.pUuid == q && Inv(s) && forall k, t, p, a | a in Vector(s, k, t, p) :: RowOk(sys, xs, q, k, t, p, a)
  }

  ghost predicate RowOk(sys: System, xs: seq<Action>, q: string, k: Kind, t: string, p: string, a: Address)
    requires q in sys.procs
  {
    Advertised(xs, p, k, t, a)
    && (p != q ==> a.scope != Process)
    && (p != q && a.scope == Host ==> p in sys.procs && sys.procs[p].me.hostAddr == sys.procs[q].me.hostAddr)
  }

  ghost predicate PacketOk(sys: System, xs: seq<Action>, pk: Packet) {
    pk.msg.pUuid in sys.procs && pk.fromIp == sys.procs[pk.msg.pUuid].me.hostAddr
    && (pk.msg.Adv? ==> Advertised(xs, pk.msg.pUuid, pk.msg.kind, pk.msg.topic, pk.msg.info))
  }

  ghost predicate SysInv(sys: System, xs: seq<Action>) {
    (forall q | q in sys.procs :: ProcOk(sys, xs, q)) && forall pk | pk in sys.net :: PacketOk(sys, xs, pk)
  }

  // The invariant only asks for more history, never less.
  lemma HistoryGrows(sys: System, sys': System, xs: seq<Action>, x: Action)
    requires SysInv(sys, xs)
    requires sys'.procs.Keys == sys.procs.Keys
    requires forall p | p in sys.procs :: sys'.procs[p].me == sys.procs[p].me
    ensures forall pk | pk in sys.net :: PacketOk(sys', xs + [x], pk)
    ensures forall q | q in sys.procs && sys'.procs[q] == sys.procs[q] :: ProcOk(sys', xs + [x], q)
  {
  }

  // One process takes one step, on an input that is its own or a datagram that is on the air.
  lemma StepKeeps(sys: System, xs: seq<Action>, x: Action, q: string, i: Input)
    requires SysInv(sys, xs) && q in sys.procs
    requires i.Recv? ==> exists pk :: pk in sys.net && i.fromIp == pk.fromIp && i.msg == Transmit(pk.msg)
    requires i.DoAdvertise? ==> x == Act(q, i)
    ensures SysInv(StepAt(sys, q, i), xs + [x])
    ensures forall p | p in sys.procs :: StepAt(sys, q, i).procs[p].me == sys.procs[p].me
  {
    var s := sys.procs[q];
    var o := Step(s, i);
    var sys' := StepAt(sys, q, i);
    var xs' := xs + [x];
    assert ProcOk(sys, xs, q);
    StepKeepsInv(s, i);
    HistoryGrows(sys, sys', xs, x);
    forall k, t, p, a | a in Vector(o.next, k, t, p) ensures RowOk(sys', xs', q, k, t, p, a) {
      StepRows(s, i, k, t, p, a);
      if a in Vector(s, k, t, p) {
        assert RowOk(sys, xs, q, k, t, p, a);
      } else if p == q {
        assert x in xs';
      } else {
        var pk :| pk in sys.net && i.fromIp == pk.fromIp && i.msg == Transmit(pk.msg);
        assert PacketOk(sys, xs, pk);
        assert pk.msg == i.msg;
      }
    }
    assert ProcOk(sys', xs', q);
    SentTruthful(s, i);
    forall pk | pk in OnAir(s, o.sent) ensures PacketOk(sys', xs', pk) {
      assert Truthful(s, i, pk.msg);
      if pk.msg.Adv? {
        if i == DoAdvertise(pk.msg.kind, pk.msg.topic, pk.msg.info) {
          assert x in xs';
        } else {
          assert RowOk(sys, xs, q, pk.msg.kind, pk.msg.topic, q, pk.msg.info);
        }
      }
    }
  }

  lemma PerformKeeps(sys: System, xs: seq<Action>, x: Action)
    requires SysInv(sys, xs)
    ensures SysInv(Perform(sys, x), xs + [x])
    ensures forall p | p in sys.procs :: Perform(sys, x).procs[p].me == sys.procs[p].me
  {
    HistoryGrows(sys, sys, xs, x);
    match x
    case Act(p, i) =>
      if p in sys.procs && !i.Recv? {
        StepKeeps(sys, xs, x, p, i);
      }
    case Deliver(q, pk, now) =>
      if q in sys.procs && pk in sys.net {
        StepKeeps(sys, xs, x, q, Recv(pk.fromIp, Transmit(pk.msg), now));
      }
  }

  lemma {:induction false} RunInvariant(sys: System, xs: seq<Action>)
    requires Start(sys)
    ensures SysInv(Exec(sys, xs), xs)
    ensures forall p | p in sys.procs :: Exec(sys, xs).procs[p].me == sys.procs[p].me
    decreases |xs|
  {
    if xs == [] {
      forall q | q in sys.procs ensures ProcOk(sys, xs, q) {
        FreshInv(sys.procs[q]);
      }
    } else {
      RunInvariant(sys, xs[..|xs| - 1]);
      assert xs == xs[..|xs| - 1] + [xs[|xs| - 1]];
      PerformKeeps(Exec(sys, xs[..|xs| - 1]), xs[..|xs| - 1], xs[|xs| - 1]);
    }
  }

  // ---- The theorems ----

  // Nobody ever holds a row its process did not advertise, in that table, with exactly these fields.
  lemma NoFabrication(sys: System, xs: seq<Action>, q: string, k: Kind, t: string, p: string, a: Address)
    requires Start(sys) && q in sys.procs
    requires a in Vector(Exec(sys, xs).procs[q], k, t, p)
    ensures Advertised(xs, p, k, t, a)
  {
    RunInvariant(sys, xs);
    assert RowOk(Exec(sys, xs), xs, q, k, t, p, a);
  }

  // Scopes confine, although heartbeats re-send every row.
  lemma ScopeConfinement(sys: System, xs: seq<Action>, q: string, k: Kind, t: string, p: string, a: Address)
    requires Start(sys) && q in sys.procs && p != q
    requires a in Vector(Exec(sys, xs).procs[q], k, t, p)
    ensures a.scope != Process
    ensures a.scope == Host ==> p in sys.procs && sys.procs[p].me.hostAddr == sys.procs[q].me.hostAddr
  {
    RunInvariant(sys, xs);
    assert RowOk(Exec(sys, xs), xs, q, k, t, p, a);
  }

  // In every reachable system a remote process with a row anywhere has an activity entry, and no
  // process watches itself.
  lemma ActivityCoverage(sys: System, xs: seq<Action>, q: string, k: Kind, t: string, p: string)
    requires Start(sys) && q in sys.procs
    ensures q !in Exec(sys, xs).procs[q].activity
    ensures p != q && Vector(Exec(sys, xs).procs[q], k, t, p) != [] ==> p in Exec(sys, xs).procs[q].activity
  {
    RunInvariant(sys, xs);
    assert ProcOk(Exec(sys, xs), xs, q);
  }
}
