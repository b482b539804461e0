// Any number of processes, each with any number of nodes, on the network of Network: whom a service
// request is addressed to, and whether anybody is left there to answer it.
module ServiceNetwork {
  import opened Types
  import opened TopicTable
  import opened Ordering
  import opened Messages
  import HS = HandlerStorage
  import P = Protocol
  import N = Network
  import O = OneProcess
  import R = Requests
  import Matching
  import Repair

  // A request a process addressed to a responder, the first address of the first process it knew, and its frame.
  datatype Asked = Asked(from: string, key: HS.Key, proc: string, to: Address, frame: R.ReqMsg)

  datatype System = System(procs: map<string, O.World>, net: iset<N.Packet>, asked: iset<Asked>)

  datatype Action = Act(p: string, x: O.Move) | Deliver(p: string, packet: N.Packet, now: int)

  // The addresses each process got when it started.
  type Ends = string -> O.Endpoints

  // The discovery messages a process sends in a step.
  ghost predicate Sends(w: O.World, ends: O.Endpoints, x: O.Move, m: Message) {
    match x
    case Do(n, c) => n in w.nodes && m in O.Perform(w.stores, n, w.nodes[n], ends, c).sent
    case Destroy(n) => n in w.nodes && exists t :: O.Owes(w.stores.disc, n, t, m)
    case Discover(i) => !P.LocalUpdate(i) && m in P.Step(w.stores.disc, i).sent
    case Ask(n, topic, h, _) => SearchesFor(w, n, topic, h, m)
    case _ => false
  }

  // A request nobody here answers and no responder is known for starts a search.
  ghost predicate SearchesFor(w: O.World, n: string, topic: string, h: string, m: Message) {
    && n in w.nodes && O.Qualify(w.nodes[n], topic).Some? && O.FreshUuid(w.pending, h)
    && O.Qualify(w.nodes[n], topic).value !in w.stores.repliers
    && O.Qualify(w.nodes[n], topic).value !in w.stores.disc.infoSrv
    && m == Sub(Srv, w.stores.disc.me.pUuid, O.Qualify(w.nodes[n], topic).value)
  }

  // The request is addressed, and marked, in the step from w to w'.
  ghost predicate Leaves(w: O.World, w': O.World, k: HS.Key) {
    k in w'.pending && w'.pending[k].requested && !(k in w.pending && w.pending[k].requested)
  }

  ghost predicate Addressed(s: P.State, topic: string, proc: string, to: Address) {
    && topic in s.infoSrv && proc in s.infoSrv[topic] && IsLeast(proc, s.infoSrv[topic].Keys)
    && s.infoSrv[topic][proc] != [] && to == s.infoSrv[topic][proc][0]
  }

  ghost function OnAir(w: O.World, ends: O.Endpoints, x: O.Move): iset<N.Packet> {
    iset pk: N.Packet | pk.fromIp == w.stores.disc.me.hostAddr && Sends(w, ends, x, pk.msg)
  }

  ghost function AskedIn(p: string, ends: O.Endpoints, w: O.World, w': O.World): iset<Asked> {
    iset r: Asked |
      && r.from == p && Leaves(w, w', r.key) && Addressed(w'.stores.disc, r.key.topic, r.proc, r.to)
      && r.frame == R.ReqFor(w'.pending, r.key, r.to, ends.requester, ends.receiverId)
  }

  ghost function StepAt(sys: System, ends: Ends, p: string, x: O.Move): (sys': System)
    requires p in sys.procs
    ensures sys'.procs.Keys == sys.procs.Keys
  {
    var w := sys.procs[p];
    var w' := O.Step(w, ends(p), x);
    System(sys.procs[p := w'], sys.net + OnAir(w, ends(p), x), sys.asked + AskedIn(p, ends(p), w, w'))
  }

  // Whatever a process does on its own, and deliveries of what is on the air.
  ghost function MoveOf(sys: System, x: Action): Option<O.Move> {
    if x.p !in sys.procs then None
    else match x
      case Act(_, m) => if m.Discover? && m.i.Recv? then None else Some(m)
      case Deliver(_, pk, now) =>
        if pk in sys.net then Some(O.Discover(P.Recv(pk.fromIp, Transmit(pk.msg), now))) else None
  }

  ghost function Perform(sys: System, ends: Ends, x: Action): (sys': System)
    ensures sys'.procs.Keys == sys.procs.Keys
  {
    if MoveOf(sys, x).None? then sys else StepAt(sys, ends, x.p, MoveOf(sys, x).value)
  }

  ghost function Exec(sys: System, ends: Ends, xs: seq<Action>): (sys': System)
    ensures sys'.procs.Keys == sys.procs.Keys
    decreases |xs|
  {
    if xs == [] then sys else Perform(Exec(sys, ends, xs[..|xs| - 1]), ends, xs[|xs| - 1])
  }

  ghost predicate Start(sys: System) {
    && sys.net == iset{} && sys.asked == iset{}
    && forall p | p in sys.procs :: O.Start(sys.procs[p]) && sys.procs[p].stores.disc.me.pUuid == p
  }

  // ---- What the nodes did ----

  // A node of the process advertises the service, at this address.
  ghost predicate Advertises(w: O.World, ends: O.Endpoints, x: O.Move, full: string, a: Address) {
    && x.Do? && x.call.AdvertiseSrv? && x.n in w.nodes && O.Qualify(w.nodes[x.n], x.call.topic) == Some(full)
    && a == Address(ends.replier, ends.replierId, x.n, x.call.scope)
  }

  ghost predicate AdvertisedAt(sys: System, ends: Ends, xs: seq<Action>, i: nat, p: string, full: string, a: Address) {
    && i < |xs| && xs[i].Act? && xs[i].p == p && p in sys.procs
    && Advertises(Exec(sys, ends, xs[..i]).procs[p], ends(p), xs[i].x, full, a)
  }

  ghost predicate Advertised(sys: System, ends: Ends, xs: seq<Action>, p: string, full: string, a: Address) {
    exists i: nat :: AdvertisedAt(sys, ends, xs, i, p, full, a)
  }

  // Node n of p advertised the service and has neither withdrawn it nor been destroyed since.
  ghost predicate Offers(sys: System, ends: Ends, xs: seq<Action>, p: string, n: string, full: string)
    decreases |xs|
  {
    if xs == [] then false else
      var ys, x := xs[..|xs| - 1], xs[|xs| - 1];
      if !(x.Act? && x.p == p && p in sys.procs) then Offers(sys, ends, ys, p, n, full) else
        var w := Exec(sys, ends, ys).procs[p];
        if x.x == O.Destroy(n) || Names(w, x.x, n, full) then Names(w, x.x, n, full) && x.x.call.AdvertiseSrv?
        else Offers(sys, ends, ys, p, n, full)
  }

  // The move is a call of n that advertises or unadvertises the service.
  ghost predicate Names(w: O.World, x: O.Move, n: string, full: string) {
    && x.Do? && x.n == n && n in w.nodes && (x.call.AdvertiseSrv? || x.call.UnadvertiseSrv?)
    && O.Qualify(w.nodes[n], x.call.topic) == Some(full)
  }

  // ---- One step of one process ----

  // A service row is an old one, one a node advertises now, or came with an ADV.
  lemma StepRows(w: O.World, ends: O.Endpoints, x: O.Move, t: string, p: string, a: Address)
    requires O.Inv(w) && a in P.Vector(O.Step(w, ends, x).stores.disc, Srv, t, p)
    ensures a in P.Vector(w.stores.disc, Srv, t, p)
         || (p == w.stores.disc.me.pUuid && Advertises(w, ends, x, t, a))
         || (p != w.stores.disc.me.pUuid && x.Discover? && x.i.Recv? && x.i.msg == Adv(Srv, p, t, a)
             && a.scope != Process)
  {
    if x.Do? && x.n in w.nodes && O.Qualify(w.nodes[x.n], x.call.topic).Some? {
      CallRows(w.stores, x.n, w.nodes[x.n], ends, x.call, t, p, a);
    } else if x.Discover? && !P.LocalUpdate(x.i) {
      N.StepRows(w.stores.disc, x.i, Srv, t, p, a);
    }
  }

  lemma CallRows(st: O.Stores, n: string, v: O.Names, ends: O.Endpoints, c: O.Call, t: string, p: string, a: Address)
    requires P.Inv(st.disc) && O.Qualify(v, c.topic).Some?
    requires a in P.Vector(O.Perform(st, n, v, ends, c).stores.disc, Srv, t, p)
    ensures a in P.Vector(st.disc, Srv, t, p)
         || (p == st.disc.me.pUuid && c.AdvertiseSrv? && O.Qualify(v, c.topic) == Some(t)
             && a == Address(ends.replier, ends.replierId, n, c.scope))
  {
    var x := O.Qualify(v, c.topic).value;
    O.PerformAt(st, n, v, ends, c, x);
    if c.AdvertiseSrv? {
      P.InsertAt(st.disc, Srv, x, st.disc.me.pUuid, Address(ends.replier, ends.replierId, n, c.scope));
    } else {
      O.OtherCallServices(st, n, v, ends, c, x);
    }
  }

  // No node ever unadvertises a service, and an ADV of one is of a row the process has or gets.
  ghost predicate Truthful(w: O.World, ends: O.Endpoints, x: O.Move, m: Message) {
    && m.pUuid == w.stores.disc.me.pUuid && !(m.Unadv? && m.kind == Srv)
    && (m.Adv? && m.kind == Srv ==>
          Advertises(w, ends, x, m.topic, m.info) || m.info in P.Vector(w.stores.disc, Srv, m.topic, m.pUuid))
  }

  lemma CallTruthful(w: O.World, ends: O.Endpoints, n: string, c: O.Call, m: Message)
    requires n in w.nodes && m in O.Perform(w.stores, n, w.nodes[n], ends, c).sent
    ensures Truthful(w, ends, O.Do(n, c), m)
  {
    var v := w.nodes[n];
    if O.Qualify(v, c.topic).Some? {
      O.PerformAt(w.stores, n, v, ends, c, O.Qualify(v, c.topic).value);
    }
  }

  lemma SentTruthful(w: O.World, ends: O.Endpoints, x: O.Move, m: Message)
    requires O.Inv(w) && Sends(w, ends, x, m)
    ensures Truthful(w, ends, x, m)
  {
    match x
    case Do(n, c) => CallTruthful(w, ends, n, c, m);
    case Discover(i) => N.SentTruthful(w.stores.disc, i);
    case _ =>
  }

  lemma {:induction false} CallbacksKnow(t: R.Pending, d: Table, events: seq<P.Event>, k: HS.Key)
    requires var t' := Matching.Callbacks(t, d, events);
             k in t' && t'[k].requested && !(k in t && t[k].requested)
    ensures k.topic in d
    decreases |events|
  {
    if events != [] {
      var e := events[0];
      var t1 := if e.Connected? && e.kind == Srv then Matching.SendKnown(t, d, e.topic) else t;
      if !(k in t1 && t1[k].requested) {
        CallbacksKnow(t1, d, events[1..], k);
      }
    }
  }

  // Whatever is addressed has an address.
  lemma LeavesKnown(w: O.World, ends: O.Endpoints, x: O.Move, k: HS.Key)
    requires O.Inv(w) && Leaves(w, O.Step(w, ends, x), k)
    ensures exists proc, to :: Addressed(O.Step(w, ends, x).stores.disc, k.topic, proc, to)
  {
    var w' := O.Step(w, ends, x);
    O.StepInv(w, ends, x);
    if x.Discover? && !P.LocalUpdate(x.i) {
      CallbacksKnow(w.pending, w'.stores.disc.infoSrv, P.Step(w.stores.disc, x.i).events, k);
    }
    assert k.topic in w'.stores.disc.infoSrv;
    var m := w'.stores.disc.infoSrv[k.topic];
    assert m != map[];
    assert Addressed(w'.stores.disc, k.topic, Least(m.Keys), m[Least(m.Keys)][0]);
  }

  // ---- The invariant ----

  // What a process may hold, what may be on the air, and what may have been addressed.
  ghost predicate ProcOk(sys: System, ends: Ends, xs: seq<Action>, e: System, q: string)
    requires q in e.procs
  {
    var w := e.procs[q];
    && O.Inv(w) && w.stores.disc.me.pUuid == q
    && forall t, p, a | a in P.Vector(w.stores.disc, Srv, t, p) :: RowOk(sys, ends, xs, t, p, a)
  }

  ghost predicate RowOk(sys: System, ends: Ends, xs: seq<Action>, t: string, p: string, a: Address) {
    p in sys.procs && Advertised(sys, ends, xs, p, t, a)
  }

  ghost predicate PacketOk(sys: System, ends: Ends, xs: seq<Action>, m: Message) {
    && m.pUuid in sys.procs && !(m.Unadv? && m.kind == Srv)
    && (m.Adv? && m.kind == Srv ==> Advertised(sys, ends, xs, m.pUuid, m.topic, m.info))
  }

  ghost predicate SysInv(sys: System, ends: Ends, xs: seq<Action>, e: System) {
    && e.procs.Keys == sys.procs.Keys
    && (forall q | q in e.procs :: ProcOk(sys, ends, xs, e, q))
    && (forall pk | pk in e.net :: PacketOk(sys, ends, xs, pk.msg))
    && (forall r | r in e.asked :: AskedOk(sys, ends, xs, r))
  }

  // The responder advertised the service there, and the frame goes to that process's replier, from here.
  ghost predicate AskedOk(sys: System, ends: Ends, xs: seq<Action>, r: Asked) {
    && RowOk(sys, ends, xs, r.key.topic, r.proc, r.to)
    && r.frame.dst == ends(r.proc).replierId && r.frame.topic == r.key.topic
    && r.frame.sender == ends(r.from).requester && r.frame.replyTo == ends(r.from).receiverId
    && r.frame.node == r.key.node && r.frame.req == r.key.handler
  }

  lemma AdvertisedGrows(sys: System, ends: Ends, xs: seq<Action>, x: Action, p: string, full: string, a: Address)
    requires Advertised(sys, ends, xs, p, full, a)
    ensures Advertised(sys, ends, xs + [x], p, full, a)
  {
    var i: nat :| AdvertisedAt(sys, ends, xs, i, p, full, a);
    assert (xs + [x])[..i] == xs[..i];
    assert AdvertisedAt(sys, ends, xs + [x], i, p, full, a);
  }

  lemma AdvertisedNow(sys: System, ends: Ends, xs: seq<Action>, x: Action, full: string, a: Address)
    requires x.Act? && x.p in sys.procs
    requires Advertises(Exec(sys, ends, xs).procs[x.p], ends(x.p), x.x, full, a)
    ensures Advertised(sys, ends, xs + [x], x.p, full, a)
  {
    assert (xs + [x])[..|xs|] == xs;
    assert AdvertisedAt(sys, ends, xs + [x], |xs|, x.p, full, a);
  }

  lemma InvGrows(sys: System, ends: Ends, xs: seq<Action>, x: Action, e: System)
    requires SysInv(sys, ends, xs, e)
    ensures SysInv(sys, ends, xs + [x], e)
  {
    forall t, p, a | RowOk(sys, ends, xs, t, p, a) ensures RowOk(sys, ends, xs + [x], t, p, a) {
      AdvertisedGrows(sys, ends, xs, x, p, t, a);
    }
    forall q | q in e.procs ensures ProcOk(sys, ends, xs + [x], e, q) {
      assert ProcOk(sys, ends, xs, e, q);
    }
    forall pk | pk in e.net ensures PacketOk(sys, ends, xs + [x], pk.msg) {
      assert PacketOk(sys, ends, xs, pk.msg);
      if pk.msg.Adv? && pk.msg.kind == Srv {
        AdvertisedGrows(sys, ends, xs, x, pk.msg.pUuid, pk.msg.topic, pk.msg.info);
      }
    }
  }

  lemma MoveIs(e: System, x: Action, m: O.Move)
    requires MoveOf(e, x) == Some(m)
    ensures x.p in e.procs && (x.Act? ==> m == x.x && !(m.Discover? && m.i.Recv?))
    ensures x.Deliver? ==> x.packet in e.net
    ensures x.Deliver? ==> m == O.Discover(P.Recv(x.packet.fromIp, Transmit(x.packet.msg), x.now))
  {
  }

  // A new row of the process that moves.
  lemma MoverRow(sys: System, ends: Ends, xs: seq<Action>, x: Action, w: O.World, m: O.Move, t: string, p: string,
                 a: Address)
    requires x.p in sys.procs && w == Exec(sys, ends, xs).procs[x.p] && O.Inv(w) && w.stores.disc.me.pUuid == x.p
    requires x.Act? ==> m == x.x && !(m.Discover? && m.i.Recv?)
    requires x.Deliver? ==> PacketOk(sys, ends, xs + [x], x.packet.msg)
    requires x.Deliver? ==> m == O.Discover(P.Recv(x.packet.fromIp, Transmit(x.packet.msg), x.now))
    requires a in P.Vector(O.Step(w, ends(x.p), m).stores.disc, Srv, t, p) && a !in P.Vector(w.stores.disc, Srv, t, p)
    ensures RowOk(sys, ends, xs + [x], t, p, a)
  {
    StepRows(w, ends(x.p), m, t, p, a);
    if p == x.p {
      AdvertisedNow(sys, ends, xs, x, t, a);
    } else {
      assert x.packet.msg == Adv(Srv, p, t, a);
    }
  }

  lemma MoverOk(sys: System, ends: Ends, xs: seq<Action>, x: Action, e: System, m: O.Move)
    requires e == Exec(sys, ends, xs) && SysInv(sys, ends, xs + [x], e) && MoveOf(e, x) == Some(m)
    ensures ProcOk(sys, ends, xs + [x], StepAt(e, ends, x.p, m), x.p)
  {
    var w := e.procs[x.p];
    var w' := O.Step(w, ends(x.p), m);
    MoveIs(e, x, m);
    assert ProcOk(sys, ends, xs + [x], e, x.p);
    O.StepInv(w, ends(x.p), m);
    forall t, p, a | a in P.Vector(w'.stores.disc, Srv, t, p) ensures RowOk(sys, ends, xs + [x], t, p, a) {
      if a in P.Vector(w.stores.disc, Srv, t, p) {
        assert RowOk(sys, ends, xs + [x], t, p, a);
      } else {
        MoverRow(sys, ends, xs, x, w, m, t, p, a);
      }
    }
  }

  // What the move puts on the air, and what it addresses.
  lemma AirOk(sys: System, ends: Ends, xs: seq<Action>, x: Action, e: System, m: O.Move)
    requires e == Exec(sys, ends, xs) && SysInv(sys, ends, xs + [x], e) && MoveOf(e, x) == Some(m)
    ensures forall pk | pk in OnAir(e.procs[x.p], ends(x.p), m) :: PacketOk(sys, ends, xs + [x], pk.msg)
  {
    forall pk | pk in OnAir(e.procs[x.p], ends(x.p), m) ensures PacketOk(sys, ends, xs + [x], pk.msg) {
      SenderOk(sys, ends, xs, x, e, m, pk.msg);
    }
  }

  lemma NewAskedOk(sys: System, ends: Ends, xs: seq<Action>, e: System, p: string, w: O.World)
    requires p in e.procs && ProcOk(sys, ends, xs, e, p)
    ensures forall r | r in AskedIn(p, ends(p), w, e.procs[p]) :: AskedOk(sys, ends, xs, r)
  {
    forall r | r in AskedIn(p, ends(p), w, e.procs[p]) ensures AskedOk(sys, ends, xs, r) {
      assert r.to in P.Vector(e.procs[p].stores.disc, Srv, r.key.topic, r.proc);
      assert Advertised(sys, ends, xs, r.proc, r.key.topic, r.to);
    }
  }

  lemma StepKeeps(sys: System, ends: Ends, xs: seq<Action>, x: Action, e: System, m: O.Move)
    requires e == Exec(sys, ends, xs) && SysInv(sys, ends, xs, e) && MoveOf(e, x) == Some(m)
    ensures SysInv(sys, ends, xs + [x], StepAt(e, ends, x.p, m))
  {
    var e' := StepAt(e, ends, x.p, m);
    InvGrows(sys, ends, xs, x, e);
    MoverOk(sys, ends, xs, x, e, m);
    AirOk(sys, ends, xs, x, e, m);
    NewAskedOk(sys, ends, xs + [x], e', x.p, e.procs[x.p]);
    BystandersOk(sys, ends, xs + [x], e, e', x.p);
    PartsOk(sys, ends, xs + [x], e, e', x.p, OnAir(e.procs[x.p], ends(x.p), m),
            AskedIn(x.p, ends(x.p), e.procs[x.p], e'.procs[x.p]));
  }

  lemma PartsOk(sys: System, ends: Ends, xs: seq<Action>, e: System, e': System, p: string, air: iset<N.Packet>,
                asked: iset<Asked>)
    requires SysInv(sys, ends, xs, e) && e'.procs.Keys == e.procs.Keys && p in e'.procs
    requires e'.net == e.net + air && e'.asked == e.asked + asked
    requires ProcOk(sys, ends, xs, e', p) && forall q | q in e'.procs && q != p :: ProcOk(sys, ends, xs, e', q)
    requires forall pk | pk in air :: PacketOk(sys, ends, xs, pk.msg)
    requires forall r | r in asked :: AskedOk(sys, ends, xs, r)
    ensures SysInv(sys, ends, xs, e')
  {
  }

  lemma BystandersOk(sys: System, ends: Ends, xs: seq<Action>, e: System, e': System, p: string)
    requires SysInv(sys, ends, xs, e) && e'.procs.Keys == e.procs.Keys
    requires forall q | q in e.procs && q != p :: e'.procs[q] == e.procs[q]
    ensures forall q | q in e'.procs && q != p :: ProcOk(sys, ends, xs, e', q)
  {
    forall q | q in e'.procs && q != p ensures ProcOk(sys, ends, xs, e', q) {
      assert ProcOk(sys, ends, xs, e, q);
    }
  }

  lemma SenderOk(sys: System, ends: Ends, xs: seq<Action>, x: Action, e: System, m: O.Move, msg: Message)
    requires e == Exec(sys, ends, xs) && SysInv(sys, ends, xs + [x], e) && MoveOf(e, x) == Some(m)
    requires Sends(e.procs[x.p], ends(x.p), m, msg)
    ensures PacketOk(sys, ends, xs + [x], msg)
  {
    var w := e.procs[x.p];
    assert ProcOk(sys, ends, xs + [x], e, x.p);
    SentTruthful(w, ends(x.p), m, msg);
    if msg.Adv? && msg.kind == Srv {
      if msg.info in P.Vector(w.stores.disc, Srv, msg.topic, x.p) {
        assert RowOk(sys, ends, xs + [x], msg.topic, x.p, msg.info);
      } else {
        AdvertisedNow(sys, ends, xs, x, msg.topic, msg.info);
      }
    }
  }

  lemma StartOk(sys: System, ends: Ends)
    requires Start(sys)
    ensures SysInv(sys, ends, [], sys)
  {
    forall q | q in sys.procs ensures ProcOk(sys, ends, [], sys, q) {
      O.RunInv(sys.procs[q], ends(q), []);
    }
  }

  lemma PerformKeeps(sys: System, ends: Ends, xs: seq<Action>, x: Action, e: System)
    requires e == Exec(sys, ends, xs) && SysInv(sys, ends, xs, e)
    ensures SysInv(sys, ends, xs + [x], Perform(e, ends, x))
  {
    if MoveOf(e, x).Some? {
      StepKeeps(sys, ends, xs, x, e, MoveOf(e, x).value);
    } else {
      InvGrows(sys, ends, xs, x, e);
    }
  }

  lemma {:induction false} RunInvariant(sys: System, ends: Ends, xs: seq<Action>)
    requires Start(sys)
    ensures SysInv(sys, ends, xs, Exec(sys, ends, xs))
    decreases |xs|
  {
    if xs == [] {
      StartOk(sys, ends);
    } else {
      var ys, x := xs[..|xs| - 1], xs[|xs| - 1];
      RunInvariant(sys, ends, ys);
      assert xs == ys + [x];
      PerformKeeps(sys, ends, ys, x, Exec(sys, ends, ys));
    }
  }

  // What the invariant says of one process and of one datagram.
  lemma InvAt(sys: System, ends: Ends, xs: seq<Action>, q: string)
    requires Start(sys) && q in sys.procs
    ensures var w := Exec(sys, ends, xs).procs[q]; O.Inv(w) && w.stores.disc.me.pUuid == q
    ensures forall pk | pk in Exec(sys, ends, xs).net :: !(pk.msg.Unadv? && pk.msg.kind == Srv)
  {
    RunInvariant(sys, ends, xs);
    assert ProcOk(sys, ends, xs, Exec(sys, ends, xs), q);
    assert forall pk | pk in Exec(sys, ends, xs).net :: PacketOk(sys, ends, xs, pk.msg);
  }

  // ---- Who offers a service ----

  // What a move of the process does to what node n lists.
  lemma StepListed(w: O.World, ends: O.Endpoints, x: O.Move, n: string, full: string)
    ensures full in O.NodeOf(O.Step(w, ends, x), n).services
       <==> if x == O.Destroy(n) || Names(w, x, n, full) then Names(w, x, n, full) && x.call.AdvertiseSrv?
            else full in O.NodeOf(w, n).services
  {
    if x.Do? && x.n in w.nodes && O.Qualify(w.nodes[x.n], x.call.topic).Some? {
      O.PerformAt(w.stores, x.n, w.nodes[x.n], ends, x.call, O.Qualify(w.nodes[x.n], x.call.topic).value);
    }
  }

  lemma {:induction false} OffersIsListed(sys: System, ends: Ends, xs: seq<Action>, p: string, n: string, full: string)
    requires Start(sys) && p in sys.procs
    ensures Offers(sys, ends, xs, p, n, full) <==> full in O.NodeOf(Exec(sys, ends, xs).procs[p], n).services
    decreases |xs|
  {
    if xs != [] {
      var ys, x := xs[..|xs| - 1], xs[|xs| - 1];
      var e := Exec(sys, ends, ys);
      OffersIsListed(sys, ends, ys, p, n, full);
      if x.p == p && MoveOf(e, x).Some? {
        StepListed(e.procs[p], ends(p), MoveOf(e, x).value, n, full);
      }
    }
  }

  // ---- The theorems ----

  // In every run each request a process addressed went to a replier that some node of the named process
  // advertised for that very service, and that process still has a replier for it exactly if some node of
  // it advertised the service and neither withdrew it nor was destroyed since.
  lemma RequestsAddressed(sys: System, ends: Ends, xs: seq<Action>, r: Asked)
    requires Start(sys) && r in Exec(sys, ends, xs).asked
    ensures r.proc in sys.procs && Advertised(sys, ends, xs, r.proc, r.key.topic, r.to)
    ensures r.frame.dst == ends(r.proc).replierId && r.frame.topic == r.key.topic
    ensures r.frame.sender == ends(r.from).requester && r.frame.replyTo == ends(r.from).receiverId
    ensures r.frame.node == r.key.node && r.frame.req == r.key.handler
    ensures r.key.topic in Exec(sys, ends, xs).procs[r.proc].stores.repliers
       <==> exists n :: Offers(sys, ends, xs, r.proc, n, r.key.topic)
  {
    RunInvariant(sys, ends, xs);
    ReplierIff(sys, ends, xs, r.proc, r.key.topic);
  }

  lemma ReplierIff(sys: System, ends: Ends, xs: seq<Action>, p: string, full: string)
    requires Start(sys) && p in sys.procs
    ensures full in Exec(sys, ends, xs).procs[p].stores.repliers <==> exists n :: Offers(sys, ends, xs, p, n, full)
  {
    var w := Exec(sys, ends, xs).procs[p];
    RunInvariant(sys, ends, xs);
    assert ProcOk(sys, ends, xs, Exec(sys, ends, xs), p);
    O.ReplierMeansService(w, full);
    if full in w.stores.repliers {
      var n :| n in w.nodes && full in w.nodes[n].services;
      OffersIsListed(sys, ends, xs, p, n, full);
    }
    if n :| Offers(sys, ends, xs, p, n, full) {
      OffersIsListed(sys, ends, xs, p, n, full);
    }
  }

  lemma AddressedIsResponder(s: P.State, topic: string, proc: string, to: Address)
    requires Canonical(s.infoSrv) && Addressed(s, topic, proc, to)
    ensures O.Responder(s.infoSrv, topic) == Some(to)
  {
    LeastUnique(s.infoSrv[topic].Keys);
  }

  ghost predicate WasAsked(e: System, q: string, k: HS.Key) {
    exists r :: r in e.asked && r.from == q && r.key == k
  }

  // No request is marked as requested that was not addressed to somebody.
  lemma {:induction false} MarkedWasAsked(sys: System, ends: Ends, xs: seq<Action>, q: string, k: HS.Key)
    requires Start(sys) && q in sys.procs
    requires var t := Exec(sys, ends, xs).procs[q].pending; k in t && t[k].requested
    ensures WasAsked(Exec(sys, ends, xs), q, k)
    decreases |xs|
  {
    var ys, x := xs[..|xs| - 1], xs[|xs| - 1];
    var e := Exec(sys, ends, ys);
    if k in e.procs[q].pending && e.procs[q].pending[k].requested {
      MarkedWasAsked(sys, ends, ys, q, k);
    } else {
      InvAt(sys, ends, ys, q);
      LeavesAsked(e, ends, x, k);
    }
  }

  lemma LeavesAsked(e: System, ends: Ends, x: Action, k: HS.Key)
    requires MoveOf(e, x).Some? && O.Inv(e.procs[x.p])
    requires Leaves(e.procs[x.p], O.Step(e.procs[x.p], ends(x.p), MoveOf(e, x).value), k)
    ensures WasAsked(Perform(e, ends, x), x.p, k)
  {
    var w := e.procs[x.p];
    var w' := O.Step(w, ends(x.p), MoveOf(e, x).value);
    LeavesKnown(w, ends(x.p), MoveOf(e, x).value, k);
    var proc, to :| Addressed(w'.stores.disc, k.topic, proc, to);
    var frame := R.ReqFor(w'.pending, k, to, ends(x.p).requester, ends(x.p).receiverId);
    assert Asked(x.p, k, proc, to, frame) in AskedIn(x.p, ends(x.p), w, w');
  }

  // ---- How long a withdrawn service stays the first choice ----

  // A process forgets everything about p: p's BYE arrives, or a pass finds p expired.
  ghost predicate Drops(s: P.State, m: O.Move, p: string) {
    m.Discover? && ((m.i.DoActivity? && Repair.DropsAll(s, p, m.i.now))
                    || (m.i.Recv? && m.i.msg.Bye? && m.i.msg.pUuid == p))
  }

  ghost predicate Forgets(e: System, x: Action, q: string, p: string) {
    x.p == q && MoveOf(e, x).Some? && Drops(e.procs[q].stores.disc, MoveOf(e, x).value, p)
  }

  // A move that does not unadvertise a service of p.
  ghost predicate Spares(m: O.Move, p: string) {
    m.Discover? && m.i.Recv? ==> !(m.i.msg.Unadv? && m.i.msg.kind == Srv && m.i.msg.pUuid == p)
  }

  lemma DiscoverGrows(s: P.State, i: P.Input, t: string, p: string)
    requires P.Inv(s) && p != s.me.pUuid && !P.LocalUpdate(i) && Spares(O.Discover(i), p)
    ensures var v, v' := P.Vector(s, Srv, t, p), P.Vector(P.Step(s, i).next, Srv, t, p);
            if Drops(s, O.Discover(i), p) then v' == [] else v <= v'
  {
    match i
    case DoActivity(now) => PassGrows(s, now, t, p);
    case Recv(ip, m, now) => P.ReceiveVec(s, ip, m, now);
    case _ =>
  }

  lemma PassGrows(s: P.State, now: int, t: string, p: string)
    requires P.Inv(s) && p != s.me.pUuid
    ensures P.Vector(P.Activity(s, now).next, Srv, t, p)
         == if Repair.DropsAll(s, p, now) then [] else P.Vector(s, Srv, t, p)
  {
    if s.me.cbs.disconnection {
      P.ActivityOverMeaning(s, Keys(s.activity.Keys), now);
    } else {
      P.ActivityOverStops(s, Keys(s.activity.Keys), now, Srv, t, p);
    }
  }

  lemma MoveGrows(w: O.World, ends: O.Endpoints, m: O.Move, t: string, p: string)
    requires O.Inv(w) && p != w.stores.disc.me.pUuid && Spares(m, p)
    ensures var v, v' := P.Vector(w.stores.disc, Srv, t, p), P.Vector(O.Step(w, ends, m).stores.disc, Srv, t, p);
            if Drops(w.stores.disc, m, p) then v' == [] else v <= v'
  {
    if m.Discover? {
      if !P.LocalUpdate(m.i) {
        DiscoverGrows(w.stores.disc, m.i, t, p);
      }
    } else if m.Do? && m.n in w.nodes && O.Qualify(w.nodes[m.n], m.call.topic).Some? {
      CallLeaves(w.stores, m.n, w.nodes[m.n], ends, m.call, t, p);
    }
  }

  // What q knows of p's services of one name.
  ghost function KnownRows(sys: System, ends: Ends, xs: seq<Action>, q: string, t: string, p: string): seq<Address>
    requires q in sys.procs
  {
    P.Vector(Exec(sys, ends, xs).procs[q].stores.disc, Srv, t, p)
  }

  // Nobody sends an UNADV for a service, so what a process knows of another's services only grows until it
  // forgets that process.
  lemma ServiceRowsGrow(sys: System, ends: Ends, xs: seq<Action>, x: Action, q: string, t: string, p: string)
    requires Start(sys) && q in sys.procs && p != q
    ensures var v, v' := KnownRows(sys, ends, xs, q, t, p), KnownRows(sys, ends, xs + [x], q, t, p);
            if Forgets(Exec(sys, ends, xs), x, q, p) then v' == [] else v <= v'
  {
    var e := Exec(sys, ends, xs);
    ExecNext(sys, ends, xs, x);
    if x.p == q && MoveOf(e, x).Some? {
      InvAt(sys, ends, xs, q);
      MoveIs(e, x, MoveOf(e, x).value);
      TransmitKeepsKind(x, p);
      MoveGrows(e.procs[q], ends(q), MoveOf(e, x).value, t, p);
    }
  }

  lemma TransmitKeepsKind(x: Action, p: string)
    requires x.Deliver? ==> !(x.packet.msg.Unadv? && x.packet.msg.kind == Srv)
    ensures x.Deliver? ==> Spares(O.Discover(P.Recv(x.packet.fromIp, Transmit(x.packet.msg), x.now)), p)
  {
  }

  lemma CallLeaves(st: O.Stores, n: string, v: O.Names, ends: O.Endpoints, c: O.Call, t: string, p: string)
    requires P.Inv(st.disc) && O.Qualify(v, c.topic).Some? && p != st.disc.me.pUuid
    ensures P.Vector(O.Perform(st, n, v, ends, c).stores.disc, Srv, t, p) == P.Vector(st.disc, Srv, t, p)
  {
    var x := O.Qualify(v, c.topic).value;
    O.PerformAt(st, n, v, ends, c, x);
    if c.AdvertiseSrv? {
      P.InsertAt(st.disc, Srv, x, st.disc.me.pUuid, Address(ends.replier, ends.replierId, n, c.scope));
    } else {
      O.OtherCallServices(st, n, v, ends, c, x);
    }
  }

  ghost predicate NeverForgets(sys: System, ends: Ends, xs: seq<Action>, ys: seq<Action>, q: string, p: string) {
    forall i | 0 <= i < |ys| :: !Forgets(Exec(sys, ends, xs + ys[..i]), ys[i], q, p)
  }

  lemma NeverForgetsBefore(sys: System, ends: Ends, xs: seq<Action>, ys: seq<Action>, q: string, p: string)
    requires ys != [] && NeverForgets(sys, ends, xs, ys, q, p)
    ensures NeverForgets(sys, ends, xs, ys[..|ys| - 1], q, p)
    ensures !Forgets(Exec(sys, ends, xs + ys[..|ys| - 1]), ys[|ys| - 1], q, p)
  {
    var zs := ys[..|ys| - 1];
    forall i | 0 <= i < |zs| ensures !Forgets(Exec(sys, ends, xs + zs[..i]), zs[i], q, p) {
      assert zs[..i] == ys[..i];
    }
  }

  lemma {:induction false} RowsGrow(sys: System, ends: Ends, xs: seq<Action>, ys: seq<Action>, q: string, t: string,
                                    p: string)
    requires Start(sys) && q in sys.procs && p != q && NeverForgets(sys, ends, xs, ys, q, p)
    ensures KnownRows(sys, ends, xs, q, t, p) <= KnownRows(sys, ends, xs + ys, q, t, p)
    decreases |ys|
  {
    if ys == [] {
      assert xs + ys == xs;
    } else {
      var zs, n := ys[..|ys| - 1], |ys| - 1;
      NeverForgetsBefore(sys, ends, xs, ys, q, p);
      RowsGrow(sys, ends, xs, zs, q, t, p);
      ServiceRowsGrow(sys, ends, xs + zs, ys[n], q, t, p);
      Snoc(xs, ys);
      PrefixTransitive(KnownRows(sys, ends, xs, q, t, p), KnownRows(sys, ends, xs + zs, q, t, p),
                       KnownRows(sys, ends, xs + ys, q, t, p));
    }
  }

  lemma Snoc(xs: seq<Action>, ys: seq<Action>)
    requires ys != []
    ensures xs + ys[..|ys| - 1] + [ys[|ys| - 1]] == xs + ys
  {
  }

  lemma PrefixTransitive(u: seq<Address>, v: seq<Address>, w: seq<Address>)
    requires u <= v && v <= w
    ensures u <= w
  {
  }

  lemma ExecNext(sys: System, ends: Ends, xs: seq<Action>, x: Action)
    ensures Exec(sys, ends, xs + [x]) == Perform(Exec(sys, ends, xs), ends, x)
  {
    assert (xs + [x])[..|xs|] == xs;
  }

  // Once p is the process q would ask, it stays the one, at the same address, whatever p's nodes withdraw
  // and whoever else serves the topic, until q forgets p or a process with a smaller UUID is known.
  lemma StaysAddressed(sys: System, ends: Ends, xs: seq<Action>, ys: seq<Action>, q: string, full: string, p: string,
                       to: Address)
    requires Start(sys) && q in sys.procs && p != q && NeverForgets(sys, ends, xs, ys, q, p)
    requires Addressed(Exec(sys, ends, xs).procs[q].stores.disc, full, p, to)
    ensures var s := Exec(sys, ends, xs + ys).procs[q].stores.disc;
            Addressed(s, full, p, to) <==> forall r | P.Vector(s, Srv, full, r) != [] && r != p :: Less(p, r)
  {
    RowsGrow(sys, ends, xs, ys, q, full, p);
    InvAt(sys, ends, xs + ys, q);
    var s := Exec(sys, ends, xs + ys).procs[q].stores.disc;
    assert P.Vector(s, Srv, full, p)[0] == to;
    assert forall r :: r in s.infoSrv[full] <==> P.Vector(s, Srv, full, r) != [];
  }

  // It happens: the only node of p that offers the service withdraws it, another process still offers it, and
  // q's requests go on being addressed to p, where no replier is left.
  lemma WithdrawnShadows(sys: System, ends: Ends, xs: seq<Action>, q: string, full: string, p: string, to: Address,
                         n: string, topic: string, r: string, m: string)
    requires Start(sys) && q in sys.procs && p in sys.procs && r in sys.procs && p != q && p != r
    requires Addressed(Exec(sys, ends, xs).procs[q].stores.disc, full, p, to)
    requires n in Exec(sys, ends, xs).procs[p].nodes
    requires O.Qualify(Exec(sys, ends, xs).procs[p].nodes[n], topic) == Some(full)
    requires forall n' | n' != n :: !Offers(sys, ends, xs, p, n', full)
    requires Offers(sys, ends, xs, r, m, full)
    ensures var e := Exec(sys, ends, xs + [Act(p, O.Do(n, O.UnadvertiseSrv(topic)))]);
            && Addressed(e.procs[q].stores.disc, full, p, to)
            && full !in e.procs[p].stores.repliers && full in e.procs[r].stores.repliers
  {
    var x := Act(p, O.Do(n, O.UnadvertiseSrv(topic)));
    BystanderSame(sys, ends, xs, x, q);
    NobodyLeft(sys, ends, xs, p, n, topic, full);
    OffersNext(sys, ends, xs, x, r, m, full);
    ReplierIff(sys, ends, xs + [x], r, full);
  }

  lemma BystanderSame(sys: System, ends: Ends, xs: seq<Action>, x: Action, q: string)
    requires q in sys.procs && x.p != q
    ensures Exec(sys, ends, xs + [x]).procs[q] == Exec(sys, ends, xs).procs[q]
  {
    ExecNext(sys, ends, xs, x);
  }

  lemma NobodyLeft(sys: System, ends: Ends, xs: seq<Action>, p: string, n: string, topic: string, full: string)
    requires Start(sys) && p in sys.procs && n in Exec(sys, ends, xs).procs[p].nodes
    requires O.Qualify(Exec(sys, ends, xs).procs[p].nodes[n], topic) == Some(full)
    requires forall n' | n' != n :: !Offers(sys, ends, xs, p, n', full)
    ensures full !in Exec(sys, ends, xs + [Act(p, O.Do(n, O.UnadvertiseSrv(topic)))]).procs[p].stores.repliers
  {
    var x := Act(p, O.Do(n, O.UnadvertiseSrv(topic)));
    forall n' ensures !Offers(sys, ends, xs + [x], p, n', full) {
      OffersNext(sys, ends, xs, x, p, n', full);
    }
    ReplierIff(sys, ends, xs + [x], p, full);
  }

  lemma OffersNext(sys: System, ends: Ends, xs: seq<Action>, x: Action, p: string, n: string, full: string)
    ensures Offers(sys, ends, xs + [x], p, n, full)
       <==> if !(x.Act? && x.p == p && p in sys.procs) then Offers(sys, ends, xs, p, n, full)
            else var w := Exec(sys, ends, xs).procs[p];
                 if x.x == O.Destroy(n) || Names(w, x.x, n, full) then Names(w, x.x, n, full) && x.x.call.AdvertiseSrv?
                 else Offers(sys, ends, xs, p, n, full)
  {
    assert (xs + [x])[..|xs|] == xs;
  }
}
