// The same network with real datagrams: what is on the air is the chars SendMsg built, and a receiver
// parses them out of a buffer that holds arbitrary chars behind them.
module ByteNetwork {
  import opened Types
  import opened Wire
  import opened Messages
  import opened Protocol
  import opened Network

  datatype RawPacket = RawPacket(fromIp: string, bytes: string)

  datatype RawSystem = RawSystem(procs: map<string, State>, air: iset<RawPacket>)

  // junk: what the receive buffer holds behind the datagram.
  datatype RawAction = RawAct(p: string, i: Input) | RawDeliver(q: string, packet: RawPacket, junk: string, now: int)

  ghost function RawOnAir(s: State, sent: seq<Message>): iset<RawPacket> {
    iset pk: Packet | pk in OnAir(s, sent) :: Raw(pk)
  }

  function Raw(pk: Packet): RawPacket {
    RawPacket(pk.fromIp, Datagram(pk.msg))
  }

  ghost function RawStepAt(sys: RawSystem, q: string, i: Input): (sys': RawSystem)
    requires q in sys.procs
    ensures sys'.procs.Keys == sys.procs.Keys
  {
    var o := Step(sys.procs[q], i);
    RawSystem(sys.procs[q := o.next], sys.air + RawOnAir(sys.procs[q], o.sent))
  }

  ghost function RawPerform(sys: RawSystem, y: RawAction): (sys': RawSystem)
    ensures sys'.procs.Keys == sys.procs.Keys
  {
    match y
    case RawAct(p, i) => if p !in sys.procs || i.Recv? then sys else RawStepAt(sys, p, i)
    case RawDeliver(q, pk, junk, now) =>
      if q !in sys.procs || pk !in sys.air then sys else
        match Parse(pk.bytes + junk)
        case None => sys
        case Some(m) => RawStepAt(sys, q, Recv(pk.fromIp, m, now))
  }

  ghost function RawExec(sys: RawSystem, ys: seq<RawAction>): (sys': RawSystem)
    ensures sys'.procs.Keys == sys.procs.Keys
    decreases |ys|
  {
    if ys == [] then sys else RawPerform(RawExec(sys, ys[..|ys| - 1]), ys[|ys| - 1])
  }

  // The strings a caller passes are strings: their sizes fit a size_t.
  predicate SizedRow(t: string, a: Address) {
    Sized(t) && Sized(a.addr) && Sized(a.ctrl) && Sized(a.nUuid)
  }

  predicate SizedInput(i: Input) {
    (i.DoAdvertise? ==> SizedRow(i.topic, i.info)) && (i.DoDiscover? ==> Sized(i.topic))
  }

  ghost predicate SizedCalls(ys: seq<RawAction>) {
    forall y | y in ys && y.RawAct? :: SizedInput(y.i)
  }

  ghost predicate OwnSized(s: State) {
    forall k, t, a | a in Vector(s, k, t, s.me.pUuid) :: SizedRow(t, a)
  }

  ghost predicate RawStart(sys: RawSystem) {
    sys.air == iset{} && Start(System(sys.procs, iset{}))
    && forall p | p in sys.procs :: |p| + 13 < 0x8000_0000
  }

  // ---- One process ----

  lemma StepSized(s: State, i: Input)
    requires Inv(s) && OwnSized(s) && SizedInput(i) && |s.me.pUuid| + 13 < 0x8000_0000
    ensures OwnSized(Step(s, i).next)
    ensures forall m | m in Step(s, i).sent :: !m.Unknown? && Representable(m)
  {
    StepKeepsInv(s, i);
    SentTruthful(s, i);
    forall k, t, a | a in Vector(Step(s, i).next, k, t, s.me.pUuid) ensures SizedRow(t, a) {
      StepRows(s, i, k, t, s.me.pUuid, a);
    }
    forall m | m in Step(s, i).sent ensures !m.Unknown? && Representable(m) {
      assert Truthful(s, i, m);
      if m.Adv? || m.Unadv? {
        assert SizedRow(m.topic, m.info);
      }
    }
  }

  // ---- The refinement ----

  // The byte-level system shows the abstract one: same processes, and the air holds exactly the
  // datagrams of the abstract packets.
  ghost predicate Shows(raw: RawSystem, sys: System) {
    && raw.procs == sys.procs
    && raw.air == (iset pk: Packet | pk in sys.net :: Raw(pk))
    && (forall p | p in sys.procs ::
          sys.procs[p].me.pUuid == p && Inv(sys.procs[p]) && OwnSized(sys.procs[p]) && |p| + 13 < 0x8000_0000)
    && (forall pk | pk in sys.net :: !pk.msg.Unknown? && Representable(pk.msg))
  }

  lemma SimulateStep(raw: RawSystem, sys: System, q: string, i: Input)
    requires Shows(raw, sys) && q in sys.procs && SizedInput(i)
    ensures Shows(RawStepAt(raw, q, i), StepAt(sys, q, i))
  {
    var s := sys.procs[q];
    var o := Step(s, i);
    StepSized(s, i);
    StepKeepsInv(s, i);
    ShowsMore(raw.air, sys.net, s, o.sent);
  }

  lemma ShowsMore(air: iset<RawPacket>, net: iset<Packet>, s: State, sent: seq<Message>)
    requires air == (iset pk: Packet | pk in net :: Raw(pk))
    ensures air + RawOnAir(s, sent) == (iset pk: Packet | pk in net + OnAir(s, sent) :: Raw(pk))
  {
  }

  lemma SimulateDeliver(raw: RawSystem, sys: System, y: RawAction) returns (x: Action)
    requires Shows(raw, sys) && y.RawDeliver?
    ensures Shows(RawPerform(raw, y), Perform(sys, x)) && x.Deliver?
  {
    if y.q in raw.procs && y.packet in raw.air {
      var pk :| pk in sys.net && Raw(pk) == y.packet;
      x := Deliver(y.q, pk, y.now);
      ParseDatagram(pk.msg, y.junk);
      SimulateStep(raw, sys, y.q, Recv(pk.fromIp, Transmit(pk.msg), y.now));
    } else {
      x := Deliver(y.q, Packet("", Unknown("")), y.now);
      assert x.packet !in sys.net;
    }
  }

  // Each byte-level action is one abstract action: the datagram reads as the message it was made from.
  lemma Simulate(raw: RawSystem, sys: System, y: RawAction) returns (x: Action)
    requires Shows(raw, sys) && (y.RawAct? ==> SizedInput(y.i))
    ensures Shows(RawPerform(raw, y), Perform(sys, x))
    ensures x.Act? ==> y == RawAct(x.p, x.i)
  {
    match y
    case RawAct(p, i) =>
      x := Act(p, i);
      if p in raw.procs && !i.Recv? {
        SimulateStep(raw, sys, p, i);
      }
    case RawDeliver(_, _, _, _) => x := SimulateDeliver(raw, sys, y);
  }

  // The byte-level system refines the abstract protocol: every run of it is a run of the abstract
  // one, action by action, with the same calls.
  lemma {:induction false} BytesRefineMessages(raw: RawSystem, ys: seq<RawAction>) returns (xs: seq<Action>)
    requires RawStart(raw) && SizedCalls(ys)
    ensures SameCalls(ys, xs)
    ensures RawExec(raw, ys).procs == Exec(System(raw.procs, iset{}), xs).procs
    ensures Shows(RawExec(raw, ys), Exec(System(raw.procs, iset{}), xs))
    decreases |ys|
  {
    var sys := System(raw.procs, iset{});
    if ys == [] {
      xs := [];
      ShowsAtStart(raw);
    } else {
      var zs, y := ys[..|ys| - 1], ys[|ys| - 1];
      assert forall z | z in zs :: z in ys;
      var ws := BytesRefineMessages(raw, zs);
      assert y in ys;
      var x := Simulate(RawExec(raw, zs), Exec(sys, ws), y);
      xs := ws + [x];
      ExecNext(sys, ws, x);
      SameCallsNext(ys, ws, x);
    }
  }

  lemma ShowsAtStart(raw: RawSystem)
    requires RawStart(raw)
    ensures Shows(raw, System(raw.procs, iset{}))
  {
    var sys := System(raw.procs, iset{});
    forall p | p in sys.procs ensures Inv(sys.procs[p]) && OwnSized(sys.procs[p]) {
      FreshInv(sys.procs[p]);
    }
    assert raw.air == (iset pk: Packet | pk in sys.net :: Raw(pk));
  }

  // The two runs make the same calls: an abstract delivery stands for a raw one.
  ghost predicate SameCalls(ys: seq<RawAction>, xs: seq<Action>) {
    |xs| == |ys| && forall j | 0 <= j < |ys| :: xs[j].Act? ==> ys[j] == RawAct(xs[j].p, xs[j].i)
  }

  lemma SameCallsNext(ys: seq<RawAction>, ws: seq<Action>, x: Action)
    requires ys != [] && SameCalls(ys[..|ys| - 1], ws)
    requires x.Act? ==> ys[|ys| - 1] == RawAct(x.p, x.i)
    ensures SameCalls(ys, ws + [x])
  {
    var zs, xs := ys[..|ys| - 1], ws + [x];
    forall j | 0 <= j < |ys| && xs[j].Act? ensures ys[j] == RawAct(xs[j].p, xs[j].i) {
      if j < |zs| {
        assert xs[j] == ws[j] && ys[j] == zs[j];
      }
    }
  }

  // So what holds of every run of messages holds of every run of datagrams; no fabrication, with the
  // bytes, the garbage behind them, the refused packs and the scope checks all in the picture.
  lemma NoFabricationOnTheWire(raw: RawSystem, ys: seq<RawAction>, q: string, k: Kind, t: string, p: string, a: Address)
    requires RawStart(raw) && SizedCalls(ys) && q in raw.procs
    requires a in Vector(RawExec(raw, ys).procs[q], k, t, p)
    ensures RawAct(p, DoAdvertise(k, t, a)) in ys
    ensures p != q ==> a.scope != Process
    ensures p != q && a.scope == Host ==> p in raw.procs && raw.procs[p].me.hostAddr == raw.procs[q].me.hostAddr
  {
    var sys := System(raw.procs, iset{});
    var xs := BytesRefineMessages(raw, ys);
    NoFabrication(sys, xs, q, k, t, p, a);
    if p != q {
      ScopeConfinement(sys, xs, q, k, t, p, a);
    }
    var j :| 0 <= j < |xs| && xs[j] == Act(p, DoAdvertise(k, t, a));
    assert ys[j] in ys;
  }
}
