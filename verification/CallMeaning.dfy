// What the calls of a node do to discovery and put on the network, said in terms of rows and messages alone,
// and what is left of them after any run of a process.
module CallMeaning {
  import opened Types
  import opened TopicTable
  import opened Messages
  import P = Protocol
  import S = StepMeaning
  import O = OneProcess

  function Own(st: O.Stores, k: Kind, full: string): seq<Address> {
    P.Vector(st.disc, k, full, st.disc.me.pUuid)
  }

  // A row of the node is there; if it had none at this address, it is the one the caller asked for; and unless
  // its scope is Process it is announced, once.
  ghost predicate Announced(st: O.Stores, o: O.Outcome, k: Kind, full: string, a: Address) {
    && Known(Own(o.stores, k, full), a.addr, a.nUuid)
    && (!Known(Own(st, k, full), a.addr, a.nUuid) ==> Own(o.stores, k, full) == Own(st, k, full) + [a])
    && (a.scope == Process ==> o.sent == [])
    && (a.scope != Process ==> o.sent == [Adv(k, st.disc.me.pUuid, full, a)])
    && o.events == []
  }

  lemma AdvertisePuts(s: P.State, k: Kind, full: string, a: Address)
    requires P.TablesCanonical(s)
    ensures var v := P.Vector(s, k, full, s.me.pUuid);
            var v' := P.Vector(P.Advertise(s, k, full, a).next, k, full, s.me.pUuid);
            Known(v', a.addr, a.nUuid) && (!Known(v, a.addr, a.nUuid) ==> v' == v + [a])
  {
    var v := P.Vector(s, k, full, s.me.pUuid);
    P.InsertAt(s, k, full, s.me.pUuid, a);
    if !Known(v, a.addr, a.nUuid) {
      assert (v + [a])[|v|] == a;
    }
  }

  lemma AdvertiseAnnounces(st: O.Stores, n: string, v: O.Names, ends: O.Endpoints, topic: string, scope: Scope)
    requires O.StoresOk(st) && O.Qualify(v, topic).Some?
    ensures Announced(st, O.Perform(st, n, v, ends, O.Advertise(topic, scope)), Msg, O.Qualify(v, topic).value,
                      Address(ends.publisher, ends.control, n, scope))
  {
    var x, a := O.Qualify(v, topic).value, Address(ends.publisher, ends.control, n, scope);
    O.PerformAt(st, n, v, ends, O.Advertise(topic, scope), x);
    AdvertisePuts(st.disc, Msg, x, a);
    S.AdvertiseSends(st.disc, Msg, x, a);
  }

  lemma AdvertiseSrvAnnounces(st: O.Stores, n: string, v: O.Names, ends: O.Endpoints, topic: string, h: string,
                              service: O.Service, scope: Scope)
    requires O.StoresOk(st) && O.Qualify(v, topic).Some?
    ensures Announced(st, O.Perform(st, n, v, ends, O.AdvertiseSrv(topic, h, service, scope)), Srv,
                      O.Qualify(v, topic).value, Address(ends.replier, ends.replierId, n, scope))
  {
    var x, a := O.Qualify(v, topic).value, Address(ends.replier, ends.replierId, n, scope);
    O.PerformAt(st, n, v, ends, O.AdvertiseSrv(topic, h, service, scope), x);
    AdvertisePuts(st.disc, Srv, x, a);
    S.AdvertiseSends(st.disc, Srv, x, a);
  }

  // No message row of the node is left under the name; the first of those it had is taken back, once, unless
  // its scope is Process.
  ghost predicate TakenBack(st: O.Stores, o: O.Outcome, n: string, full: string) {
    && (forall b :: b in Own(o.stores, Msg, full) <==> b in Own(st, Msg, full) && b.nUuid != n)
    && (NoRow(Own(st, Msg, full), n) ==> o.sent == [])
    && (forall i: nat | S.FirstAt(Own(st, Msg, full), n, i) ::
          o.sent == if Own(st, Msg, full)[i].scope == Process then []
                    else [Unadv(Msg, st.disc.me.pUuid, full, Own(st, Msg, full)[i])])
    && o.events == []
  }

  lemma UnadvertiseTakesBack(st: O.Stores, n: string, v: O.Names, ends: O.Endpoints, c: O.Call)
    requires O.StoresOk(st) && O.Qualify(v, c.topic).Some? && (c.Unadvertise? || c.UnadvertiseSrv?)
    ensures TakenBack(st, O.Perform(st, n, v, ends, c), n, O.Qualify(v, c.topic).value)
  {
    var x := O.Qualify(v, c.topic).value;
    var o := P.Unadvertise(st.disc, Msg, x, n);
    O.PerformAt(st, n, v, ends, c, x);
    O.WithdrawOne(st.disc, n, x);
    assert P.Vector(o.next, Msg, x, st.disc.me.pUuid) == Without(Own(st, Msg, x), n);
    WithoutMember(Own(st, Msg, x), n);
    forall i: nat | S.FirstAt(Own(st, Msg, x), n, i)
      ensures o.sent == if Own(st, Msg, x)[i].scope == Process then []
                        else [Unadv(Msg, st.disc.me.pUuid, x, Own(st, Msg, x)[i])]
    {
      S.UnadvertiseSends(st.disc, Msg, x, n, i);
    }
    if NoRow(Own(st, Msg, x), n) {
      S.UnadvertiseNothing(st.disc, Msg, x, n);
    }
  }

  // One SUB goes out, and every known publisher of the topic is reported if the callback is set.
  ghost predicate SearchedFor(st: O.Stores, o: O.Outcome, full: string) {
    && o.sent == [Sub(Msg, st.disc.me.pUuid, full)]
    && forall e :: e in o.events <==>
         && e.Connected? && e.kind == Msg && e.topic == full && st.disc.me.cbs.connection
         && e.info in P.Vector(st.disc, Msg, full, e.pUuid)
  }

  lemma SubscribeSearches(st: O.Stores, n: string, v: O.Names, ends: O.Endpoints, topic: string, h: string,
                          callback: O.Subscriber)
    requires O.Qualify(v, topic).Some?
    ensures SearchedFor(st, O.Perform(st, n, v, ends, O.Subscribe(topic, h, callback)), O.Qualify(v, topic).value)
  {
    var x := O.Qualify(v, topic).value;
    O.PerformAt(st, n, v, ends, O.Subscribe(topic, h, callback), x);
    S.DiscoverSends(st.disc, Msg, x);
    forall e ensures e in P.Discover(st.disc, Msg, x).events <==>
                     && e.Connected? && e.kind == Msg && e.topic == x && st.disc.me.cbs.connection
                     && e.info in P.Vector(st.disc, Msg, x, e.pUuid)
    {
      S.DiscoverReportsRow(st.disc, Msg, x, e);
    }
  }

  // ---- Runs ----

  // The scope with which node n advertised the topic first since it last unadvertised it, or a service of that
  // name, or was destroyed; none if it has not advertised since.
  ghost function Published(w: O.World, ends: O.Endpoints, run: seq<O.Move>, n: string, full: string): Option<Scope>
    decreases |run|
  {
    if run == [] then None else
      var ys, x := run[..|run| - 1], run[|run| - 1];
      PublishedNext(O.Exec(w, ends, ys), x, n, full, Published(w, ends, ys, n, full))
  }

  ghost function PublishedNext(w: O.World, x: O.Move, n: string, full: string, was: Option<Scope>): Option<Scope> {
    if x == O.Destroy(n) then None
    else if !Names(w, x, n, full) then was
    else if !x.call.Advertise? then None
    else if was.Some? then was
    else Some(x.call.scope)
  }

  // The move is a call of n that advertises the topic, or withdraws it under either name.
  ghost predicate Names(w: O.World, x: O.Move, n: string, full: string) {
    && x.Do? && x.n == n && n in w.nodes && (x.call.Advertise? || x.call.Unadvertise? || x.call.UnadvertiseSrv?)
    && O.Qualify(w.nodes[n], x.call.topic) == Some(full)
  }

  // What a move does to the process's own message rows of one topic.
  ghost function RowsAfter(w: O.World, ends: O.Endpoints, x: O.Move, t: string, v: seq<Address>): seq<Address> {
    if x.Destroy? && x.n in w.nodes then Without(v, x.n)
    else if !(x.Do? && Names(w, x, x.n, t)) then v
    else if !x.call.Advertise? then Without(v, x.n)
    else if Known(v, ends.publisher, x.n) then v
    else v + [Address(ends.publisher, ends.control, x.n, x.call.scope)]
  }

  lemma CallRows(w: O.World, ends: O.Endpoints, n: string, c: O.Call, t: string)
    requires P.Inv(w.stores.disc) && n in w.nodes
    ensures Own(O.Perform(w.stores, n, w.nodes[n], ends, c).stores, Msg, t)
         == RowsAfter(w, ends, O.Do(n, c), t, Own(w.stores, Msg, t))
  {
    var v := w.nodes[n];
    if O.Qualify(v, c.topic).Some? {
      var x := O.Qualify(v, c.topic).value;
      O.PerformAt(w.stores, n, v, ends, c, x);
      CallInput(w.stores, n, v, ends, c, x);
      if InputOf(n, ends, c, x).Some? {
        P.StepOwn(w.stores.disc, InputOf(n, ends, c, x).value, Msg, t);
      }
    }
  }

  // The update of discovery a call makes, if any.
  function InputOf(n: string, ends: O.Endpoints, c: O.Call, x: string): Option<P.Input> {
    match c
    case Advertise(_, scope) => Some(P.DoAdvertise(Msg, x, Address(ends.publisher, ends.control, n, scope)))
    case Unadvertise(_) => Some(P.DoUnadvertise(Msg, x, n))
    case AdvertiseSrv(_, _, _, scope) => Some(P.DoAdvertise(Srv, x, Address(ends.replier, ends.replierId, n, scope)))
    case UnadvertiseSrv(_) => Some(P.DoUnadvertise(Msg, x, n))
    case _ => None
  }

  lemma CallInput(st: O.Stores, n: string, v: O.Names, ends: O.Endpoints, c: O.Call, x: string)
    ensures var s' := O.PerformOn(st, n, v, ends, c, x).stores.disc;
            s' == if InputOf(n, ends, c, x).None? then st.disc else P.Step(st.disc, InputOf(n, ends, c, x).value).next
  {
  }

  lemma MoveRows(w: O.World, ends: O.Endpoints, x: O.Move, t: string)
    requires O.Inv(w)
    ensures Own(O.Step(w, ends, x).stores, Msg, t) == RowsAfter(w, ends, x, t, Own(w.stores, Msg, t))
  {
    O.StepInv(w, ends, x);
    match x
    case Do(n, c) =>
      if n in w.nodes {
        CallRows(w, ends, n, c, t);
      }
    case Destroy(n) => DropOwnerVec(w.stores.disc.infoMsg, w.stores.disc.me.pUuid, n);
    case Discover(i) =>
      if !P.LocalUpdate(i) {
        P.StepOwn(w.stores.disc, i, Msg, t);
      }
    case _ =>
  }

  // Every row names the process's publisher, and the node has the one row it published, if any.
  ghost predicate RowsPublished(v: seq<Address>, ends: O.Endpoints, n: string, scope: Option<Scope>) {
    && (forall a | a in v :: a.addr == ends.publisher && a.ctrl == ends.control)
    && (forall a :: a in v && a.nUuid == n <==>
                    scope.Some? && a == Address(ends.publisher, ends.control, n, scope.value))
  }

  lemma RowsAfterMeans(w: O.World, ends: O.Endpoints, x: O.Move, t: string, v: seq<Address>, n: string,
                       scope: Option<Scope>)
    requires RowsPublished(v, ends, n, scope) && (n !in w.nodes ==> NoRow(v, n))
    ensures RowsPublished(RowsAfter(w, ends, x, t, v), ends, n, PublishedNext(w, x, n, t, scope))
  {
    if x.Destroy? || x.Do? {
      WithoutMember(v, x.n);
    }
    if scope.Some? {
      assert Address(ends.publisher, ends.control, n, scope.value) in v;
    }
  }

  // In every run each own message row names the process's publisher and control address, and a node has a row
  // for a topic exactly if it has published it, with the scope it gave then.
  lemma {:induction false} RowsArePublished(w: O.World, ends: O.Endpoints, run: seq<O.Move>, t: string, n: string)
    requires O.Start(w)
    ensures RowsPublished(Own(O.Exec(w, ends, run).stores, Msg, t), ends, n, Published(w, ends, run, n, t))
    decreases |run|
  {
    if run != [] {
      var ys, x := run[..|run| - 1], run[|run| - 1];
      var e := O.Exec(w, ends, ys);
      RowsArePublished(w, ends, ys, t, n);
      O.RunInv(w, ends, ys);
      MoveRows(e, ends, x, t);
      NodeGone(e, n, t);
      RowsAfterMeans(e, ends, x, t, Own(e.stores, Msg, t), n, Published(w, ends, ys, n, t));
    }
  }

  lemma NodeGone(w: O.World, n: string, t: string)
    requires O.Inv(w)
    ensures n !in w.nodes ==> NoRow(Own(w.stores, Msg, t), n)
  {
    assert O.Kept(w.stores, n, O.NodeOf(w, n));
  }
}
