// All the nodes of one process on the state they share: discovery, the subscriptions and the repliers.
// What the methods of class Node do to that state, as functions, and whole runs of them.
module OneProcess {
  import opened Types
  import opened TopicTable
  import opened TopicNames
  import opened Ordering
  import HS = HandlerStorage
  import R = Requests
  import opened Messages
  import P = Protocol
  import Matching

  // A replier's callback: topic and serialised request to serialised response and result.
  type Service = (string, string) -> (string, bool)

  // A subscriber's callback, by number.
  datatype Subscriber = Subscriber(callback: nat)

  // The addresses and socket identities a process gets when it starts.
  datatype Endpoints = Endpoints(publisher: string, control: string, replier: string, replierId: string,
                                 requester: string, receiverId: string)

  datatype Stores = Stores(disc: P.State, subs: HS.Data<Subscriber>, repliers: HS.Data<Service>)

  // The private data of a node.
  datatype Names = Names(partition: string, ns: string,
                         subscribed: set<string>, advertised: set<string>, services: set<string>)

  const NO_NAMES := Names("", "", {}, {}, {})

  function Qualify(v: Names, topic: string): Option<string> {
    FullName(v.partition, v.ns, topic)
  }

  // ---- What a call does ----

  datatype Call =
    | Advertise(topic: string, scope: Scope)
    | Unadvertise(topic: string)
    | Subscribe(topic: string, hUuid: string, callback: Subscriber)
    | Unsubscribe(topic: string)
    | AdvertiseSrv(topic: string, hUuid: string, service: Service, scope: Scope)
    | UnadvertiseSrv(topic: string)

  datatype Outcome = Outcome(stores: Stores, names: Names, sent: seq<Message>, events: seq<P.Event>)

  ghost function Joining(st: Stores, n: string, v: Names, x: string, h: string, callback: Subscriber): Outcome {
    var o := P.Discover(st.disc, Msg, x);
    Outcome(Stores(st.disc, HS.Inserted(st.subs, HS.Key(x, n, h), callback), st.repliers),
            v.(subscribed := v.subscribed + {x}), o.sent, o.events)
  }

  ghost function Leaving(st: Stores, n: string, v: Names, x: string): Outcome {
    Outcome(Stores(st.disc, HS.Emptied(st.subs, x, n), st.repliers), v.(subscribed := v.subscribed - {x}), [], [])
  }

  ghost function Offering(st: Stores, n: string, v: Names, ends: Endpoints, x: string, h: string, service: Service,
                          scope: Scope): Outcome {
    var o := P.Advertise(st.disc, Srv, x, Address(ends.replier, ends.replierId, n, scope));
    Outcome(Stores(o.next, st.subs, HS.Inserted(st.repliers, HS.Key(x, n, h), service)),
            v.(services := v.services + {x}), o.sent, o.events)
  }

  // Discovery is told to unadvertise a message topic.
  ghost function Retiring(st: Stores, n: string, v: Names, x: string): Outcome {
    var o := P.Unadvertise(st.disc, Msg, x, n);
    Outcome(Stores(o.next, st.subs, HS.Emptied(st.repliers, x, n)), v.(services := v.services - {x}), o.sent, o.events)
  }

  // A call of node n on the full name x.
  ghost function PerformOn(st: Stores, n: string, v: Names, ends: Endpoints, c: Call, x: string): Outcome {
    match c
    case Advertise(_, scope) =>
      var o := P.Advertise(st.disc, Msg, x, Address(ends.publisher, ends.control, n, scope));
      Outcome(st.(disc := o.next), v.(advertised := v.advertised + {x}), o.sent, o.events)
    case Unadvertise(_) =>
      var o := P.Unadvertise(st.disc, Msg, x, n);
      Outcome(st.(disc := o.next), v.(advertised := v.advertised - {x}), o.sent, o.events)
    case Subscribe(_, h, callback) => Joining(st, n, v, x, h, callback)
    case Unsubscribe(_) => Leaving(st, n, v, x)
    case AdvertiseSrv(_, h, service, scope) => Offering(st, n, v, ends, x, h, service, scope)
    case UnadvertiseSrv(_) => Retiring(st, n, v, x)
  }

  ghost function Perform(st: Stores, n: string, v: Names, ends: Endpoints, c: Call): Outcome {
    match Qualify(v, c.topic)
    case None => Outcome(st, v, [], [])
    case Some(x) => PerformOn(st, n, v, ends, c, x)
  }

  lemma PerformAt(st: Stores, n: string, v: Names, ends: Endpoints, c: Call, x: string)
    requires Qualify(v, c.topic) == Some(x)
    ensures Perform(st, n, v, ends, c) == PerformOn(st, n, v, ends, c, x)
    ensures c.Subscribe? ==> Perform(st, n, v, ends, c) == Joining(st, n, v, x, c.hUuid, c.callback)
    ensures c.Unsubscribe? ==> Perform(st, n, v, ends, c) == Leaving(st, n, v, x)
    ensures c.AdvertiseSrv? ==> Perform(st, n, v, ends, c) == Offering(st, n, v, ends, x, c.hUuid, c.service, c.scope)
    ensures c.UnadvertiseSrv? ==> Perform(st, n, v, ends, c) == Retiring(st, n, v, x)
  {
  }

  // The destructor: what the node had in the subscriptions, the repliers and the message table goes.
  ghost function Destroyed(st: Stores, n: string): Stores {
    Stores(st.disc.(infoMsg := DropOwner(st.disc.infoMsg, st.disc.me.pUuid, n)),
           HS.WithoutOwner(st.subs, n), HS.WithoutOwner(st.repliers, n))
  }

  // ---- What the stores may hold of one node ----

  // Every row of node n under process p is for one of these topics.
  ghost predicate Owned(d: Table, p: string, n: string, names: set<string>) {
    forall t | t !in names :: NoRow(Vec(d, t, p), n)
  }

  // Node n has handlers for exactly these topics.
  ghost predicate OwnedHandlers<T>(d: HS.Data<T>, n: string, names: set<string>) {
    forall t :: t in names <==> HS.NodeAt(d, t, n) != map[]
  }

  // x is a full name the node can make.
  ghost predicate Qualified(v: Names, x: string) {
    exists t :: Qualify(v, t) == Some(x)
  }

  ghost predicate NamesOk(v: Names) {
    && IsValidNamespace(v.partition) && IsValidNamespace(v.ns)
    && forall x | x in v.subscribed + v.advertised + v.services :: Qualified(v, x)
  }

  // What the stores hold of node n is listed in its sets; of callbacks and repliers, exactly what is.
  ghost predicate Accounted(st: Stores, n: string, v: Names) {
    && Owned(st.disc.infoMsg, st.disc.me.pUuid, n, v.advertised)
    && OwnedHandlers(st.subs, n, v.subscribed)
    && OwnedHandlers(st.repliers, n, v.services)
  }

  ghost predicate StoresOk(st: Stores) {
    P.TablesCanonical(st.disc) && HS.Canonical(st.subs) && HS.Canonical(st.repliers)
  }

  // ---- Updates of the parts ----

  lemma AdvertiseOwned(s: P.State, k: Kind, t: string, a: Address, n: string, names: set<string>)
    requires P.TablesCanonical(s) && Owned(s.infoMsg, s.me.pUuid, n, names)
    ensures var s' := P.Advertise(s, k, t, a).next;
            && P.TablesCanonical(s')
            && Owned(s'.infoMsg, s.me.pUuid, n, names + if k == Msg && a.nUuid == n then {t} else {})
  {
    P.InsertAt(s, k, t, s.me.pUuid, a);
  }

  lemma UnadvertiseOwned(s: P.State, t: string, m: string, n: string, names: set<string>)
    requires P.TablesCanonical(s) && Owned(s.infoMsg, s.me.pUuid, n, names)
    ensures var s' := P.Unadvertise(s, Msg, t, m).next;
            P.TablesCanonical(s') && Owned(s'.infoMsg, s.me.pUuid, n, names - if m == n then {t} else {})
  {
    P.DropAt(s, Msg, t, s.me.pUuid, m);
    WithoutMember(Vec(s.infoMsg, t, s.me.pUuid), m);
  }

  lemma InsertedOwned<T>(d: HS.Data<T>, k: HS.Key, x: T, n: string, names: set<string>)
    requires HS.Canonical(d) && OwnedHandlers(d, n, names)
    ensures HS.Canonical(HS.Inserted(d, k, x))
    ensures OwnedHandlers(HS.Inserted(d, k, x), n, names + if k.node == n then {k.topic} else {})
  {
    var e := HS.Inserted(d, k, x);
    assert k.handler in HS.NodeAt(e, k.topic, k.node);
  }

  lemma EmptiedOwned<T>(d: HS.Data<T>, t: string, m: string, n: string, names: set<string>)
    requires HS.Canonical(d) && OwnedHandlers(d, n, names)
    ensures HS.Canonical(HS.Emptied(d, t, m))
    ensures OwnedHandlers(HS.Emptied(d, t, m), n, names - if m == n then {t} else {})
  {
  }

  // ---- A call, and the destructor, on what the stores hold of any node ----

  ghost predicate Kept(st: Stores, m: string, u: Names) {
    StoresOk(st) && Accounted(st, m, u)
  }

  lemma AdvertiseKept(st: Stores, n: string, v: Names, ends: Endpoints, c: Call, x: string, m: string, u: Names)
    requires c.Advertise? || c.Unadvertise?
    requires Kept(st, m, u) && (m == n ==> u == v)
    ensures var o := PerformOn(st, n, v, ends, c, x); Kept(o.stores, m, if m == n then o.names else u)
  {
    if c.Advertise? {
      AdvertiseOwned(st.disc, Msg, x, Address(ends.publisher, ends.control, n, c.scope), m, u.advertised);
    } else {
      UnadvertiseOwned(st.disc, x, n, m, u.advertised);
    }
  }

  lemma SubscribeKept(st: Stores, n: string, v: Names, ends: Endpoints, c: Call, x: string, m: string, u: Names)
    requires c.Subscribe? || c.Unsubscribe?
    requires Kept(st, m, u) && (m == n ==> u == v)
    ensures var o := PerformOn(st, n, v, ends, c, x); Kept(o.stores, m, if m == n then o.names else u)
  {
    if c.Subscribe? {
      InsertedOwned(st.subs, HS.Key(x, n, c.hUuid), c.callback, m, u.subscribed);
    } else {
      EmptiedOwned(st.subs, x, n, m, u.subscribed);
    }
  }

  lemma ServiceKept(st: Stores, n: string, v: Names, ends: Endpoints, c: Call, x: string, m: string, u: Names)
    requires c.AdvertiseSrv? || c.UnadvertiseSrv?
    requires Kept(st, m, u) && (m == n ==> u == v)
    ensures var o := PerformOn(st, n, v, ends, c, x); Kept(o.stores, m, if m == n then o.names else u)
  {
    if c.AdvertiseSrv? {
      AdvertiseOwned(st.disc, Srv, x, Address(ends.replier, ends.replierId, n, c.scope), m, u.advertised);
      InsertedOwned(st.repliers, HS.Key(x, n, c.hUuid), c.service, m, u.services);
    } else {
      UnadvertiseOwned(st.disc, x, n, m, u.advertised);
      EmptiedOwned(st.repliers, x, n, m, u.services);
    }
  }

  // The caller's sets follow the stores, and what the stores hold of another node stays listed.
  lemma PerformAccounted(st: Stores, n: string, v: Names, ends: Endpoints, c: Call, m: string, u: Names)
    requires Kept(st, m, u) && (m == n ==> u == v)
    ensures var o := Perform(st, n, v, ends, c); Kept(o.stores, m, if m == n then o.names else u)
  {
    if Qualify(v, c.topic).Some? {
      var x := Qualify(v, c.topic).value;
      if c.Advertise? || c.Unadvertise? {
        AdvertiseKept(st, n, v, ends, c, x, m, u);
      } else if c.Subscribe? || c.Unsubscribe? {
        SubscribeKept(st, n, v, ends, c, x, m, u);
      } else {
        ServiceKept(st, n, v, ends, c, x, m, u);
      }
    }
  }

  lemma DestroyedAccounted(st: Stores, n: string, m: string, u: Names)
    requires Kept(st, m, u)
    ensures Kept(Destroyed(st, n), m, if m == n then NO_NAMES else u)
  {
    DropOwnerVec(st.disc.infoMsg, st.disc.me.pUuid, n);
    HS.WithoutOwnerAt(st.subs, n);
    HS.WithoutOwnerAt(st.repliers, n);
    forall t ensures NoRow(Vec(Destroyed(st, n).disc.infoMsg, t, st.disc.me.pUuid), n) {
      WithoutMember(Vec(st.disc.infoMsg, t, st.disc.me.pUuid), n);
    }
    forall t | t !in u.advertised ensures NoRow(Vec(Destroyed(st, n).disc.infoMsg, t, st.disc.me.pUuid), m) {
      WithoutMember(Vec(st.disc.infoMsg, t, st.disc.me.pUuid), n);
    }
  }

  // A datagram, a pass, a heartbeat or a search of discovery leaves every node accounted for.
  lemma StepAccounted(st: Stores, i: P.Input, m: string, u: Names)
    requires P.Inv(st.disc) && !P.LocalUpdate(i) && Kept(st, m, u)
    ensures Kept(st.(disc := P.Step(st.disc, i).next), m, u)
  {
    var s' := P.Step(st.disc, i).next;
    P.StepKeepsInv(st.disc, i);
    forall t | t !in u.advertised ensures NoRow(Vec(s'.infoMsg, t, st.disc.me.pUuid), m) {
      P.StepOwn(st.disc, i, Msg, t);
      assert P.Vector(s', Msg, t, st.disc.me.pUuid) == P.Vector(st.disc, Msg, t, st.disc.me.pUuid);
    }
  }

  // xs lists the names, each once.
  ghost predicate Each(xs: seq<string>, names: set<string>) {
    Later(xs, 0) == names && forall i, j | 0 <= i < j < |xs| :: xs[i] != xs[j]
  }

  ghost function Later(xs: seq<string>, i: nat): (s: set<string>)
    ensures i >= |xs| ==> s == {}
  {
    set j | i <= j < |xs| :: xs[j]
  }

  lemma LaterNext(xs: seq<string>, i: nat)
    requires i < |xs| && forall j, k | 0 <= j < k < |xs| :: xs[j] != xs[k]
    ensures xs[i] in Later(xs, i) && Later(xs, i + 1) == Later(xs, i) - {xs[i]}
  {
  }

  lemma EachMembers(xs: seq<string>, names: set<string>)
    requires Each(xs, names)
    ensures forall x :: x in xs <==> x in names
  {
    assert forall x :: x in xs <==> x in Later(xs, 0);
  }

  lemma NothingOwned<T>(d: HS.Data<T>, n: string)
    requires OwnedHandlers(d, n, {})
    ensures forall k | k in HS.Flat(d) :: k.node != n
  {
  }

  // ---- The destructor, name by name ----

  // Unadvertising one message topic after the other.
  ghost function Withdraw(s: P.State, n: string, xs: seq<string>): P.Output
    decreases |xs|
  {
    if xs == [] then P.Output(s, [], []) else
      var o := Withdraw(s, n, xs[..|xs| - 1]);
      var o' := P.Unadvertise(o.next, Msg, xs[|xs| - 1], n);
      P.Output(o'.next, o.sent + o'.sent, [])
  }

  // The UNADV a node owes for a topic it has a row of that others may see.
  ghost predicate Owes(s: P.State, n: string, t: string, m: Message) {
    var inf := First(P.Vector(s, Msg, t, s.me.pUuid), n);
    inf.Some? && inf.value.scope != Process && m == Unadv(Msg, s.me.pUuid, t, inf.value)
  }

  ghost predicate WithdrawnTopics(s: P.State, s': P.State, n: string, xs: seq<string>) {
    && P.TablesCanonical(s') && s'.me == s.me && s'.infoSrv == s.infoSrv && s'.activity == s.activity
    && forall t, q :: P.Vector(s', Msg, t, q)
                   == if q == s.me.pUuid && t in xs then Without(P.Vector(s, Msg, t, q), n) else P.Vector(s, Msg, t, q)
  }

  lemma WithdrawOne(s: P.State, n: string, x: string)
    requires P.TablesCanonical(s)
    ensures WithdrawnTopics(s, P.Unadvertise(s, Msg, x, n).next, n, [x])
    ensures forall m :: m in P.Unadvertise(s, Msg, x, n).sent <==> Owes(s, n, x, m)
  {
    var v := P.Vector(s, Msg, x, s.me.pUuid);
    P.DropAt(s, Msg, x, s.me.pUuid, n);
    if First(v, n).None? {
      WithoutAbsent(v, n);
    } else {
      assert First(v, n).value.(nUuid := n) == First(v, n).value;
    }
  }

  lemma WithdrawNext(s: P.State, s1: P.State, n: string, ys: seq<string>, x: string)
    requires P.TablesCanonical(s) && WithdrawnTopics(s, s1, n, ys) && x !in ys
    ensures WithdrawnTopics(s, P.Unadvertise(s1, Msg, x, n).next, n, ys + [x])
    ensures forall m :: m in P.Unadvertise(s1, Msg, x, n).sent <==> Owes(s, n, x, m)
  {
    WithdrawOne(s1, n, x);
    assert P.Vector(s1, Msg, x, s.me.pUuid) == P.Vector(s, Msg, x, s.me.pUuid);
    assert forall m :: Owes(s1, n, x, m) <==> Owes(s, n, x, m);
  }

  lemma {:induction false} WithdrawMeans(s: P.State, n: string, xs: seq<string>)
    requires P.TablesCanonical(s) && forall i, j | 0 <= i < j < |xs| :: xs[i] != xs[j]
    ensures WithdrawnTopics(s, Withdraw(s, n, xs).next, n, xs)
    ensures forall m :: m in Withdraw(s, n, xs).sent <==> exists t :: t in xs && Owes(s, n, t, m)
    decreases |xs|
  {
    if xs != [] {
      var ys, x := xs[..|xs| - 1], xs[|xs| - 1];
      assert xs == ys + [x] && x !in ys;
      WithdrawMeans(s, n, ys);
      WithdrawNext(s, Withdraw(s, n, ys).next, n, ys, x);
      assert forall t :: t in xs <==> t in ys || t == x;
    }
  }

  ghost function EmptyEach<T>(d: HS.Data<T>, n: string, xs: seq<string>): HS.Data<T>
    decreases |xs|
  {
    if xs == [] then d else HS.Emptied(EmptyEach(d, n, xs[..|xs| - 1]), xs[|xs| - 1], n)
  }

  lemma {:induction false} EmptyEachMeans<T>(d: HS.Data<T>, n: string, xs: seq<string>)
    requires HS.Canonical(d)
    ensures HS.Canonical(EmptyEach(d, n, xs))
    ensures forall t, m :: HS.NodeAt(EmptyEach(d, n, xs), t, m)
                        == if m == n && t in xs then map[] else HS.NodeAt(d, t, m)
    decreases |xs|
  {
    if xs != [] {
      EmptyEachMeans(d, n, xs[..|xs| - 1]);
      assert forall t :: t in xs <==> t in xs[..|xs| - 1] || t == xs[|xs| - 1];
    }
  }

  // Emptying every topic the node has handlers for leaves none of its handlers and all others.
  lemma EmptyEachIsAll<T>(d: HS.Data<T>, n: string, xs: seq<string>, names: set<string>)
    requires HS.Canonical(d) && OwnedHandlers(d, n, names) && forall x :: x in xs <==> x in names
    ensures EmptyEach(d, n, xs) == HS.WithoutOwner(d, n)
  {
    EmptyEachMeans(d, n, xs);
    HS.WithoutOwnerAt(d, n);
    HS.NodesDetermine(EmptyEach(d, n, xs), HS.WithoutOwner(d, n));
  }

  // Unsubscribing from one topic after the other.
  ghost function LeaveEach(st: Stores, n: string, xs: seq<string>): Stores {
    Stores(st.disc, EmptyEach(st.subs, n, xs), st.repliers)
  }

  lemma LeaveNext(st: Stores, n: string, v: Names, xs: seq<string>, i: nat)
    requires i < |xs|
    ensures LeaveEach(st, n, xs[..i + 1]) == Leaving(LeaveEach(st, n, xs[..i]), n, v, xs[i]).stores
  {
    assert xs[..i + 1][..i] == xs[..i];
  }

  // Unadvertising one service after the other.
  ghost function RetireEach(st: Stores, n: string, xs: seq<string>): Stores {
    Stores(Withdraw(st.disc, n, xs).next, st.subs, EmptyEach(st.repliers, n, xs))
  }

  lemma RetireNext(st: Stores, n: string, v: Names, xs: seq<string>, i: nat)
    requires i < |xs|
    ensures RetireEach(st, n, xs[..i + 1]) == Retiring(RetireEach(st, n, xs[..i]), n, v, xs[i]).stores
    ensures Withdraw(st.disc, n, xs[..i + 1]).sent
         == Withdraw(st.disc, n, xs[..i]).sent + P.Unadvertise(RetireEach(st, n, xs[..i]).disc, Msg, xs[i], n).sent
  {
    assert xs[..i + 1][..i] == xs[..i];
  }

  // Withdrawing every topic the node has rows for drops its rows, and the services withdrawn behind
  // that find none and send nothing.
  lemma WithdrawIsAll(s: P.State, n: string, xs: seq<string>, ys: seq<string>, names: set<string>)
    requires P.TablesCanonical(s) && Owned(s.infoMsg, s.me.pUuid, n, names) && forall x :: x in xs <==> x in names
    requires forall i, j | 0 <= i < j < |xs| :: xs[i] != xs[j]
    requires forall i, j | 0 <= i < j < |ys| :: ys[i] != ys[j]
    ensures var s1 := Withdraw(s, n, xs).next;
            var o := Withdraw(s1, n, ys);
            o.next == s.(infoMsg := DropOwner(s.infoMsg, s.me.pUuid, n)) && o.sent == []
    ensures forall m :: m in Withdraw(s, n, xs).sent <==> exists t :: Owes(s, n, t, m)
  {
    var s1 := Withdraw(s, n, xs).next;
    WithdrawMeans(s, n, xs);
    DropOwnerVec(s.infoMsg, s.me.pUuid, n);
    forall t | t !in xs ensures Without(P.Vector(s, Msg, t, s.me.pUuid), n) == P.Vector(s, Msg, t, s.me.pUuid) {
      assert NoRow(P.Vector(s, Msg, t, s.me.pUuid), n);
      WithoutAbsent(P.Vector(s, Msg, t, s.me.pUuid), n);
    }
    SameTable(s1.infoMsg, DropOwner(s.infoMsg, s.me.pUuid, n), s1);
    forall t ensures NoRow(P.Vector(s1, Msg, t, s.me.pUuid), n) {
      WithoutMember(P.Vector(s, Msg, t, s.me.pUuid), n);
    }
    NothingLeft(s1, n, ys);
  }

  // The destructor's three loops, whatever the order the sets are gone through in.
  lemma DestroyedInOrder(st: Stores, n: string, v: Names, xs: seq<string>, ys: seq<string>, zs: seq<string>)
    requires Kept(st, n, v)
    requires Each(xs, v.subscribed) && Each(ys, v.advertised) && Each(zs, v.services)
    ensures var o := Withdraw(st.disc, n, ys);
            && RetireEach(LeaveEach(st, n, xs).(disc := o.next), n, zs) == Destroyed(st, n)
            && Withdraw(o.next, n, zs).sent == []
            && forall m :: m in o.sent <==> exists t :: Owes(st.disc, n, t, m)
  {
    EachMembers(xs, v.subscribed);
    EachMembers(ys, v.advertised);
    EachMembers(zs, v.services);
    EmptyEachIsAll(st.subs, n, xs, v.subscribed);
    EmptyEachIsAll(st.repliers, n, zs, v.services);
    WithdrawIsAll(st.disc, n, ys, zs, v.advertised);
  }

  lemma SameTable(d: Table, e: Table, s: P.State)
    requires d == s.infoMsg && Canonical(d) && Canonical(e)
    requires forall t, q :: P.Vector(s, Msg, t, q) == Vec(e, t, q)
    ensures d == e
  {
    forall t, q ensures Vec(d, t, q) == Vec(e, t, q) {
      assert P.Vector(s, Msg, t, q) == Vec(e, t, q);
    }
    CanonicalExtensional(d, e);
  }

  lemma {:induction false} NothingLeft(s: P.State, n: string, ys: seq<string>)
    requires P.TablesCanonical(s) && forall t :: NoRow(P.Vector(s, Msg, t, s.me.pUuid), n)
    ensures Withdraw(s, n, ys) == P.Output(s, [], [])
    decreases |ys|
  {
    if ys != [] {
      NothingLeft(s, n, ys[..|ys| - 1]);
      assert NoRow(P.Vector(s, Msg, ys[|ys| - 1], s.me.pUuid), n);
    }
  }

  // ---- Runs of a process ----

  datatype World = World(stores: Stores, pending: R.Pending, nodes: map<string, Names>)

  // Ask: a node requests a service.  Answered: a response takes a pending request away.
  datatype Move =
    | Create(n: string, partition: string, ns: string)
    | Do(n: string, call: Call)
    | Destroy(n: string)
    | Discover(i: P.Input)
    | Ask(n: string, topic: string, hUuid: string, data: string)
    | Answered(key: HS.Key)

  ghost predicate FreshUuid(t: R.Pending, h: string) {
    forall k | k in t :: k.handler != h
  }

  // A request is pending only if nobody in the process answers it, and sent at once if a responder is
  // known.  Connection callbacks of discovery send what waits.
  ghost function Step(w: World, ends: Endpoints, x: Move): World {
    match x
    case Create(n, partition, ns) =>
      if n in w.nodes || !IsValidNamespace(partition) || !IsValidNamespace(ns) then w
      else w.(nodes := w.nodes[n := NO_NAMES.(partition := partition, ns := ns)])
    case Do(n, c) =>
      if n !in w.nodes then w else
        var o := Perform(w.stores, n, w.nodes[n], ends, c);
        w.(stores := o.stores, nodes := w.nodes[n := o.names])
    case Destroy(n) =>
      if n !in w.nodes then w else w.(stores := Destroyed(w.stores, n), nodes := w.nodes - {n})
    case Discover(i) =>
      if P.LocalUpdate(i) then w else
        var o := P.Step(w.stores.disc, i);
        w.(stores := w.stores.(disc := o.next), pending := Matching.Callbacks(w.pending, o.next.infoSrv, o.events))
    case Ask(n, topic, h, data) =>
      if n !in w.nodes || Qualify(w.nodes[n], topic).None? || !FreshUuid(w.pending, h) then w else
        var full := Qualify(w.nodes[n], topic).value;
        if full in w.stores.repliers then w
        else
          var pending := w.pending[HS.Key(full, n, h) := R.Handler(data, false)];
          w.(pending := Matching.SendKnown(pending, w.stores.disc.infoSrv, full))
    case Answered(k) => w.(pending := w.pending - {k})
  }

  ghost function Exec(w: World, ends: Endpoints, run: seq<Move>): World
    decreases |run|
  {
    if run == [] then w else Step(Exec(w, ends, run[..|run| - 1]), ends, run[|run| - 1])
  }

  ghost predicate Start(w: World) {
    && P.Fresh(w.stores.disc) && w.stores.subs == map[] && w.stores.repliers == map[]
    && w.pending == imap[] && w.nodes == map[]
  }

  // The sets of a node; of a node that does not exist, nothing.
  function NodeOf(w: World, n: string): Names {
    if n in w.nodes then w.nodes[n] else NO_NAMES
  }

  ghost predicate Inv(w: World) {
    AllAccounted(w) && P.Inv(w.stores.disc) && forall n | n in w.nodes :: NamesOk(w.nodes[n])
  }

  lemma PerformOwnNames(st: Stores, n: string, v: Names, ends: Endpoints, c: Call)
    requires NamesOk(v)
    ensures NamesOk(Perform(st, n, v, ends, c).names)
  {
    if Qualify(v, c.topic).Some? {
      assert Qualified(v, Qualify(v, c.topic).value);
      var u := Perform(st, n, v, ends, c).names;
      forall x | x in u.subscribed + u.advertised + u.services ensures Qualified(u, x) {
        assert Qualified(v, x);
        var t :| Qualify(v, t) == Some(x);
        assert Qualify(u, t) == Some(x);
      }
    }
  }

  // Discovery's own invariant, for the calls of a node.
  lemma PerformDisc(st: Stores, n: string, v: Names, ends: Endpoints, c: Call)
    requires P.Inv(st.disc)
    ensures var s' := Perform(st, n, v, ends, c).stores.disc; P.Inv(s') && s'.me == st.disc.me
  {
    if Qualify(v, c.topic).Some? {
      var x := Qualify(v, c.topic).value;
      match c
      case Advertise(_, scope) =>
        P.StepKeepsInv(st.disc, P.DoAdvertise(Msg, x, Address(ends.publisher, ends.control, n, scope)));
      case Unadvertise(_) => P.StepKeepsInv(st.disc, P.DoUnadvertise(Msg, x, n));
      case AdvertiseSrv(_, _, _, scope) =>
        P.StepKeepsInv(st.disc, P.DoAdvertise(Srv, x, Address(ends.replier, ends.replierId, n, scope)));
      case UnadvertiseSrv(_) => P.StepKeepsInv(st.disc, P.DoUnadvertise(Msg, x, n));
      case _ =>
    }
  }

  lemma DestroyedDisc(st: Stores, n: string)
    requires P.Inv(st.disc)
    ensures P.Inv(Destroyed(st, n).disc)
  {
    DropOwnerVec(st.disc.infoMsg, st.disc.me.pUuid, n);
    var s' := Destroyed(st, n).disc;
    forall k, t, p | P.Vector(s', k, t, p) != [] && p != s'.me.pUuid ensures p in s'.activity {
      assert P.Vector(s', k, t, p) == P.Vector(st.disc, k, t, p);
    }
  }

  ghost predicate AllAccounted(w: World) {
    forall n :: Kept(w.stores, n, NodeOf(w, n))
  }

  lemma DoKeeps(w: World, ends: Endpoints, n: string, c: Call)
    requires AllAccounted(w) && n in w.nodes
    ensures AllAccounted(Step(w, ends, Do(n, c)))
  {
    var w' := Step(w, ends, Do(n, c));
    forall m ensures Kept(w'.stores, m, NodeOf(w', m)) {
      assert Kept(w.stores, m, NodeOf(w, m));
      PerformAccounted(w.stores, n, w.nodes[n], ends, c, m, NodeOf(w, m));
    }
  }

  lemma DestroyKeeps(w: World, ends: Endpoints, n: string)
    requires AllAccounted(w) && n in w.nodes
    ensures AllAccounted(Step(w, ends, Destroy(n)))
  {
    var w' := Step(w, ends, Destroy(n));
    forall m ensures Kept(w'.stores, m, NodeOf(w', m)) {
      assert Kept(w.stores, m, NodeOf(w, m));
      DestroyedAccounted(w.stores, n, m, NodeOf(w, m));
    }
  }

  lemma DiscoverKeeps(w: World, ends: Endpoints, i: P.Input)
    requires AllAccounted(w) && P.Inv(w.stores.disc) && !P.LocalUpdate(i)
    ensures AllAccounted(Step(w, ends, Discover(i)))
  {
    var w' := Step(w, ends, Discover(i));
    P.StepKeepsInv(w.stores.disc, i);
    forall m ensures Kept(w'.stores, m, NodeOf(w', m)) {
      assert Kept(w.stores, m, NodeOf(w, m));
      StepAccounted(w.stores, i, m, NodeOf(w, m));
    }
  }

  lemma CreateKeeps(w: World, ends: Endpoints, n: string, partition: string, ns: string)
    requires AllAccounted(w)
    ensures AllAccounted(Step(w, ends, Create(n, partition, ns)))
  {
    var w' := Step(w, ends, Create(n, partition, ns));
    forall m ensures Kept(w'.stores, m, NodeOf(w', m)) {
      assert Kept(w.stores, m, NodeOf(w, m));
    }
  }

  lemma PendingKeeps(w: World, w': World)
    requires AllAccounted(w) && w'.stores == w.stores && w'.nodes == w.nodes
    ensures AllAccounted(w')
  {
    forall m ensures Kept(w'.stores, m, NodeOf(w', m)) {
      assert Kept(w.stores, m, NodeOf(w, m));
    }
  }

  lemma StepInv(w: World, ends: Endpoints, x: Move)
    requires Inv(w)
    ensures Inv(Step(w, ends, x)) && Step(w, ends, x).stores.disc.me == w.stores.disc.me
  {
    match x
    case Create(n, partition, ns) => CreateKeeps(w, ends, n, partition, ns);
    case Do(n, c) =>
      if n in w.nodes {
        DoKeeps(w, ends, n, c);
        PerformDisc(w.stores, n, w.nodes[n], ends, c);
        PerformOwnNames(w.stores, n, w.nodes[n], ends, c);
      }
    case Destroy(n) =>
      if n in w.nodes {
        DestroyKeeps(w, ends, n);
        DestroyedDisc(w.stores, n);
      }
    case Discover(i) =>
      if !P.LocalUpdate(i) {
        DiscoverKeeps(w, ends, i);
        P.StepKeepsInv(w.stores.disc, i);
      }
    case _ => PendingKeeps(w, Step(w, ends, x));
  }

  lemma {:induction false} RunInv(w: World, ends: Endpoints, run: seq<Move>)
    requires Start(w)
    ensures Inv(Exec(w, ends, run)) && Exec(w, ends, run).stores.disc.me == w.stores.disc.me
    decreases |run|
  {
    if run == [] {
      P.FreshInv(w.stores.disc);
    } else {
      RunInv(w, ends, run[..|run| - 1]);
      StepInv(Exec(w, ends, run[..|run| - 1]), ends, run[|run| - 1]);
    }
  }

  // No message row, callback or replier of node n.
  ghost predicate NothingOf(st: Stores, n: string) {
    forall t ::
      && NoRow(P.Vector(st.disc, Msg, t, st.disc.me.pUuid), n)
      && HS.NodeAt(st.subs, t, n) == map[] && HS.NodeAt(st.repliers, t, n) == map[]
  }

  // In every run of any number of nodes, whatever discovery receives, each node that exists has its
  // names in order and finds in the stores only what its sets list; of callbacks and repliers exactly
  // that; and nothing is left of a node that does not exist but rows in the service table.
  lemma EveryNodeAccounted(w: World, ends: Endpoints, run: seq<Move>, n: string)
    requires Start(w)
    ensures var e := Exec(w, ends, run);
            && Accounted(e.stores, n, NodeOf(e, n))
            && (n in e.nodes ==> NamesOk(e.nodes[n]))
            && (n !in e.nodes ==> NothingOf(e.stores, n))
  {
    RunInv(w, ends, run);
  }

  // ---- Whose service a request goes to ----

  // The address SendPendingRemoteReqs uses: the first of the first process.
  function Responder(d: Table, topic: string): Option<Address>
    requires Canonical(d)
  {
    if topic in d then
      assert d[topic] != map[];
      Some(d[topic][Least(d[topic].Keys)][0])
    else None
  }

  // The first process is this one.
  ghost predicate OwnFirst(s: P.State, topic: string) {
    topic in s.infoSrv && IsLeast(s.me.pUuid, s.infoSrv[topic].Keys)
  }

  // The service names a run advertised.
  ghost function Served(w: World, ends: Endpoints, run: seq<Move>): set<string>
    decreases |run|
  {
    if run == [] then {} else
      Served(w, ends, run[..|run| - 1]) + ServedBy(Exec(w, ends, run[..|run| - 1]), run[|run| - 1])
  }

  ghost function ServedBy(w: World, x: Move): set<string> {
    if x.Do? && x.call.AdvertiseSrv? && x.n in w.nodes && Qualify(w.nodes[x.n], x.call.topic).Some?
    then {Qualify(w.nodes[x.n], x.call.topic).value} else {}
  }

  // Every own row of the service table names this process's replier.
  ghost predicate OwnRows(s: P.State, ends: Endpoints, names: set<string>) {
    forall t :: OwnRow(P.Vector(s, Srv, t, s.me.pUuid), ends, t in names)
  }

  ghost predicate OwnRow(v: seq<Address>, ends: Endpoints, some: bool) {
    (v != [] <==> some) && forall a | a in v :: a.addr == ends.replier && a.ctrl == ends.replierId
  }

  lemma SameServices(s: P.State, s': P.State, ends: Endpoints, names: set<string>)
    requires OwnRows(s, ends, names) && s'.me == s.me
    requires forall t :: P.Vector(s', Srv, t, s.me.pUuid) == P.Vector(s, Srv, t, s.me.pUuid)
    ensures OwnRows(s', ends, names)
  {
    forall t ensures OwnRow(P.Vector(s', Srv, t, s.me.pUuid), ends, t in names) {
      assert OwnRow(P.Vector(s, Srv, t, s.me.pUuid), ends, t in names);
    }
  }

  // Own rows of the service table come with AdvertiseSrv and never go.
  lemma StepServices(w: World, ends: Endpoints, x: Move, names: set<string>)
    requires Inv(w) && OwnRows(w.stores.disc, ends, names)
    ensures OwnRows(Step(w, ends, x).stores.disc, ends, names + ServedBy(w, x))
  {
    var s, s' := w.stores.disc, Step(w, ends, x).stores.disc;
    assert names + {} == names;
    if x.Do? && x.n in w.nodes && Qualify(w.nodes[x.n], x.call.topic).Some? {
      CallServices(w.stores, x.n, w.nodes[x.n], ends, x.call, names);
    } else if x.Discover? && !P.LocalUpdate(x.i) {
      P.StepKeepsInv(s, x.i);
      forall t ensures P.Vector(s', Srv, t, s.me.pUuid) == P.Vector(s, Srv, t, s.me.pUuid) {
        P.StepOwn(s, x.i, Srv, t);
      }
      SameServices(s, s', ends, names);
    }
  }

  lemma ServiceAdded(s: P.State, ends: Endpoints, x: string, a: Address, names: set<string>)
    requires P.Inv(s) && OwnRows(s, ends, names) && a.addr == ends.replier && a.ctrl == ends.replierId
    ensures OwnRows(P.Advertise(s, Srv, x, a).next, ends, names + {x})
  {
    P.InsertAt(s, Srv, x, s.me.pUuid, a);
    forall t ensures OwnRow(P.Vector(P.Advertise(s, Srv, x, a).next, Srv, t, s.me.pUuid), ends, t in names + {x}) {
      assert OwnRow(P.Vector(s, Srv, t, s.me.pUuid), ends, t in names);
    }
  }

  // No call but AdvertiseSrv touches the service table.
  lemma OtherCallServices(st: Stores, n: string, v: Names, ends: Endpoints, c: Call, x: string)
    requires !c.AdvertiseSrv?
    ensures var s' := PerformOn(st, n, v, ends, c, x).stores.disc; s'.infoSrv == st.disc.infoSrv && s'.me == st.disc.me
  {
  }

  lemma CallServices(st: Stores, n: string, v: Names, ends: Endpoints, c: Call, names: set<string>)
    requires P.Inv(st.disc) && OwnRows(st.disc, ends, names) && Qualify(v, c.topic).Some?
    ensures OwnRows(Perform(st, n, v, ends, c).stores.disc, ends,
                    names + if c.AdvertiseSrv? then {Qualify(v, c.topic).value} else {})
  {
    var s, x := st.disc, Qualify(v, c.topic).value;
    assert names + {} == names;
    if c.AdvertiseSrv? {
      ServiceAdded(s, ends, x, Address(ends.replier, ends.replierId, n, c.scope), names);
    } else {
      OtherCallServices(st, n, v, ends, c, x);
      SameServices(s, Perform(st, n, v, ends, c).stores.disc, ends, names);
    }
  }

  lemma {:induction false} RunServices(w: World, ends: Endpoints, run: seq<Move>)
    requires Start(w)
    ensures OwnRows(Exec(w, ends, run).stores.disc, ends, Served(w, ends, run))
    decreases |run|
  {
    if run != [] {
      RunServices(w, ends, run[..|run| - 1]);
      RunInv(w, ends, run[..|run| - 1]);
      StepServices(Exec(w, ends, run[..|run| - 1]), ends, run[|run| - 1], Served(w, ends, run[..|run| - 1]));
    }
  }

  // In every run a request that has to leave its node is addressed to the process itself exactly if the
  // service was advertised here at some time, withdrawn or not, and no process with a smaller UUID is
  // known to serve it.
  lemma ResponderIsSelf(w: World, ends: Endpoints, run: seq<Move>, topic: string)
    requires Start(w)
    ensures var s := Exec(w, ends, run).stores.disc;
            && Canonical(s.infoSrv)
            && (OwnFirst(s, topic) <==>
                topic in Served(w, ends, run)
                && forall p | P.Vector(s, Srv, topic, p) != [] && p != s.me.pUuid :: Less(s.me.pUuid, p))
            && (OwnFirst(s, topic) ==> Responder(s.infoSrv, topic).Some?
                                       && Responder(s.infoSrv, topic).value.addr == ends.replier
                                       && Responder(s.infoSrv, topic).value.ctrl == ends.replierId)
  {
    RunInv(w, ends, run);
    RunServices(w, ends, run);
    var s := Exec(w, ends, run).stores.disc;
    OwnFirstMeans(s, topic);
    assert OwnRow(P.Vector(s, Srv, topic, s.me.pUuid), ends, topic in Served(w, ends, run));
    if OwnFirst(s, topic) {
      LeastUnique(s.infoSrv[topic].Keys);
      assert Responder(s.infoSrv, topic).value in P.Vector(s, Srv, topic, s.me.pUuid);
    }
  }

  lemma OwnFirstMeans(s: P.State, topic: string)
    requires Canonical(s.infoSrv)
    ensures OwnFirst(s, topic) <==>
            P.Vector(s, Srv, topic, s.me.pUuid) != []
            && forall p | P.Vector(s, Srv, topic, p) != [] && p != s.me.pUuid :: Less(s.me.pUuid, p)
  {
    if topic in s.infoSrv {
      assert forall p :: p in s.infoSrv[topic].Keys <==> P.Vector(s, Srv, topic, p) != [];
    }
  }

  // A replier of the topic lives in the process exactly if some node lists the service.
  lemma ReplierMeansService(w: World, topic: string)
    requires Inv(w)
    ensures topic in w.stores.repliers <==> exists n :: n in w.nodes && topic in w.nodes[n].services
  {
    var d := w.stores.repliers;
    if topic in d {
      assert Kept(w.stores, "", NodeOf(w, ""));
      assert d[topic] != map[];
      var n :| n in d[topic];
      HandlerListed(w.stores, n, NodeOf(w, n), topic);
    }
    if n :| n in w.nodes && topic in w.nodes[n].services {
      HandlerListed(w.stores, n, NodeOf(w, n), topic);
    }
  }

  lemma HandlerListed(st: Stores, n: string, v: Names, topic: string)
    requires Kept(st, n, v)
    ensures topic in v.services <==> topic in st.repliers && n in st.repliers[topic]
  {
    assert topic in v.services <==> HS.NodeAt(st.repliers, topic, n) != map[];
  }

  // The request is addressed to this process's own replier, to which nothing connects it, while no replier
  // here answers it on the spot.
  ghost predicate AskedOfSelf(w: World, full: string) {
    full !in w.stores.repliers && OwnFirst(w.stores.disc, full)
  }

  // The service was advertised in the process, every node that did has withdrawn it or is gone, and no
  // process with a smaller UUID is known to serve it.
  ghost predicate Abandoned(w: World, served: set<string>, full: string) {
    var s := w.stores.disc;
    && full in served && (forall m | m in w.nodes :: full !in w.nodes[m].services)
    && forall p | P.Vector(s, Srv, full, p) != [] && p != s.me.pUuid :: Less(s.me.pUuid, p)
  }

  // In every run a request would be addressed to the process itself, with nobody there to answer, exactly
  // if its service is abandoned.
  lemma AskedOfSelfIff(w: World, ends: Endpoints, run: seq<Move>, full: string)
    requires Start(w)
    ensures AskedOfSelf(Exec(w, ends, run), full) <==> Abandoned(Exec(w, ends, run), Served(w, ends, run), full)
  {
    RunInv(w, ends, run);
    ResponderIsSelf(w, ends, run, full);
    ReplierMeansService(Exec(w, ends, run), full);
  }

  lemma ExecNext(w: World, ends: Endpoints, run: seq<Move>, x: Move)
    ensures Exec(w, ends, run + [x]) == Step(Exec(w, ends, run), ends, x)
    ensures Served(w, ends, run + [x]) == Served(w, ends, run) + ServedBy(Exec(w, ends, run), x)
  {
    assert (run + [x])[..|run|] == run;
  }

  lemma ExecThree(w: World, ends: Endpoints, x: Move, y: Move, z: Move)
    ensures Exec(w, ends, [x, y, z]) == Step(Step(Step(w, ends, x), ends, y), ends, z)
    ensures Served(w, ends, [x, y, z])
         == ServedBy(w, x) + ServedBy(Step(w, ends, x), y) + ServedBy(Step(Step(w, ends, x), ends, y), z)
  {
    ExecNext(w, ends, [], x);
    ExecNext(w, ends, [x], y);
    ExecNext(w, ends, [x, y], z);
    assert [] + [x] == [x] && [x] + [y] == [x, y] && [x, y] + [z] == [x, y, z];
  }

  lemma OnlyOwnService(s: P.State, x: string, a: Address, n: string, p: string)
    requires P.Fresh(s) && p != s.me.pUuid
    ensures P.Vector(P.Unadvertise(P.Advertise(s, Srv, x, a).next, Msg, x, n).next, Srv, x, p) == []
  {
    P.FreshInv(s);
    P.InsertAt(s, Srv, x, s.me.pUuid, a);
    assert P.Vector(s, Srv, x, p) == [];
  }

  lemma OfferedAndRetired(st: Stores, n: string, v: Names, ends: Endpoints, x: string, h: string, service: Service,
                          scope: Scope, p: string)
    requires P.Fresh(st.disc) && p != st.disc.me.pUuid
    ensures var o := Offering(st, n, v, ends, x, h, service, scope);
            var o' := Retiring(o.stores, n, o.names, x);
            && P.Vector(o'.stores.disc, Srv, x, p) == [] && o'.stores.disc.me == st.disc.me
            && o'.names == v.(services := v.services + {x} - {x})
            && o.names == v.(services := v.services + {x})
  {
    OnlyOwnService(st.disc, x, Address(ends.replier, ends.replierId, n, scope), n, p);
  }

  lemma OnlyNodeDoes(w: World, ends: Endpoints, n: string, v: Names, c: Call, o: Outcome)
    requires w.nodes == map[n := v] && o == Perform(w.stores, n, v, ends, c)
    ensures Step(w, ends, Do(n, c)) == World(o.stores, w.pending, map[n := o.names])
  {
    assert n in w.nodes && w.nodes[n] == v;
    assert Step(w, ends, Do(n, c)) == w.(stores := o.stores, nodes := w.nodes[n := o.names]);
    assert w.nodes[n := o.names] == map[n := o.names];
  }

  // The process after a node was made, advertised a service and withdrew it.
  lemma OfferAndRetireRun(w: World, ends: Endpoints, n: string, v: Names, topic: string, h: string, service: Service,
                          scope: Scope)
    requires Start(w) && v == NO_NAMES.(partition := v.partition, ns := v.ns) && Qualify(v, topic).Some?
    ensures var x := Create(n, v.partition, v.ns);
            var y, z := Do(n, AdvertiseSrv(topic, h, service, scope)), Do(n, UnadvertiseSrv(topic));
            var full := Qualify(v, topic).value;
            var o := Offering(w.stores, n, v, ends, full, h, service, scope);
            var o' := Retiring(o.stores, n, o.names, full);
            && Exec(w, ends, [x, y, z]) == World(o'.stores, w.pending, map[n := o'.names])
            && full in Served(w, ends, [x, y, z])
  {
    var x := Create(n, v.partition, v.ns);
    var y, z := Do(n, AdvertiseSrv(topic, h, service, scope)), Do(n, UnadvertiseSrv(topic));
    var full := Qualify(v, topic).value;
    var o := Offering(w.stores, n, v, ends, full, h, service, scope);
    var w1 := World(w.stores, w.pending, map[n := v]);
    assert Step(w, ends, x) == w1;
    PerformAt(w.stores, n, v, ends, y.call, full);
    OnlyNodeDoes(w1, ends, n, v, y.call, o);
    PerformAt(o.stores, n, o.names, ends, z.call, full);
    OnlyNodeDoes(World(o.stores, w.pending, map[n := o.names]), ends, n, o.names, z.call,
                 Retiring(o.stores, n, o.names, full));
    ExecThree(w, ends, x, y, z);
    assert full in ServedBy(w1, y);
  }

  // It takes three calls: a node is made, its data v, advertises a service and withdraws it.
  lemma WithdrawnServiceAsked(w: World, ends: Endpoints, n: string, v: Names, topic: string, h: string,
                              service: Service, scope: Scope)
    requires Start(w) && v == NO_NAMES.(partition := v.partition, ns := v.ns) && Qualify(v, topic).Some?
    ensures var x := Create(n, v.partition, v.ns);
            var y, z := Do(n, AdvertiseSrv(topic, h, service, scope)), Do(n, UnadvertiseSrv(topic));
            AskedOfSelf(Exec(w, ends, [x, y, z]), Qualify(v, topic).value)
  {
    var run := [Create(n, v.partition, v.ns), Do(n, AdvertiseSrv(topic, h, service, scope)),
                Do(n, UnadvertiseSrv(topic))];
    var full := Qualify(v, topic).value;
    OfferAndRetireRun(w, ends, n, v, topic, h, service, scope);
    forall p | p != w.stores.disc.me.pUuid ensures P.Vector(Exec(w, ends, run).stores.disc, Srv, full, p) == [] {
      OfferedAndRetired(w.stores, n, v, ends, full, h, service, scope, p);
    }
    assert Abandoned(Exec(w, ends, run), Served(w, ends, run), full);
    AskedOfSelfIff(w, ends, run, full);
  }

  // Such a request is marked as requested at once, in the same step ...
  lemma AskingSelfMarks(w: World, ends: Endpoints, n: string, topic: string, h: string, data: string)
    requires n in w.nodes && Qualify(w.nodes[n], topic).Some? && FreshUuid(w.pending, h)
    requires AskedOfSelf(w, Qualify(w.nodes[n], topic).value)
    ensures var k := HS.Key(Qualify(w.nodes[n], topic).value, n, h);
            k in Step(w, ends, Ask(n, topic, h, data)).pending && SentAlready(Step(w, ends, Ask(n, topic, h, data)), k)
  {
  }

  ghost predicate SentAlready(w: World, k: HS.Key) {
    k in w.pending ==> w.pending[k].requested
  }

  // ... and never handed to the socket again, whoever shows up later, unless the node asks anew.
  lemma {:induction false} NeverSentAgain(w: World, ends: Endpoints, run: seq<Move>, k: HS.Key)
    requires SentAlready(w, k) && forall x | x in run && x.Ask? :: x.hUuid != k.handler
    ensures SentAlready(Exec(w, ends, run), k)
    decreases |run|
  {
    if run != [] {
      var ys, x := run[..|run| - 1], run[|run| - 1];
      assert forall y | y in ys :: y in run;
      assert x in run;
      NeverSentAgain(w, ends, ys, k);
      StepSentAlready(Exec(w, ends, ys), ends, x, k);
    }
  }

  lemma StepSentAlready(w: World, ends: Endpoints, x: Move, k: HS.Key)
    requires SentAlready(w, k) && (x.Ask? ==> x.hUuid != k.handler)
    ensures SentAlready(Step(w, ends, x), k)
  {
    if x.Discover? && !P.LocalUpdate(x.i) && Matching.Waits(Step(w, ends, x).pending, k) {
      var o := P.Step(w.stores.disc, x.i);
      Matching.CallbacksOnlySend(w.pending, o.next.infoSrv, o.events, k);
    }
  }
}
