// What one step of discovery takes in, sends and calls back, said in terms of the rows, the message and
// the callbacks alone.
module StepMeaning {
  import opened Types
  import opened TopicTable
  import opened Ordering
  import opened Messages
  import opened Protocol
  import Network
  import B = ByteNetwork
  import Repair
  import TopicStorage

  // ---- What is taken in ----

  // An ADV that may be seen adds its row behind the others unless address and node are known; one with scope
  // Process, or with scope Host from another host, adds nothing.
  lemma AdvTaken(s: State, ip: string, k: Kind, p: string, t: string, a: Address, now: int)
    requires Inv(s) && p != s.me.pUuid
    ensures var v, v' := Vector(s, k, t, p), Vector(Step(s, Recv(ip, Adv(k, p, t, a), now)).next, k, t, p);
            && (Known(v', a.addr, a.nUuid) <==>
                Known(v, a.addr, a.nUuid) || (a.scope != Process && (a.scope == Host ==> ip == s.me.hostAddr)))
            && (v' == v || v' == v + [a])
  {
    ReceiveVec(s, ip, Adv(k, p, t, a), now);
    Repair.KnownAppend(Vector(s, k, t, p), a, a.addr, a.nUuid);
  }

  // An UNADV that may be seen takes the rows of its node and no others; another takes none.
  lemma UnadvTaken(s: State, ip: string, k: Kind, p: string, t: string, a: Address, now: int, b: Address)
    requires Inv(s) && p != s.me.pUuid
    ensures var v, v' := Vector(s, k, t, p), Vector(Step(s, Recv(ip, Unadv(k, p, t, a), now)).next, k, t, p);
            b in v' <==>
            b in v && !(b.nUuid == a.nUuid && a.scope != Process && (a.scope == Host ==> ip == s.me.hostAddr))
  {
    ReceiveVec(s, ip, Unadv(k, p, t, a), now);
    WithoutMember(Vector(s, k, t, p), a.nUuid);
  }

  // ---- What is called back ----

  // A new row that may be seen is reported, once, with its fields, if the callback of its kind is set.
  lemma AdvReported(s: State, ip: string, k: Kind, p: string, t: string, a: Address, now: int)
    requires p != s.me.pUuid
    ensures var events := Step(s, Recv(ip, Adv(k, p, t, a), now)).events;
            if !Known(Vector(s, k, t, p), a.addr, a.nUuid)
               && a.scope != Process && (a.scope == Host ==> ip == s.me.hostAddr)
               && (k == Msg ==> s.me.cbs.connection) && (k == Srv ==> s.me.cbs.connectionSrv)
            then events == [Connected(k, t, p, a)] else events == []
  {
  }

  // An UNADV that may be seen is reported whether or not there is such a row.
  lemma UnadvReported(s: State, ip: string, k: Kind, p: string, t: string, a: Address, now: int)
    requires p != s.me.pUuid
    ensures var events := Step(s, Recv(ip, Unadv(k, p, t, a), now)).events;
            if a.scope != Process && (a.scope == Host ==> ip == s.me.hostAddr)
               && (k == Msg ==> s.me.cbs.disconnection) && (k == Srv ==> s.me.cbs.disconnectionSrv)
            then events == [Disconnected(k, t, p, a)] else events == []
  {
  }

  // A BYE is reported once for each disconnection callback that is set, without topic or address.
  lemma ByeReported(s: State, ip: string, p: string, now: int)
    requires p != s.me.pUuid
    ensures var events := Step(s, Recv(ip, Bye(p), now)).events;
            && |events| == (if s.me.cbs.disconnection then 1 else 0) + (if s.me.cbs.disconnectionSrv then 1 else 0)
            && forall e :: e in events <==>
                 e.Disconnected? && e.topic == "" && e.pUuid == p && e.info == Address("", "", "", All)
                 && (e.kind == Msg ==> s.me.cbs.disconnection) && (e.kind == Srv ==> s.me.cbs.disconnectionSrv)
  {
  }

  // Nothing else that is received is reported, and only a SUB is ever answered.
  lemma ReceivedQuietly(s: State, ip: string, m: Message, now: int)
    ensures var o := Step(s, Recv(ip, m, now));
            && (m.pUuid == s.me.pUuid ==> o.next == s && o.sent == [] && o.events == [])
            && (m.Sub? || m.Heartbeat? || m.Unknown? ==> o.events == [])
            && (!m.Sub? ==> o.sent == [])
  {
  }

  // ---- What is sent ----

  // Advertise sends its ADV unless the scope is Process.
  lemma AdvertiseSends(s: State, k: Kind, t: string, a: Address)
    ensures var o := Step(s, DoAdvertise(k, t, a));
            && (a.scope == Process ==> o.sent == [])
            && (a.scope != Process ==> o.sent == [Adv(k, s.me.pUuid, t, a)])
            && o.events == []
  {
  }

  // i is the first row of node n.
  ghost predicate FirstAt(v: seq<Address>, n: string, i: nat) {
    i < |v| && v[i].nUuid == n && forall j | 0 <= j < i :: v[j].nUuid != n
  }

  lemma {:induction false} FirstIs(v: seq<Address>, n: string, i: nat)
    requires FirstAt(v, n, i)
    ensures First(v, n) == Some(v[i])
  {
    if i > 0 {
      assert v[0].nUuid != n;
      assert FirstAt(v[1..], n, i - 1);
      FirstIs(v[1..], n, i - 1);
    }
  }

  // Unadvertise sends an UNADV with the node's first row unless that one has scope Process or there is none.
  lemma UnadvertiseSends(s: State, k: Kind, t: string, n: string, i: nat)
    requires FirstAt(Vector(s, k, t, s.me.pUuid), n, i)
    ensures var a := Vector(s, k, t, s.me.pUuid)[i];
            var o := Step(s, DoUnadvertise(k, t, n));
            && (a.scope == Process ==> o.sent == [])
            && (a.scope != Process ==> o.sent == [Unadv(k, s.me.pUuid, t, a)])
            && o.events == []
  {
    FirstIs(Vector(s, k, t, s.me.pUuid), n, i);
    assert First(Vector(s, k, t, s.me.pUuid), n).value.(nUuid := n) == First(Vector(s, k, t, s.me.pUuid), n).value;
  }

  lemma UnadvertiseNothing(s: State, k: Kind, t: string, n: string)
    requires NoRow(Vector(s, k, t, s.me.pUuid), n)
    ensures Step(s, DoUnadvertise(k, t, n)) == Output(s, [], [])
  {
  }

  lemma ExitSends(s: State)
    ensures Step(s, DoExit) == Output(s, [Bye(s.me.pUuid)], [])
  {
  }

  // The indices of a vector that may be shown to a requester at ip.
  ghost predicate MayBeShown(v: seq<Address>, ip: string, host: string, i: nat) {
    i < |v| && v[i].scope != Process && (v[i].scope == Host ==> ip == host)
  }

  // js lists them, in order.
  ghost predicate ListsShown(v: seq<Address>, ip: string, host: string, js: seq<nat>) {
    && (forall i, j | 0 <= i < j < |js| :: js[i] < js[j])
    && (forall i: nat :: i in js <==> MayBeShown(v, ip, host, i))
  }

  // One ADV for each of them.
  ghost predicate AnswersFor(ms: seq<Message>, k: Kind, p: string, t: string, v: seq<Address>, js: seq<nat>) {
    |ms| == |js| && forall j | 0 <= j < |js| :: js[j] < |v| && ms[j] == Adv(k, p, t, v[js[j]])
  }

  // A SUB is answered with one ADV for each own row of the topic the requester may see, in order.
  lemma SubAnswered(s: State, ip: string, k: Kind, p: string, t: string, now: int) returns (js: seq<nat>)
    requires p != s.me.pUuid
    ensures ListsShown(Vector(s, k, t, s.me.pUuid), ip, s.me.hostAddr, js)
    ensures AnswersFor(Step(s, Recv(ip, Sub(k, p, t), now)).sent, k, s.me.pUuid, t, Vector(s, k, t, s.me.pUuid), js)
  {
    js := AnswersAre(k, s.me.pUuid, t, Vector(s, k, t, s.me.pUuid), ip, s.me.hostAddr);
  }

  function Shift(js: seq<nat>): (r: seq<nat>)
    ensures |r| == |js| && forall j | 0 <= j < |r| :: r[j] == js[j] + 1
  {
    seq(|js|, j requires 0 <= j < |js| => js[j] + 1)
  }

  lemma ShiftMembers(js: seq<nat>)
    ensures forall i: nat :: i in Shift(js) <==> i > 0 && i - 1 in js
  {
    forall i: nat ensures i in Shift(js) <==> i > 0 && i - 1 in js {
      if i > 0 && i - 1 in js {
        var j :| 0 <= j < |js| && js[j] == i - 1;
        assert Shift(js)[j] == i;
      }
    }
  }

  lemma ShownNext(v: seq<Address>, ip: string, host: string, rest: seq<nat>, js: seq<nat>)
    requires v != [] && ListsShown(v[1..], ip, host, rest)
    requires js == (if MayBeShown(v, ip, host, 0) then [0] else []) + Shift(rest)
    ensures ListsShown(v, ip, host, js)
  {
    ShiftMembers(rest);
    forall i: nat ensures i in js <==> MayBeShown(v, ip, host, i) {
      if i > 0 {
        assert MayBeShown(v, ip, host, i) <==> MayBeShown(v[1..], ip, host, i - 1);
      }
    }
  }

  lemma AnswersForNext(ms: seq<Message>, k: Kind, p: string, t: string, v: seq<Address>, rest: seq<nat>)
    requires v != [] && AnswersFor(ms, k, p, t, v[1..], rest)
    ensures AnswersFor(ms, k, p, t, v, Shift(rest))
    ensures AnswersFor([Adv(k, p, t, v[0])] + ms, k, p, t, v, [0] + Shift(rest))
  {
  }

  lemma {:induction false} AnswersAre(k: Kind, p: string, t: string, v: seq<Address>, ip: string, host: string)
    returns (js: seq<nat>)
    ensures ListsShown(v, ip, host, js) && AnswersFor(Answers(k, p, t, v, ip, host), k, p, t, v, js)
  {
    if v == [] {
      js := [];
    } else {
      var rest := AnswersAre(k, p, t, v[1..], ip, host);
      js := (if MayBeShown(v, ip, host, 0) then [0] else []) + Shift(rest);
      ShownNext(v, ip, host, rest, js);
      AnswersForNext(Answers(k, p, t, v[1..], ip, host), k, p, t, v, rest);
      if MayBeShown(v, ip, host, 0) {
        assert Answers(k, p, t, v, ip, host) == [Adv(k, p, t, v[0])] + Answers(k, p, t, v[1..], ip, host);
      } else {
        assert Answers(k, p, t, v, ip, host) == [] + Answers(k, p, t, v[1..], ip, host);
        assert js == [] + Shift(rest) == Shift(rest);
      }
    }
  }

  // Said of one row.
  lemma SubAnswersRow(s: State, ip: string, k: Kind, p: string, t: string, now: int, a: Address)
    requires p != s.me.pUuid
    ensures Adv(k, s.me.pUuid, t, a) in Step(s, Recv(ip, Sub(k, p, t), now)).sent <==>
            a in Vector(s, k, t, s.me.pUuid) && a.scope != Process && (a.scope == Host ==> ip == s.me.hostAddr)
  {
    var v := Vector(s, k, t, s.me.pUuid);
    var ms := Step(s, Recv(ip, Sub(k, p, t), now)).sent;
    var js := SubAnswered(s, ip, k, p, t, now);
    if a in v && a.scope != Process && (a.scope == Host ==> ip == s.me.hostAddr) {
      var i: nat :| i < |v| && v[i] == a;
      assert MayBeShown(v, ip, s.me.hostAddr, i);
      var j :| 0 <= j < |js| && js[j] == i;
      assert ms[j] == Adv(k, s.me.pUuid, t, a);
    }
    if Adv(k, s.me.pUuid, t, a) in ms {
      var j :| 0 <= j < |ms| && ms[j] == Adv(k, s.me.pUuid, t, a);
      assert js[j] in js;
    }
  }

  // ---- Searching ----

  // Discover sends one SUB and changes nothing; without its callback it reports nothing.
  lemma DiscoverSends(s: State, k: Kind, t: string)
    ensures var o := Step(s, DoDiscover(k, t));
            && o.sent == [Sub(k, s.me.pUuid, t)] && o.next == s
            && ((k == Msg && !s.me.cbs.connection) || (k == Srv && !s.me.cbs.connectionSrv) ==> o.events == [])
  {
  }

  // A key and an index into its vector.
  datatype Place = Place(key: string, at: nat)

  ghost predicate PlaceBefore(a: Place, b: Place) {
    Less(a.key, b.key) || (a.key == b.key && a.at < b.at)
  }

  // rows lists every row of the topic once, by process in key order and in the order of its vector.
  ghost predicate ListsRows(s: State, k: Kind, t: string, rows: seq<Place>) {
    && (forall i, j | 0 <= i < j < |rows| :: PlaceBefore(rows[i], rows[j]))
    && (forall r :: r in rows <==> r.at < |Vector(s, k, t, r.key)|)
  }

  ghost predicate ReportsRows(events: seq<Event>, s: State, k: Kind, t: string, rows: seq<Place>) {
    && |events| == |rows|
    && forall j | 0 <= j < |rows| ::
         && rows[j].at < |Vector(s, k, t, rows[j].key)|
         && events[j] == Connected(k, t, rows[j].key, Vector(s, k, t, rows[j].key)[rows[j].at])
  }

  ghost function Places(m: Addresses, qs: seq<string>): seq<Place>
    requires forall q | q in qs :: q in m
  {
    if qs == [] then [] else
      seq(|m[qs[0]]|, i requires 0 <= i < |m[qs[0]]| => Place(qs[0], i)) + Places(m, qs[1..])
  }

  lemma {:induction false} PlacesMembers(m: Addresses, qs: seq<string>)
    requires forall q | q in qs :: q in m
    ensures forall r :: r in Places(m, qs) <==> r.key in qs && r.at < |m[r.key]|
  {
    if qs != [] {
      PlacesMembers(m, qs[1..]);
      var own := seq(|m[qs[0]]|, i requires 0 <= i < |m[qs[0]]| => Place(qs[0], i));
      forall r ensures r in own <==> r.key == qs[0] && r.at < |m[qs[0]]| {
        if r.key == qs[0] && r.at < |m[qs[0]]| {
          assert own[r.at] == r;
        }
      }
      assert forall q :: q in qs <==> q == qs[0] || q in qs[1..];
    }
  }

  lemma {:induction false} PlacesOrdered(m: Addresses, qs: seq<string>)
    requires Increasing(qs) && forall q | q in qs :: q in m
    ensures forall i, j | 0 <= i < j < |Places(m, qs)| :: PlaceBefore(Places(m, qs)[i], Places(m, qs)[j])
  {
    if qs != [] {
      var n, rows, rest := |m[qs[0]]|, Places(m, qs), Places(m, qs[1..]);
      PlacesOrdered(m, qs[1..]);
      PlacesMembers(m, qs[1..]);
      forall i, j | 0 <= i < j < |rows| ensures PlaceBefore(rows[i], rows[j]) {
        if j >= n {
          assert rows[j] == rest[j - n] && rest[j - n] in rest;
          assert Less(qs[0], rows[j].key);
        }
      }
    }
  }

  lemma {:induction false} ConnectsRows(k: Kind, t: string, m: Addresses, qs: seq<string>)
    requires forall q | q in qs :: q in m
    ensures var events, rows := ConnectProcs(k, t, m, qs), Places(m, qs);
            && |events| == |rows|
            && forall j | 0 <= j < |rows| ::
                 rows[j].key in m && rows[j].at < |m[rows[j].key]|
                 && events[j] == Connected(k, t, rows[j].key, m[rows[j].key][rows[j].at])
  {
    if qs != [] {
      ConnectsRows(k, t, m, qs[1..]);
    }
  }

  lemma PlacesList(s: State, k: Kind, t: string)
    requires t in Info(s, k)
    ensures ListsRows(s, k, t, Places(Info(s, k)[t], Keys(Info(s, k)[t].Keys)))
  {
    PlacesMembers(Info(s, k)[t], Keys(Info(s, k)[t].Keys));
    PlacesOrdered(Info(s, k)[t], Keys(Info(s, k)[t].Keys));
  }

  // With the callback set it reports every known row, the process's own included, once and in order.
  lemma DiscoverReports(s: State, k: Kind, t: string) returns (rows: seq<Place>)
    requires (k == Msg ==> s.me.cbs.connection) && (k == Srv ==> s.me.cbs.connectionSrv)
    ensures ListsRows(s, k, t, rows) && ReportsRows(Step(s, DoDiscover(k, t)).events, s, k, t, rows)
  {
    if t in Info(s, k) {
      var m := Info(s, k)[t];
      var qs := Keys(m.Keys);
      rows := Places(m, qs);
      PlacesList(s, k, t);
      ConnectsRows(k, t, m, qs);
      assert Step(s, DoDiscover(k, t)).events == ConnectProcs(k, t, m, qs);
    } else {
      rows := [];
    }
  }

  // Said of one row.
  lemma DiscoverReportsRow(s: State, k: Kind, t: string, e: Event)
    ensures e in Step(s, DoDiscover(k, t)).events <==>
            && e.Connected? && e.kind == k && e.topic == t && e.info in Vector(s, k, t, e.pUuid)
            && (k == Msg ==> s.me.cbs.connection) && (k == Srv ==> s.me.cbs.connectionSrv)
  {
    if (k == Msg ==> s.me.cbs.connection) && (k == Srv ==> s.me.cbs.connectionSrv) {
      var rows := DiscoverReports(s, k, t);
      var events := Step(s, DoDiscover(k, t)).events;
      if e.Connected? && e.kind == k && e.topic == t && e.info in Vector(s, k, t, e.pUuid) {
        var i: nat :| i < |Vector(s, k, t, e.pUuid)| && Vector(s, k, t, e.pUuid)[i] == e.info;
        assert Place(e.pUuid, i) in rows;
        var j :| 0 <= j < |rows| && rows[j] == Place(e.pUuid, i);
        assert events[j] == e;
      }
    }
  }

  // ---- Heartbeats ----

  // rows lists every own row once, by topic in key order and in the order of its vector.
  ghost predicate ListsOwn(s: State, k: Kind, rows: seq<Place>) {
    && (forall i, j | 0 <= i < j < |rows| :: PlaceBefore(rows[i], rows[j]))
    && (forall r :: r in rows <==> r.at < |Vector(s, k, r.key, s.me.pUuid)|)
  }

  ghost predicate AdvertisesRows(ms: seq<Message>, s: State, k: Kind, rows: seq<Place>) {
    && |ms| == |rows|
    && forall j | 0 <= j < |rows| ::
         && rows[j].at < |Vector(s, k, rows[j].key, s.me.pUuid)|
         && ms[j] == Adv(k, s.me.pUuid, rows[j].key, Vector(s, k, rows[j].key, s.me.pUuid)[rows[j].at])
  }

  lemma {:induction false} AdvertisesPlaces(k: Kind, p: string, nodes: Addresses, ts: seq<string>)
    requires forall t | t in ts :: t in nodes
    ensures var ms, rows := AdvertiseTopics(k, p, nodes, ts), Places(nodes, ts);
            && |ms| == |rows|
            && forall j | 0 <= j < |rows| ::
                 rows[j].key in nodes && rows[j].at < |nodes[rows[j].key]|
                 && ms[j] == Adv(k, p, rows[j].key, nodes[rows[j].key][rows[j].at])
  {
    if ts != [] {
      AdvertisesPlaces(k, p, nodes, ts[1..]);
    }
  }

  lemma OwnAdvertisementsList(s: State, k: Kind) returns (rows: seq<Place>)
    ensures ListsOwn(s, k, rows) && AdvertisesRows(OwnAdvertisements(s, k), s, k, rows)
  {
    var nodes := TopicStorage.ByProc(Info(s, k), s.me.pUuid);
    var ts := Keys(nodes.Keys);
    rows := Places(nodes, ts);
    PlacesMembers(nodes, ts);
    PlacesOrdered(nodes, ts);
    AdvertisesPlaces(k, s.me.pUuid, nodes, ts);
  }

  // A heartbeat is a HEARTBEAT, then one ADV for each own row, message topics before services, in order; it
  // changes nothing and reports nothing.
  lemma HeartbeatSends(s: State) returns (ms: seq<Message>, msgs: seq<Place>, vs: seq<Message>, srvs: seq<Place>)
    ensures Step(s, DoHeartbeat) == Output(s, [Heartbeat(s.me.pUuid)] + ms + vs, [])
    ensures ListsOwn(s, Msg, msgs) && AdvertisesRows(ms, s, Msg, msgs)
    ensures ListsOwn(s, Srv, srvs) && AdvertisesRows(vs, s, Srv, srvs)
  {
    msgs := OwnAdvertisementsList(s, Msg);
    srvs := OwnAdvertisementsList(s, Srv);
    ms, vs := OwnAdvertisements(s, Msg), OwnAdvertisements(s, Srv);
  }

  // ---- A search and its answers, end to end ----

  // What AdvertiseBase::Pack accepts.
  predicate Complete(t: string, a: Address) {
    t != "" && a.addr != "" && a.nUuid != ""
  }

  // The answers to q's SUB, delivered to q in any order and any number of times, leave q knowing every complete
  // row p has of the topic and q may see.
  lemma SubCovers(p: State, q: State, k: Kind, t: string, ms: seq<Message>, asked: int, now: int, a: Address)
    requires Inv(p) && Inv(q) && p.me.pUuid != q.me.pUuid && p.me.pUuid != "" && q.me.pUuid != ""
    requires forall m :: m in ms <==>
               m in Step(p, Recv(q.me.hostAddr, Transmit(Sub(k, q.me.pUuid, t)), asked)).sent
    requires a in Vector(p, k, t, p.me.pUuid) && Complete(t, a)
    requires a.scope != Process && (a.scope == Host ==> p.me.hostAddr == q.me.hostAddr)
    ensures Known(Vector(Repair.ReceiveAll(q, p.me.hostAddr, ms, now), k, t, p.me.pUuid), a.addr, a.nUuid)
  {
    var me, ip, host := p.me.pUuid, p.me.hostAddr, q.me.hostAddr;
    var answers := Step(p, Recv(host, Transmit(Sub(k, q.me.pUuid, t)), asked)).sent;
    var js := SubAnswered(p, host, k, q.me.pUuid, t, asked);
    SubAnswersRow(p, host, k, q.me.pUuid, t, asked, a);
    assert Adv(k, me, t, a) in ms;
    forall m | m in ms ensures Repair.Gossip(m, me) {
      var j :| 0 <= j < |answers| && answers[j] == m;
    }
    assert Repair.Shown(t, a, ip, host);
    Repair.ReceiveAllVec(q, ip, ms, now, k, t, me);
    Repair.PendingCovers(ms, me, k, t, ip, host, Vector(q, k, t, me), a.addr, a.nUuid);
  }

  // ---- Deliveries on the network ----

  lemma DeliveredStep(sys: Network.System, xs: seq<Network.Action>, q: string, pk: Network.Packet, now: int)
    requires Network.Start(sys) && q in sys.procs && pk in Network.Exec(sys, xs).net
    ensures pk.msg.pUuid in sys.procs && pk.fromIp == sys.procs[pk.msg.pUuid].me.hostAddr
    ensures var s := Network.Exec(sys, xs).procs[q];
            && Inv(s) && s.me == sys.procs[q].me && s.me.pUuid == q
            && Network.Exec(sys, xs + [Network.Deliver(q, pk, now)]).procs[q]
               == Step(s, Recv(pk.fromIp, Transmit(pk.msg), now)).next
  {
    Network.RunInvariant(sys, xs);
    Network.ExecNext(sys, xs, Network.Deliver(q, pk, now));
    assert Network.ProcOk(Network.Exec(sys, xs), xs, q);
    assert Network.PacketOk(Network.Exec(sys, xs), xs, pk);
  }

  // Whatever q has been through, an ADV of a complete row that is delivered to it is taken exactly if the scope
  // allows it: Process never, Host from a process with the same host address, others always.
  lemma AdvDelivered(sys: Network.System, xs: seq<Network.Action>, q: string, pk: Network.Packet, now: int)
    requires Network.Start(sys) && q in sys.procs && pk in Network.Exec(sys, xs).net
    requires pk.msg.Adv? && pk.msg.pUuid != q && pk.msg.pUuid != "" && Complete(pk.msg.topic, pk.msg.info)
    ensures pk.msg.pUuid in sys.procs
    ensures var m, xs' := pk.msg, xs + [Network.Deliver(q, pk, now)];
            Known(Vector(Network.Exec(sys, xs').procs[q], m.kind, m.topic, m.pUuid), m.info.addr, m.info.nUuid) <==>
            || Known(Vector(Network.Exec(sys, xs).procs[q], m.kind, m.topic, m.pUuid), m.info.addr, m.info.nUuid)
            || (m.info.scope != Process
                && (m.info.scope == Host ==> sys.procs[m.pUuid].me.hostAddr == sys.procs[q].me.hostAddr))
  {
    var m := pk.msg;
    DeliveredStep(sys, xs, q, pk, now);
    assert Transmit(m) == m;
    AdvTaken(Network.Exec(sys, xs).procs[q], pk.fromIp, m.kind, m.pUuid, m.topic, m.info, now);
  }

  lemma UnadvDelivered(sys: Network.System, xs: seq<Network.Action>, q: string, pk: Network.Packet, now: int,
                       b: Address)
    requires Network.Start(sys) && q in sys.procs && pk in Network.Exec(sys, xs).net
    requires pk.msg.Unadv? && pk.msg.pUuid != q && pk.msg.pUuid != "" && Complete(pk.msg.topic, pk.msg.info)
    ensures pk.msg.pUuid in sys.procs
    ensures var m, xs' := pk.msg, xs + [Network.Deliver(q, pk, now)];
            b in Vector(Network.Exec(sys, xs').procs[q], m.kind, m.topic, m.pUuid) <==>
            && b in Vector(Network.Exec(sys, xs).procs[q], m.kind, m.topic, m.pUuid)
            && !(b.nUuid == m.info.nUuid && m.info.scope != Process
                 && (m.info.scope == Host ==> sys.procs[m.pUuid].me.hostAddr == sys.procs[q].me.hostAddr))
  {
    var m := pk.msg;
    DeliveredStep(sys, xs, q, pk, now);
    assert Transmit(m) == m;
    UnadvTaken(Network.Exec(sys, xs).procs[q], pk.fromIp, m.kind, m.pUuid, m.topic, m.info, now, b);
  }

  // So a process that advertises is found by whoever gets its ADV and may see it.
  lemma AdvertisedIsFound(sys: Network.System, xs: seq<Network.Action>, p: string, q: string, k: Kind, t: string,
                          a: Address, now: int)
    requires Network.Start(sys) && p in sys.procs && q in sys.procs && p != q && p != "" && Complete(t, a)
    requires a.scope != Process && (a.scope == Host ==> sys.procs[p].me.hostAddr == sys.procs[q].me.hostAddr)
    ensures var pk := Network.Packet(sys.procs[p].me.hostAddr, Adv(k, p, t, a));
            var ys := xs + [Network.Act(p, DoAdvertise(k, t, a))] + [Network.Deliver(q, pk, now)];
            Known(Vector(Network.Exec(sys, ys).procs[q], k, t, p), a.addr, a.nUuid)
  {
    var pk := Network.Packet(sys.procs[p].me.hostAddr, Adv(k, p, t, a));
    var x := Network.Act(p, DoAdvertise(k, t, a));
    var s := Network.Exec(sys, xs).procs[p];
    Network.RunInvariant(sys, xs);
    assert Network.ProcOk(Network.Exec(sys, xs), xs, p);
    Network.ExecNext(sys, xs, x);
    AdvertiseSends(s, k, t, a);
    assert pk.msg in Step(s, DoAdvertise(k, t, a)).sent;
    assert pk in Network.OnAir(s, Step(s, DoAdvertise(k, t, a)).sent);
    AdvDelivered(sys, xs + [x], q, pk, now);
  }

  lemma RawExecNext(raw: B.RawSystem, ys: seq<B.RawAction>, y: B.RawAction)
    ensures B.RawExec(raw, ys + [y]) == B.RawPerform(B.RawExec(raw, ys), y)
  {
    assert (ys + [y])[..|ys|] == ys;
  }

  lemma RawProcess(raw: B.RawSystem, ys: seq<B.RawAction>, p: string)
    requires B.RawStart(raw) && B.SizedCalls(ys) && p in raw.procs
    ensures var s := B.RawExec(raw, ys).procs[p]; Inv(s) && s.me == raw.procs[p].me && s.me.pUuid == p
    ensures |p| + 13 < 0x8000_0000
  {
    var sys := Network.System(raw.procs, iset{});
    var xs := B.BytesRefineMessages(raw, ys);
    Network.RunInvariant(sys, xs);
  }

  // The datagram of the ADV is on the air.
  lemma RawAdvertised(raw: B.RawSystem, ys: seq<B.RawAction>, p: string, k: Kind, t: string, a: Address)
    requires B.RawStart(raw) && B.SizedCalls(ys) && p in raw.procs && a.scope != Process
    ensures var e := B.RawExec(raw, ys + [B.RawAct(p, DoAdvertise(k, t, a))]);
            && B.RawPacket(raw.procs[p].me.hostAddr, Datagram(Adv(k, p, t, a))) in e.air
            && forall q | q in raw.procs && q != p :: e.procs[q] == B.RawExec(raw, ys).procs[q]
  {
    var s, pk := B.RawExec(raw, ys).procs[p], Network.Packet(raw.procs[p].me.hostAddr, Adv(k, p, t, a));
    RawProcess(raw, ys, p);
    RawExecNext(raw, ys, B.RawAct(p, DoAdvertise(k, t, a)));
    AdvertiseSends(s, k, t, a);
    assert pk in Network.OnAir(s, Step(s, DoAdvertise(k, t, a)).sent);
    assert B.Raw(pk) in B.RawOnAir(s, Step(s, DoAdvertise(k, t, a)).sent);
  }

  // The same with the datagram itself, whatever the receive buffer holds behind it.
  lemma AdvertisedIsFoundOnTheWire(raw: B.RawSystem, ys: seq<B.RawAction>, p: string, q: string, k: Kind, t: string,
                                   a: Address, junk: string, now: int)
    requires B.RawStart(raw) && B.SizedCalls(ys) && B.SizedRow(t, a)
    requires p in raw.procs && q in raw.procs && p != q && p != "" && Complete(t, a)
    requires a.scope != Process && (a.scope == Host ==> raw.procs[p].me.hostAddr == raw.procs[q].me.hostAddr)
    ensures var pk := B.RawPacket(raw.procs[p].me.hostAddr, Datagram(Adv(k, p, t, a)));
            var zs := ys + [B.RawAct(p, DoAdvertise(k, t, a))] + [B.RawDeliver(q, pk, junk, now)];
            Known(Vector(B.RawExec(raw, zs).procs[q], k, t, p), a.addr, a.nUuid)
  {
    var m, host := Adv(k, p, t, a), raw.procs[p].me.hostAddr;
    var y := B.RawAct(p, DoAdvertise(k, t, a));
    RawProcess(raw, ys, p);
    RawProcess(raw, ys, q);
    RawAdvertised(raw, ys, p, k, t, a);
    ParseDatagram(m, junk);
    RawExecNext(raw, ys + [y], B.RawDeliver(q, B.RawPacket(host, Datagram(m)), junk, now));
    AdvTaken(B.RawExec(raw, ys).procs[q], host, k, p, t, a, now);
  }
}
