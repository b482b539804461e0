// Discovery and service calls in one process: NodeShared registers OnNewSrvConnection as discovery's
// connection callback for services, so what discovery learns decides when a pending request is sent.
module Matching {
  import opened Types
  import opened TopicTable
  import HS = HandlerStorage
  import opened Requests
  import Ordering
  import P = Protocol

  datatype Both = Both(disc: P.State, pending: Pending)

  // A discovery step; a request no replier in the process can answer; a response to a request.
  datatype Move = Disc(i: P.Input) | Ask(key: HS.Key, data: string) | Answered(key: HS.Key)

  // SendPendingRemoteReqs: whatever waits on the topic is sent if a responder is known.
  ghost function SendKnown(t: Pending, d: Table, topic: string): Pending {
    if topic in d then MarkSent(t, topic) else t
  }

  // OnNewSrvConnection, once for each callback a discovery step executes, on the table it left.
  ghost function Callbacks(t: Pending, d: Table, events: seq<P.Event>): Pending {
    if events == [] then t
    else if events[0].Connected? && events[0].kind == Srv
    then Callbacks(SendKnown(t, d, events[0].topic), d, events[1..])
    else Callbacks(t, d, events[1..])
  }

  ghost function Do(b: Both, x: Move): Both {
    match x
    case Disc(i) =>
      var o := P.Step(b.disc, i);
      Both(o.next, Callbacks(b.pending, o.next.infoSrv, o.events))
    case Ask(k, data) => b.(pending := SendKnown(b.pending[k := Handler(data, false)], b.disc.infoSrv, k.topic))
    case Answered(k) => b.(pending := b.pending - {k})
  }

  ghost function After(b: Both, xs: seq<Move>): Both
    decreases |xs|
  {
    if xs == [] then b else Do(After(b, xs[..|xs| - 1]), xs[|xs| - 1])
  }

  ghost predicate Start(b: Both) {
    P.Fresh(b.disc) && b.disc.me.cbs.connectionSrv && b.pending == imap[]
  }

  ghost predicate Waits(t: Pending, k: HS.Key) {
    k in t && !t[k].requested
  }

  // Another process is known to serve the topic.
  ghost predicate Elsewhere(s: P.State, topic: string) {
    exists p :: p != s.me.pUuid && P.Vector(s, Srv, topic, p) != []
  }

  ghost predicate Inv(b: Both) {
    P.Inv(b.disc) && b.disc.me.cbs.connectionSrv
    && forall k | Waits(b.pending, k) :: !Elsewhere(b.disc, k.topic)
  }

  // Callbacks send, and never take back.
  lemma {:induction false} CallbacksOnlySend(t: Pending, d: Table, events: seq<P.Event>, k: HS.Key)
    requires Waits(Callbacks(t, d, events), k)
    ensures Waits(t, k)
    ensures forall e | e in events && e.Connected? && e.kind == Srv && e.topic in d :: e.topic != k.topic
    decreases |events|
  {
    if events != [] {
      var e := events[0];
      if e.Connected? && e.kind == Srv {
        CallbacksOnlySend(SendKnown(t, d, e.topic), d, events[1..], k);
      } else {
        CallbacksOnlySend(t, d, events[1..], k);
      }
      assert forall x :: x in events <==> x == e || x in events[1..];
    }
  }

  // The first row of another process comes with a callback.
  lemma NewResponderCalls(s: P.State, i: P.Input, topic: string, p: string)
    requires P.Inv(s) && s.me.cbs.connectionSrv && p != s.me.pUuid
    requires P.Vector(s, Srv, topic, p) == [] && P.Vector(P.Step(s, i).next, Srv, topic, p) != []
    ensures topic in P.Step(s, i).next.infoSrv
    ensures exists e :: e in P.Step(s, i).events && e.Connected? && e.kind == Srv && e.topic == topic
  {
    var o := P.Step(s, i);
    match i
    case DoAdvertise(_, _, _) => P.LocalVec(s, i);
    case DoUnadvertise(_, _, _) => P.LocalVec(s, i);
    case DoActivity(now) => PassAddsNothing(s, now, topic, p);
    case Recv(ip, m, now) =>
      P.ReceiveVec(s, ip, m, now);
      assert o.events == [P.Connected(Srv, topic, p, m.info)];
      assert o.events[0] in o.events;
    case _ =>
  }

  lemma PassAddsNothing(s: P.State, now: int, topic: string, p: string)
    requires P.Inv(s) && P.Vector(s, Srv, topic, p) == []
    ensures P.Vector(P.Activity(s, now).next, Srv, topic, p) == []
  {
    var ps := Ordering.Keys(s.activity.Keys);
    if s.me.cbs.disconnection {
      P.ActivityOverMeaning(s, ps, now);
    } else {
      P.ActivityOverThrows(s, ps, now);
    }
  }

  lemma DiscKeeps(b: Both, i: P.Input)
    requires Inv(b)
    ensures Inv(Do(b, Disc(i)))
  {
    var o := P.Step(b.disc, i);
    P.StepKeepsInv(b.disc, i);
    forall k | Waits(Callbacks(b.pending, o.next.infoSrv, o.events), k) ensures !Elsewhere(o.next, k.topic) {
      CallbacksOnlySend(b.pending, o.next.infoSrv, o.events, k);
      forall p | p != o.next.me.pUuid ensures P.Vector(o.next, Srv, k.topic, p) == [] {
        assert P.Vector(b.disc, Srv, k.topic, p) == [];
        if P.Vector(o.next, Srv, k.topic, p) != [] {
          NewResponderCalls(b.disc, i, k.topic, p);
        }
      }
    }
  }

  lemma AskKeeps(b: Both, key: HS.Key, data: string)
    requires Inv(b)
    ensures Inv(Do(b, Ask(key, data)))
  {
    var b' := Do(b, Ask(key, data));
    forall k | Waits(b'.pending, k) ensures !Elsewhere(b'.disc, k.topic) {
      if k != key {
        assert Waits(b.pending, k);
      }
    }
  }

  lemma {:induction false} RunKeeps(b: Both, xs: seq<Move>)
    requires Start(b)
    ensures Inv(After(b, xs))
    decreases |xs|
  {
    if xs == [] {
      P.FreshInv(b.disc);
    } else {
      var c, x := After(b, xs[..|xs| - 1]), xs[|xs| - 1];
      RunKeeps(b, xs[..|xs| - 1]);
      match x
      case Disc(i) => DiscKeeps(c, i);
      case Ask(k, data) => AskKeeps(c, k, data);
      case Answered(k) =>
        assert forall j | Waits(c.pending - {k}, j) :: Waits(c.pending, j);
    }
  }

  // In every run, whatever is received and called in whatever order, no request waits while discovery
  // knows a responder in another process.
  lemma NoRequestWaits(b: Both, xs: seq<Move>, k: HS.Key, p: string)
    requires Start(b) && Waits(After(b, xs).pending, k) && p != b.disc.me.pUuid
    ensures P.Vector(After(b, xs).disc, Srv, k.topic, p) == []
  {
    RunKeeps(b, xs);
    MeStays(b, xs);
    assert !Elsewhere(After(b, xs).disc, k.topic);
  }

  lemma {:induction false} MeStays(b: Both, xs: seq<Move>)
    requires Start(b)
    ensures After(b, xs).disc.me == b.disc.me
    decreases |xs|
  {
    if xs != [] {
      var c, x := After(b, xs[..|xs| - 1]), xs[|xs| - 1];
      MeStays(b, xs[..|xs| - 1]);
      RunKeeps(b, xs[..|xs| - 1]);
      if x.Disc? {
        P.StepKeepsInv(c.disc, x.i);
      }
    }
  }

  // So a request waits although discovery knows a responder exactly if that responder lives in the
  // process itself: Advertise executes no callback, and what was asked for before is not sent.
  lemma WaitsForOwnService(b: Both, xs: seq<Move>, k: HS.Key)
    requires Start(b) && Waits(After(b, xs).pending, k)
    ensures k.topic in After(b, xs).disc.infoSrv <==> P.Vector(After(b, xs).disc, Srv, k.topic, b.disc.me.pUuid) != []
  {
    RunKeeps(b, xs);
    MeStays(b, xs);
    var s := After(b, xs).disc;
    assert !Elsewhere(s, k.topic);
    if k.topic in s.infoSrv {
      assert s.infoSrv[k.topic] != map[];
      var p :| p in s.infoSrv[k.topic];
      assert P.Vector(s, Srv, k.topic, p) != [];
    }
  }

  // It happens: ask first, advertise the service in the same process afterwards.
  lemma OwnServiceStrands(b: Both, k: HS.Key, data: string, a: Address)
    requires Start(b)
    ensures var e := After(b, [Ask(k, data), Disc(P.DoAdvertise(Srv, k.topic, a))]);
            Waits(e.pending, k) && k.topic in e.disc.infoSrv
  {
    var xs := [Ask(k, data), Disc(P.DoAdvertise(Srv, k.topic, a))];
    var first := [Ask(k, data)];
    assert xs[..|xs| - 1] == first && first[..|first| - 1] == [];
    var c := Do(b, Ask(k, data));
    assert After(b, first) == Do(After(b, []), Ask(k, data));
    var i := P.DoAdvertise(Srv, k.topic, a);
    var own := P.Vector(b.disc, Srv, k.topic, b.disc.me.pUuid);
    assert own == [] && !Known(own, a.addr, a.nUuid);
    P.FreshInv(b.disc);
    P.LocalVec(b.disc, i);
    assert P.OwnEffect(i, Srv, k.topic, own) == own + [a];
    var e := Do(c, xs[1]);
    assert e.pending == c.pending;
    assert P.Vector(e.disc, Srv, k.topic, b.disc.me.pUuid) == [a];
  }
}
