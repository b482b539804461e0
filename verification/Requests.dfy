// Service calls between processes: what NodeShared keeps about pending requests, and whole runs of
// many processes over a network that may lose, duplicate, reorder and misroute what is sent.
module Requests {
  import opened Types
  import Ordering
  import opened HandlerStorage

  // A request handler as the network sees it: the serialised request and the flag `requested`.
  datatype Handler = Handler(data: string, requested: bool)

  // The handlers of a process by topic, node and handler UUID.
  type Pending = imap<Key, Handler>

  // The frames of a request (src/NodeShared.cc:584-619) and of a response (src/NodeShared.cc:438-461).
  datatype ReqMsg = ReqMsg(dst: string, topic: string, sender: string, replyTo: string, node: string, req: string,
                           data: string)
  datatype RepMsg = RepMsg(dst: string, topic: string, node: string, req: string, rep: string, result: string)

  // What RecvSrvResponse hands to a request handler.
  datatype Note = Note(proc: string, key: Key, rep: string, result: bool)

  // One run of a replier's callback.
  datatype Call = Call(replier: Key, data: string, rep: string, result: bool)

  function KeyOfReq(m: ReqMsg): Key {
    Key(m.topic, m.node, m.req)
  }

  function KeyOfRep(m: RepMsg): Key {
    Key(m.topic, m.node, m.req)
  }

  function ResultText(result: bool): string {
    if result then "1" else "0"
  }

  // ---- One process ----

  ghost predicate Unsent(t: Pending, topic: string, k: Key) {
    k in t && k.topic == topic && !t[k].requested
  }

  ghost predicate Ordered(ks: seq<Key>) {
    forall i, j | 0 <= i < j < |ks| :: Before(ks[i], ks[j])
  }

  // ks lists the requests of a topic not sent yet, in the order the nested loops meet them.
  ghost predicate IsBatch(t: Pending, topic: string, ks: seq<Key>) {
    Ordered(ks) && forall k :: k in ks <==> Unsent(t, topic, k)
  }

  ghost function MarkSent(t: Pending, topic: string): Pending {
    imap k: Key | k in t :: if k.topic == topic then t[k].(requested := true) else t[k]
  }

  ghost function ReqFor(t: Pending, k: Key, to: Address, sender: string, replyTo: string): ReqMsg
    requires k in t
  {
    ReqMsg(to.ctrl, k.topic, sender, replyTo, k.node, k.handler, t[k].data)
  }

  ghost function ReqsFor(t: Pending, ks: seq<Key>, to: Address, sender: string, replyTo: string): seq<ReqMsg>
    requires forall k | k in ks :: k in t
  {
    seq(|ks|, i requires 0 <= i < |ks| => ReqFor(t, ks[i], to, sender, replyTo))
  }

  ghost function Answer(m: ReqMsg, rep: string, result: bool): RepMsg {
    RepMsg(m.replyTo, m.topic, m.node, m.req, rep, ResultText(result))
  }

  // ---- The world ----

  // addr: where this process sends requests from; id: where it takes responses.
  datatype Proc = Proc(addr: string, id: string, pending: Pending, repliers: iset<Key>)

  datatype Origin = Origin(proc: string, data: string)

  // reqs and reps are all messages ever handed to a socket; a delivery picks any of them, any number of
  // times, at any process.  A request for a process the sender has no connection to (its own, say) is
  // refused by the socket, which here is a loss like any other.  created, notes and calls are history:
  // every handler ever created, every notification, every run of a callback.
  datatype World = World(procs: map<string, Proc>, reqs: seq<ReqMsg>, reps: seq<RepMsg>,
                         created: map<Key, Origin>, notes: seq<Note>, calls: seq<Call>)

  // to: the first known responder of the topic, if discovery has one; ks: the batch then sent.
  datatype Action =
    | Request(p: string, key: Key, data: string, to: Option<Address>, ks: seq<Key>)
    | SrvConnection(p: string, topic: string, to: Option<Address>, ks: seq<Key>)
    | RecvRequest(p: string, reqAt: nat, replier: Key, rep: string, result: bool)
    | RecvResponse(p: string, repAt: nat)
    | AddReplier(p: string, replier: Key)
    | RemoveRepliers(p: string, topic: string, node: string)

  // Uuid() gives values never seen before.
  predicate FreshUuid(w: World, h: string) {
    forall k | k in w.created :: k.handler != h
  }

  ghost function SetPending(w: World, p: string, t: Pending): World
    requires p in w.procs
  {
    w.(procs := w.procs[p := w.procs[p].(pending := t)])
  }

  ghost function SendPending(w: World, p: string, topic: string, to: Option<Address>, ks: seq<Key>): World
    requires p in w.procs
  {
    var t := w.procs[p].pending;
    if to.None? || !IsBatch(t, topic, ks) then w
    else
      SetPending(w, p, MarkSent(t, topic))
      .(reqs := w.reqs + ReqsFor(t, ks, to.value, w.procs[p].addr, w.procs[p].id))
  }

  ghost function Create(w: World, p: string, key: Key, data: string): World
    requires p in w.procs
  {
    SetPending(w, p, w.procs[p].pending[key := Handler(data, false)]).(created := w.created[key := Origin(p, data)])
  }

  ghost predicate HasReplier(repliers: iset<Key>, topic: string) {
    exists k :: k in repliers && k.topic == topic
  }

  function NoteOf(p: string, m: RepMsg): Note {
    Note(p, KeyOfRep(m), m.rep, m.result == "1")
  }

  ghost function Notify(w: World, p: string, m: RepMsg): World
    requires p in w.procs
  {
    var k := KeyOfRep(m);
    if k !in w.procs[p].pending then w
    else SetPending(w, p, w.procs[p].pending - {k}).(notes := w.notes + [NoteOf(p, m)])
  }

  ghost function Serve(w: World, m: ReqMsg, replier: Key, rep: string, result: bool): World {
    w.(calls := w.calls + [Call(replier, m.data, rep, result)], reps := w.reps + [Answer(m, rep, result)])
  }

  ghost function SetRepliers(w: World, p: string, rs: iset<Key>): World
    requires p in w.procs
  {
    w.(procs := w.procs[p := w.procs[p].(repliers := rs)])
  }

  // A request is answered on the spot, without a handler, if a replier of its topic lives in the
  // process; a request nobody here can serve is ignored.
  ghost function Step(w: World, a: Action): World {
    if a.p !in w.procs then w else
      match a
      case Request(p, key, data, to, ks) =>
        if HasReplier(w.procs[p].repliers, key.topic) || !FreshUuid(w, key.handler) then w
        else SendPending(Create(w, p, key, data), p, key.topic, to, ks)
      case SrvConnection(p, topic, to, ks) => SendPending(w, p, topic, to, ks)
      case RecvRequest(p, i, replier, rep, result) =>
        if i >= |w.reqs| || replier !in w.procs[p].repliers || replier.topic != w.reqs[i].topic then w
        else Serve(w, w.reqs[i], replier, rep, result)
      case RecvResponse(p, j) => if j >= |w.reps| then w else Notify(w, p, w.reps[j])
      case AddReplier(p, k) => SetRepliers(w, p, w.procs[p].repliers + iset{k})
      case RemoveRepliers(p, topic, node) =>
        SetRepliers(w, p, iset k | k in w.procs[p].repliers && !(k.topic == topic && k.node == node))
  }

  ghost function Exec(w: World, run: seq<Action>): World
    decreases |run|
  {
    if run == [] then w else Step(Exec(w, run[..|run| - 1]), run[|run| - 1])
  }

  ghost predicate Start(w: World) {
    && w.reqs == [] && w.reps == [] && w.created == map[] && w.notes == [] && w.calls == []
    && forall p | p in w.procs :: w.procs[p].pending == imap[]
  }

  // ---- The life of a handler ----

  ghost predicate Lives(w: World, k: Key) {
    k in w.created && w.created[k].proc in w.procs && k in w.procs[w.created[k].proc].pending
  }

  ghost function SentKeys(ms: seq<ReqMsg>): set<Key> {
    set m | m in ms :: KeyOfReq(m)
  }

  ghost function NotedKeys(ns: seq<Note>): set<Key> {
    set n | n in ns :: n.key
  }

  ghost predicate SentOnce(ms: seq<ReqMsg>) {
    forall i, j | 0 <= i < j < |ms| :: KeyOfReq(ms[i]) != KeyOfReq(ms[j])
  }

  ghost predicate NotedOnce(ns: seq<Note>) {
    forall i, j | 0 <= i < j < |ns| :: ns[i].key != ns[j].key
  }

  // ---- The invariant ----

  // A pending handler was created in its process with its data, has not been notified, and is marked
  // as requested exactly when a request for it went out.
  ghost predicate PendingOk(w: World, p: string, k: Key)
    requires p in w.procs && k in w.procs[p].pending
  {
    var h := w.procs[p].pending[k];
    && k in w.created && w.created[k] == Origin(p, h.data)
    && k !in NotedKeys(w.notes)
    && (h.requested <==> k in SentKeys(w.reqs))
  }

  // A handler that is gone was sent and notified.
  ghost predicate CreatedOk(w: World, k: Key) {
    Lives(w, k) || (k in NotedKeys(w.notes) && k in SentKeys(w.reqs))
  }

  ghost predicate ReqOk(w: World, m: ReqMsg) {
    KeyOfReq(m) in w.created && w.created[KeyOfReq(m)].data == m.data
  }

  // c is a run of a callback for this very request that gave this answer.
  predicate Answers(c: Call, topic: string, data: string, rep: string, result: bool) {
    c.replier.topic == topic && c.data == data && c.rep == rep && c.result == result
  }

  ghost predicate Served(w: World, k: Key, rep: string, result: bool) {
    k in w.created && exists c :: c in w.calls && Answers(c, k.topic, w.created[k].data, rep, result)
  }

  ghost predicate RepOk(w: World, m: RepMsg) {
    KeyOfRep(m) in SentKeys(w.reqs) && Served(w, KeyOfRep(m), m.rep, m.result == "1")
  }

  ghost predicate NoteOk(w: World, n: Note) {
    Served(w, n.key, n.rep, n.result) && w.created[n.key].proc == n.proc
  }

  ghost predicate AllPending(w: World) {
    forall p, k | p in w.procs && k in w.procs[p].pending :: PendingOk(w, p, k)
  }

  ghost predicate Inv(w: World) {
    && AllPending(w)
    && (forall k | k in w.created :: CreatedOk(w, k))
    && (forall m | m in w.reqs :: ReqOk(w, m))
    && (forall m | m in w.reps :: RepOk(w, m))
    && (forall n | n in w.notes :: NoteOk(w, n))
    && SentOnce(w.reqs) && NotedOnce(w.notes)
  }

  lemma StartInv(w: World)
    requires Start(w)
    ensures Inv(w)
  {
  }

  // Nothing was ever sent or notified under a key that does not exist yet.
  lemma NothingYet(w: World, k: Key)
    requires Inv(w) && k !in w.created
    ensures k !in SentKeys(w.reqs) && k !in NotedKeys(w.notes)
    ensures forall p | p in w.procs :: k !in w.procs[p].pending
  {
  }

  lemma ServedStays(w: World, w': World, k: Key, rep: string, result: bool)
    requires Served(w, k, rep, result)
    requires k in w'.created && w'.created[k] == w.created[k]
    requires forall c | c in w.calls :: c in w'.calls
    ensures Served(w', k, rep, result)
  {
  }

  // History only grows, so what is known about messages and notifications stays true.
  lemma HistoryStays(w: World, w': World)
    requires Inv(w)
    requires forall k | k in w.created :: k in w'.created && w'.created[k] == w.created[k]
    requires (forall m | m in w.reqs :: m in w'.reqs) && (forall c | c in w.calls :: c in w'.calls)
    ensures forall m | m in w.reqs :: ReqOk(w', m)
    ensures forall m | m in w.reps :: RepOk(w', m)
    ensures forall n | n in w.notes :: NoteOk(w', n)
  {
  }

  // Nor does anything about the handlers change if neither they nor what was sent and noted does.
  lemma HandlersStay(w: World, w': World)
    requires Inv(w) && w'.created == w.created && w'.reqs == w.reqs && w'.notes == w.notes
    requires w'.procs.Keys == w.procs.Keys && forall p | p in w.procs :: w'.procs[p].pending == w.procs[p].pending
    ensures AllPending(w') && forall k | k in w'.created :: CreatedOk(w', k)
  {
  }

  lemma CreateInv(w: World, p: string, key: Key, data: string)
    requires Inv(w) && p in w.procs && FreshUuid(w, key.handler)
    ensures Inv(Create(w, p, key, data))
  {
    var w' := Create(w, p, key, data);
    NothingYet(w, key);
    HistoryStays(w, w');
    forall q, k | q in w'.procs && k in w'.procs[q].pending ensures PendingOk(w', q, k) {
      if k != key {
        assert PendingOk(w, q, k);
      }
    }
    forall k | k in w'.created ensures CreatedOk(w', k) {
      if k != key {
        assert CreatedOk(w, k);
      }
    }
  }

  lemma BatchSent(t: Pending, topic: string, ks: seq<Key>, to: Address, sender: string, replyTo: string,
                  ms: seq<ReqMsg>)
    requires IsBatch(t, topic, ks) && SentOnce(ms)
    requires forall k | k in ks :: k !in SentKeys(ms)
    ensures var ms' := ms + ReqsFor(t, ks, to, sender, replyTo);
            && SentOnce(ms')
            && (forall k :: k in SentKeys(ms') <==> k in SentKeys(ms) || Unsent(t, topic, k))
            && (forall m | m in ms' :: m in ms || (Unsent(t, topic, KeyOfReq(m)) && m.data == t[KeyOfReq(m)].data))
  {
    var more := ReqsFor(t, ks, to, sender, replyTo);
    var ms' := ms + more;
    assert forall i | 0 <= i < |ks| :: KeyOfReq(more[i]) == ks[i] && ks[i] in ks;
    OrderedDistinct(ks);
    forall i, j | 0 <= i < j < |ms'| ensures KeyOfReq(ms'[i]) != KeyOfReq(ms'[j]) {
      if i < |ms| <= j {
        assert ms[i] in ms;
      }
    }
    forall k ensures k in SentKeys(ms') <==> k in SentKeys(ms) || Unsent(t, topic, k) {
      if Unsent(t, topic, k) {
        var i :| 0 <= i < |ks| && ks[i] == k;
        assert more[i] in ms';
      }
    }
  }

  lemma OrderedDistinct(ks: seq<Key>)
    requires Ordered(ks)
    ensures forall i, j | 0 <= i < j < |ks| :: ks[i] != ks[j]
  {
    forall i, j | 0 <= i < j < |ks| ensures ks[i] != ks[j] {
      Ordering.LessTrichotomy(ks[i].node, ks[i].node);
      Ordering.LessTrichotomy(ks[i].handler, ks[i].handler);
    }
  }

  lemma BatchIsFresh(w: World, p: string, topic: string, ks: seq<Key>)
    requires Inv(w) && p in w.procs && IsBatch(w.procs[p].pending, topic, ks)
    ensures forall k | k in ks :: k !in SentKeys(w.reqs)
  {
    forall k | k in ks ensures k !in SentKeys(w.reqs) {
      assert PendingOk(w, p, k);
    }
  }

  lemma SendInv(w: World, p: string, topic: string, to: Option<Address>, ks: seq<Key>)
    requires Inv(w) && p in w.procs
    ensures Inv(SendPending(w, p, topic, to, ks))
  {
    var t := w.procs[p].pending;
    if to.Some? && IsBatch(t, topic, ks) {
      var w' := SendPending(w, p, topic, to, ks);
      BatchIsFresh(w, p, topic, ks);
      BatchSent(t, topic, ks, to.value, w.procs[p].addr, w.procs[p].id, w.reqs);
      HistoryStays(w, w');
      BatchPendingOk(w, w', p, topic, to.value, ks);
      BatchCreatedOk(w, w', p, topic, to.value, ks);
      BatchReqsOk(w, w', p, topic, to.value, ks);
    }
  }

  lemma BatchPendingOk(w: World, w': World, p: string, topic: string, to: Address, ks: seq<Key>)
    requires Inv(w) && p in w.procs && IsBatch(w.procs[p].pending, topic, ks)
    requires w' == SendPending(w, p, topic, Some(to), ks)
    ensures forall q, k | q in w'.procs && k in w'.procs[q].pending :: PendingOk(w', q, k)
  {
    BatchIsFresh(w, p, topic, ks);
    BatchSent(w.procs[p].pending, topic, ks, to, w.procs[p].addr, w.procs[p].id, w.reqs);
    forall q, k | q in w'.procs && k in w'.procs[q].pending ensures PendingOk(w', q, k) {
      assert PendingOk(w, q, k);
      assert Unsent(w.procs[p].pending, topic, k) ==> PendingOk(w, p, k);
    }
  }

  lemma BatchCreatedOk(w: World, w': World, p: string, topic: string, to: Address, ks: seq<Key>)
    requires Inv(w) && p in w.procs && IsBatch(w.procs[p].pending, topic, ks)
    requires w' == SendPending(w, p, topic, Some(to), ks)
    ensures forall k | k in w'.created :: CreatedOk(w', k)
  {
    BatchIsFresh(w, p, topic, ks);
    BatchSent(w.procs[p].pending, topic, ks, to, w.procs[p].addr, w.procs[p].id, w.reqs);
    forall k | k in w'.created ensures CreatedOk(w', k) {
      assert CreatedOk(w, k);
    }
  }

  lemma BatchReqsOk(w: World, w': World, p: string, topic: string, to: Address, ks: seq<Key>)
    requires Inv(w) && p in w.procs && IsBatch(w.procs[p].pending, topic, ks)
    requires w' == SendPending(w, p, topic, Some(to), ks)
    ensures forall m | m in w'.reqs && m !in w.reqs :: ReqOk(w', m)
  {
    BatchIsFresh(w, p, topic, ks);
    BatchSent(w.procs[p].pending, topic, ks, to, w.procs[p].addr, w.procs[p].id, w.reqs);
    forall m | m in w'.reqs && m !in w.reqs ensures ReqOk(w', m) {
      assert PendingOk(w, p, KeyOfReq(m));
    }
  }

  lemma NotifyInv(w: World, p: string, m: RepMsg)
    requires Inv(w) && p in w.procs && m in w.reps
    ensures Inv(Notify(w, p, m))
  {
    var k0 := KeyOfRep(m);
    if k0 in w.procs[p].pending {
      var w' := Notify(w, p, m);
      var n0 := Note(p, k0, m.rep, m.result == "1");
      assert PendingOk(w, p, k0) && RepOk(w, m);
      NotedMore(w.notes, n0);
      HistoryStays(w, w');
      ServedStays(w, w', k0, m.rep, m.result == "1");
      forall q, k | q in w'.procs && k in w'.procs[q].pending ensures PendingOk(w', q, k) {
        assert PendingOk(w, q, k);
      }
      forall k | k in w'.created ensures CreatedOk(w', k) {
        assert CreatedOk(w, k);
      }
    }
  }

  lemma NotedMore(ns: seq<Note>, n: Note)
    requires NotedOnce(ns) && n.key !in NotedKeys(ns)
    ensures NotedOnce(ns + [n]) && NotedKeys(ns + [n]) == NotedKeys(ns) + {n.key}
  {
  }

  lemma ServeInv(w: World, m0: ReqMsg, replier: Key, rep: string, result: bool)
    requires Inv(w) && m0 in w.reqs && replier.topic == m0.topic
    ensures Inv(Serve(w, m0, replier, rep, result))
  {
    var w' := Serve(w, m0, replier, rep, result);
    HistoryStays(w, w');
    HandlersStay(w, w');
    forall m | m in w'.reps && m !in w.reps ensures RepOk(w', m) {
      assert ReqOk(w, m0) && KeyOfRep(m) == KeyOfReq(m0);
      var c := Call(replier, m0.data, rep, result);
      assert c in w'.calls && Answers(c, m.topic, m0.data, m.rep, m.result == "1");
    }
  }

  lemma RepliersInv(w: World, p: string, rs: iset<Key>)
    requires Inv(w) && p in w.procs
    ensures Inv(SetRepliers(w, p, rs))
  {
    HistoryStays(w, SetRepliers(w, p, rs));
    HandlersStay(w, SetRepliers(w, p, rs));
  }

  lemma StepInv(w: World, a: Action)
    requires Inv(w)
    ensures Inv(Step(w, a))
  {
    if a.p in w.procs {
      match a
      case Request(p, key, data, to, ks) =>
        if FreshUuid(w, key.handler) {
          CreateInv(w, p, key, data);
          SendInv(Create(w, p, key, data), p, key.topic, to, ks);
        }
      case SrvConnection(p, topic, to, ks) => SendInv(w, p, topic, to, ks);
      case RecvRequest(p, i, replier, rep, result) =>
        if i < |w.reqs| && replier.topic == w.reqs[i].topic {
          ServeInv(w, w.reqs[i], replier, rep, result);
        }
      case RecvResponse(p, j) =>
        if j < |w.reps| {
          NotifyInv(w, p, w.reps[j]);
        }
      case AddReplier(p, k) => RepliersInv(w, p, w.procs[p].repliers + iset{k});
      case RemoveRepliers(p, topic, node) =>
        RepliersInv(w, p, iset k | k in w.procs[p].repliers && !(k.topic == topic && k.node == node));
    }
  }

  lemma {:induction false} RunInv(w: World, run: seq<Action>)
    requires Start(w)
    ensures Inv(Exec(w, run))
    decreases |run|
  {
    if run == [] {
      StartInv(w);
    } else {
      RunInv(w, run[..|run| - 1]);
      StepInv(Exec(w, run[..|run| - 1]), run[|run| - 1]);
    }
  }

  // ---- What holds of every run ----

  // Handlers come from requests, and keep the data they came with.
  lemma {:induction false} CreatedByRequest(w: World, run: seq<Action>, k: Key)
    requires Start(w) && k in Exec(w, run).created
    ensures exists a :: a in run && a.Request? && a.p == Exec(w, run).created[k].proc && a.key == k
                        && a.data == Exec(w, run).created[k].data
    decreases |run|
  {
    if run != [] {
      var before, a := run[..|run| - 1], run[|run| - 1];
      var w0 := Exec(w, before);
      if k in w0.created {
        CreatedByRequest(w, before, k);
        assert Exec(w, run).created[k] == w0.created[k];
        var b :| b in before && b.Request? && b.p == w0.created[k].proc && b.key == k && b.data == w0.created[k].data;
        assert b in run;
      } else {
        assert a in run && a.Request? && a.key == k;
      }
    }
  }

  // The call to Request a notification answers.
  predicate IsRequestOf(a: Action, n: Note) {
    a.Request? && a.p == n.proc && a.key == n.key
  }

  // Correlation end to end: what a handler is told is what a callback registered for the handler's
  // own topic gave for the handler's own request.
  lemma Correlation(w: World, run: seq<Action>, n: Note) returns (a: Action, c: Call)
    requires Start(w) && n in Exec(w, run).notes
    ensures a in run && IsRequestOf(a, n)
    ensures c in Exec(w, run).calls && Answers(c, n.key.topic, a.data, n.rep, n.result)
  {
    RunInv(w, run);
    var v := Exec(w, run);
    assert NoteOk(v, n);
    CreatedByRequest(w, run, n.key);
    a :| a in run && a.Request? && a.p == v.created[n.key].proc && a.key == n.key && a.data == v.created[n.key].data;
    c :| c in v.calls && Answers(c, n.key.topic, v.created[n.key].data, n.rep, n.result);
  }

  // With callbacks that compute a function, the answer is that function of the request.
  lemma CorrelationFunction(w: World, run: seq<Action>, n: Note, serve: (string, string) -> (string, bool))
    returns (a: Action)
    requires Start(w) && n in Exec(w, run).notes
    requires forall c | c in Exec(w, run).calls :: (c.rep, c.result) == serve(c.replier.topic, c.data)
    ensures a in run && IsRequestOf(a, n) && (n.rep, n.result) == serve(n.key.topic, a.data)
  {
    var c: Call;
    a, c := Correlation(w, run, n);
  }

  // However often a responder shows up and a response arrives, no request is sent twice and no
  // handler is notified twice, and only a request that was sent is ever answered.
  lemma AtMostOnce(w: World, run: seq<Action>)
    requires Start(w)
    ensures SentOnce(Exec(w, run).reqs) && NotedOnce(Exec(w, run).notes)
    ensures NotedKeys(Exec(w, run).notes) <= SentKeys(Exec(w, run).reqs) <= Exec(w, run).created.Keys
  {
    RunInv(w, run);
    var v := Exec(w, run);
    forall n | n in v.notes ensures n.key in SentKeys(v.reqs) {
      assert NoteOk(v, n);
      NotedIsGone(v, n);
    }
    forall m | m in v.reqs ensures KeyOfReq(m) in v.created {
      assert ReqOk(v, m);
    }
  }

  lemma NotedIsGone(w: World, n: Note)
    requires Inv(w) && n in w.notes
    ensures n.key in w.created && !Lives(w, n.key) && n.key in SentKeys(w.reqs)
  {
  }

  datatype Stage = UnsentPending | SentPending | Completed

  // Where a handler is, read off the pending tables alone.
  ghost function StageOf(w: World, k: Key): Stage {
    if !Lives(w, k) then Completed
    else if w.procs[w.created[k].proc].pending[k].requested then SentPending else UnsentPending
  }

  ghost function InStage(w: World, s: Stage): set<Key> {
    set k | k in w.created && StageOf(w, k) == s
  }

  // Every handler ever created is in exactly one stage, and what was sent and notified tells which:
  // the requests on the network are those of the sent and completed handlers, the notifications
  // those of the completed ones, one each.
  lemma Conservation(w: World, run: seq<Action>)
    requires Start(w)
    ensures var v := Exec(w, run);
            && |v.created| == |InStage(v, UnsentPending)| + |InStage(v, SentPending)| + |InStage(v, Completed)|
            && SentKeys(v.reqs) == InStage(v, SentPending) + InStage(v, Completed)
            && |v.reqs| == |InStage(v, SentPending)| + |InStage(v, Completed)|
            && NotedKeys(v.notes) == InStage(v, Completed)
            && |v.notes| == |InStage(v, Completed)|
  {
    RunInv(w, run);
    AtMostOnce(w, run);
    var v := Exec(w, run);
    StagesAreSets(v);
    SentCount(v.reqs);
    NotedCount(v.notes);
    StagesSplit(v);
  }

  lemma Disjoint3(all: set<Key>, x: set<Key>, y: set<Key>, z: set<Key>)
    requires all == x + (y + z) && y !! z && x !! (y + z)
    ensures |all| == |x| + |y| + |z| && |y + z| == |y| + |z|
  {
  }

  lemma StagesSplit(w: World)
    ensures |w.created| == |InStage(w, UnsentPending)| + |InStage(w, SentPending)| + |InStage(w, Completed)|
    ensures |InStage(w, SentPending) + InStage(w, Completed)| == |InStage(w, SentPending)| + |InStage(w, Completed)|
  {
    Disjoint3(w.created.Keys, InStage(w, UnsentPending), InStage(w, SentPending), InStage(w, Completed));
    assert |w.created| == |w.created.Keys|;
  }

  lemma StagesAreSets(w: World)
    requires Inv(w) && SentKeys(w.reqs) <= w.created.Keys
    ensures SentKeys(w.reqs) == InStage(w, SentPending) + InStage(w, Completed)
    ensures NotedKeys(w.notes) == InStage(w, Completed)
  {
  }

  lemma {:induction false} SentCount(ms: seq<ReqMsg>)
    requires SentOnce(ms)
    ensures |SentKeys(ms)| == |ms|
  {
    if ms != [] {
      SentCount(ms[1..]);
      forall m | m in ms[1..] ensures KeyOfReq(m) != KeyOfReq(ms[0]) {
        var j :| 0 <= j < |ms[1..]| && ms[1..][j] == m;
        assert ms[j + 1] == m;
      }
      assert forall m :: m in ms <==> m == ms[0] || m in ms[1..];
      assert SentKeys(ms) == {KeyOfReq(ms[0])} + SentKeys(ms[1..]);
    }
  }

  lemma {:induction false} NotedCount(ns: seq<Note>)
    requires NotedOnce(ns)
    ensures |NotedKeys(ns)| == |ns|
  {
    if ns != [] {
      NotedCount(ns[1..]);
      forall n | n in ns[1..] ensures n.key != ns[0].key {
        var j :| 0 <= j < |ns[1..]| && ns[1..][j] == n;
        assert ns[j + 1] == n;
      }
      assert forall n :: n in ns <==> n == ns[0] || n in ns[1..];
      assert NotedKeys(ns) == {ns[0].key} + NotedKeys(ns[1..]);
    }
  }
}
