// Where the frames of requests and responses are addressed, and that a call that gets through is answered.
module Frames {
  import opened Types
  import opened Requests
  import HS = HandlerStorage

  // ---- A batch ----

  // One frame for each key: to the identity of the responder, with where the answer is to go, the names of the
  // request and what it asks.
  ghost predicate FramesAre(sent: seq<ReqMsg>, ks: seq<HS.Key>, before: Pending, topic: string, to: Address,
                            sender: string, replyTo: string)
  {
    && |sent| == |ks|
    && forall j | 0 <= j < |sent| ::
         && ks[j] in before && ks[j].topic == topic
         && sent[j].dst == to.ctrl && sent[j].sender == sender && sent[j].replyTo == replyTo
         && sent[j].topic == topic && sent[j].node == ks[j].node && sent[j].req == ks[j].handler
         && sent[j].data == before[ks[j]].data
  }

  lemma BatchFrames(before: Pending, topic: string, ks: seq<HS.Key>, to: Address, sender: string, replyTo: string)
    requires IsBatch(before, topic, ks)
    ensures FramesAre(ReqsFor(before, ks, to, sender, replyTo), ks, before, topic, to, sender, replyTo)
  {
    forall j | 0 <= j < |ks| ensures Unsent(before, topic, ks[j]) {
      assert ks[j] in ks;
    }
  }

  lemma FramesDetermine(sent: seq<ReqMsg>, ks: seq<HS.Key>, before: Pending, topic: string, to: Address,
                        sender: string, replyTo: string)
    requires IsBatch(before, topic, ks) && FramesAre(sent, ks, before, topic, to, sender, replyTo)
    ensures sent == ReqsFor(before, ks, to, sender, replyTo)
  {
  }

  // ---- Runs ----

  // The request names the process that created its handler as its sender, and where that one takes responses.
  ghost predicate ReqHome(w: World, m: ReqMsg) {
    && KeyOfReq(m) in w.created && w.created[KeyOfReq(m)].proc in w.procs
    && m.sender == w.procs[w.created[KeyOfReq(m)].proc].addr
    && m.replyTo == w.procs[w.created[KeyOfReq(m)].proc].id
  }

  // The response is addressed to that process.
  ghost predicate RepHome(w: World, m: RepMsg) {
    && KeyOfRep(m) in w.created && w.created[KeyOfRep(m)].proc in w.procs
    && m.dst == w.procs[w.created[KeyOfRep(m)].proc].id
  }

  ghost predicate Home(w: World) {
    (forall m | m in w.reqs :: ReqHome(w, m)) && (forall m | m in w.reps :: RepHome(w, m))
  }

  // What was addressed stays addressed: processes keep their addresses and handlers their origin.
  lemma HomeStays(w: World, w': World)
    requires Home(w) && w'.procs.Keys == w.procs.Keys
    requires forall p | p in w.procs :: w'.procs[p].addr == w.procs[p].addr && w'.procs[p].id == w.procs[p].id
    requires forall k | k in w.created :: k in w'.created && w'.created[k] == w.created[k]
    ensures forall m | m in w.reqs :: ReqHome(w', m)
    ensures forall m | m in w.reps :: RepHome(w', m)
  {
  }

  lemma SendHome(w: World, p: string, topic: string, to: Option<Address>, ks: seq<HS.Key>)
    requires Home(w) && p in w.procs && AllPending(w)
    ensures Home(SendPending(w, p, topic, to, ks))
  {
    var t := w.procs[p].pending;
    if to.Some? && IsBatch(t, topic, ks) {
      var w' := SendPending(w, p, topic, to, ks);
      var more := ReqsFor(t, ks, to.value, w.procs[p].addr, w.procs[p].id);
      HomeStays(w, w');
      BatchFrames(t, topic, ks, to.value, w.procs[p].addr, w.procs[p].id);
      forall m | m in more ensures ReqHome(w', m) {
        var j :| 0 <= j < |more| && more[j] == m;
        assert KeyOfReq(m) == ks[j];
        assert PendingOk(w, p, ks[j]);
      }
    }
  }

  lemma CreateHome(w: World, p: string, key: HS.Key, data: string)
    requires Home(w) && p in w.procs && key !in w.created
    ensures Home(Create(w, p, key, data))
  {
    HomeStays(w, Create(w, p, key, data));
  }

  lemma RequestHome(w: World, p: string, key: HS.Key, data: string, to: Option<Address>, ks: seq<HS.Key>)
    requires Inv(w) && Home(w) && p in w.procs && FreshUuid(w, key.handler)
    ensures Home(SendPending(Create(w, p, key, data), p, key.topic, to, ks))
  {
    CreateInv(w, p, key, data);
    CreateHome(w, p, key, data);
    SendHome(Create(w, p, key, data), p, key.topic, to, ks);
  }

  lemma ServeHome(w: World, m: ReqMsg, replier: HS.Key, rep: string, result: bool)
    requires Home(w) && m in w.reqs
    ensures Home(Serve(w, m, replier, rep, result))
  {
    var w' := Serve(w, m, replier, rep, result);
    HomeStays(w, w');
    assert ReqHome(w, m);
    forall r | r in w'.reps ensures RepHome(w', r) {
      assert r in w.reps || r == Answer(m, rep, result);
    }
  }

  lemma StepHome(w: World, a: Action)
    requires Inv(w) && Home(w)
    ensures Home(Step(w, a))
  {
    if a.p in w.procs {
      match a
      case Request(p, key, data, to, ks) =>
        if !HasReplier(w.procs[p].repliers, key.topic) && FreshUuid(w, key.handler) {
          RequestHome(w, p, key, data, to, ks);
        }
      case SrvConnection(p, topic, to, ks) => SendHome(w, p, topic, to, ks);
      case RecvRequest(p, i, replier, rep, result) =>
        if i < |w.reqs| && replier in w.procs[p].repliers && replier.topic == w.reqs[i].topic {
          ServeHome(w, w.reqs[i], replier, rep, result);
        }
      case RecvResponse(p, j) =>
        if j < |w.reps| {
          NotifyHome(w, p, w.reps[j]);
        }
      case AddReplier(p, k) => RepliersHome(w, p, w.procs[p].repliers + iset{k});
      case RemoveRepliers(p, topic, node) =>
        RepliersHome(w, p, iset k | k in w.procs[p].repliers && !(k.topic == topic && k.node == node));
    }
  }

  lemma NotifyHome(w: World, p: string, m: RepMsg)
    requires Home(w) && p in w.procs
    ensures Home(Notify(w, p, m))
  {
    HomeStays(w, Notify(w, p, m));
  }

  lemma RepliersHome(w: World, p: string, rs: iset<HS.Key>)
    requires Home(w) && p in w.procs
    ensures Home(SetRepliers(w, p, rs))
  {
    HomeStays(w, SetRepliers(w, p, rs));
  }

  // In every run each request carries the return address of the process that created its handler, and each
  // response is addressed to it.
  lemma {:induction false} RunHome(w: World, run: seq<Action>)
    requires Start(w)
    ensures Home(Exec(w, run))
    decreases |run|
  {
    if run != [] {
      RunHome(w, run[..|run| - 1]);
      RunInv(w, run[..|run| - 1]);
      StepHome(Exec(w, run[..|run| - 1]), run[|run| - 1]);
    }
  }

  // A request that was sent and is still waited for, once it reaches a process with a replier of its topic and
  // the response comes back, is over: its handler is told what the replier's callback gave.
  lemma AnswerArrives(w: World, run: seq<Action>, i: nat, q: string, replier: HS.Key, rep: string, result: bool)
    requires Start(w)
    requires var e := Exec(w, run);
             && i < |e.reqs| && Lives(e, KeyOfReq(e.reqs[i]))
             && q in e.procs && replier in e.procs[q].repliers && replier.topic == e.reqs[i].topic
    ensures var e := Exec(w, run);
            var k := KeyOfReq(e.reqs[i]);
            var p := e.created[k].proc;
            var e' := Step(Step(e, RecvRequest(q, i, replier, rep, result)), RecvResponse(p, |e.reps|));
            && Note(p, k, rep, result) in e'.notes && k !in e'.procs[p].pending
            && Call(replier, e.created[k].data, rep, result) in e'.calls
  {
    var e := Exec(w, run);
    RunInv(w, run);
    assert ReqOk(e, e.reqs[i]);
    var k := KeyOfReq(e.reqs[i]);
    var p := e.created[k].proc;
    var e1 := Step(e, RecvRequest(q, i, replier, rep, result));
    var m := e1.reps[|e.reps|];
    assert KeyOfRep(m) == k && NoteOf(p, m) == Note(p, k, rep, result);
    var e2 := Step(e1, RecvResponse(p, |e.reps|));
    assert e2.notes[|e.notes|] == Note(p, k, rep, result);
    assert e2.calls[|e.calls|] == Call(replier, e.created[k].data, rep, result);
  }
}
