// The part of src/NodeShared.cc, the Request templates and ReqHandler.hh that carries service calls,
// with handlers as the objects they are: flags are set in place while the storage is walked.
// What is sent is returned; what arrives is a parameter.
module NodeShared {
  import opened Types
  import opened Ordering
  import TopicStorage
  import HS = HandlerStorage
  import opened Requests
  import TopicNames
  import M = Messages
  import P = Protocol
  import D = Discovery
  import O = OneProcess
  import F = Frames

  type Key = HS.Key

  // A run of the requester's callback: topic without partition, response, result.
  datatype Told = Told(topic: string, rep: string, result: bool)

  // ---- ReqHandler.hh ----

  class ReqHandler {
    const nUuid: string
    const hUuid: string
    const reqMsg: string
    const hasCb: bool
    ghost const topic: string
    var rep: string
    var result: bool
    var requested: bool
    var repAvailable: bool

    constructor (nUuid: string, hUuid: string, reqMsg: string, hasCb: bool, ghost topic: string)
      ensures this.nUuid == nUuid && this.hUuid == hUuid && this.reqMsg == reqMsg && this.hasCb == hasCb
      ensures this.topic == topic
      ensures rep == "" && !result && !requested && !repAvailable
    {
      this.nUuid, this.hUuid, this.reqMsg, this.hasCb, this.topic := nUuid, hUuid, reqMsg, hasCb, topic;
      rep, result, requested, repAvailable := "", false, false, false;
    }

    ghost predicate For(k: Key) {
      topic == k.topic && nUuid == k.node && hUuid == k.handler
    }

    method SetRequested(value: bool)
      modifies this`requested
      ensures requested == value
    {
      requested := value;
    }

    // With a callback it is run and the answer is not kept; without one a waiting thread finds the
    // answer in the handler.
    method NotifyResult(topic: string, rep: string, result: bool) returns (told: Option<Told>)
      modifies this`rep, this`result, this`repAvailable
      ensures told == if hasCb then Some(Told(TopicNames.Stripped(topic), rep, result)) else None
      ensures this.rep == (if hasCb then old(this.rep) else rep)
      ensures this.result == (if hasCb then old(this.result) else result)
      ensures repAvailable
    {
      told := None;
      if hasCb {
        told := Some(Told(TopicNames.Stripped(topic), rep, result));
      } else {
        this.rep, this.result := rep, result;
      }
      repAvailable := true;
    }
  }

  type Handlers = HS.Data<ReqHandler>

  ghost function Objects(d: Handlers): set<ReqHandler> {
    set t, n, h | t in d && n in d[t] && h in d[t][n] :: d[t][n][h]
  }

  // Every handler is stored under its own topic, node and UUID; so no handler is stored twice.
  ghost predicate Tagged(d: Handlers) {
    forall k | HS.Stored(d, k) :: HS.At(d, k).For(k)
  }

  // Every handler of d is still the one stored under its key.
  ghost predicate Extends(d: Handlers, e: Handlers) {
    forall k | HS.Stored(d, k) :: HS.Stored(e, k) && HS.At(e, k) == HS.At(d, k)
  }

  ghost function PendingOf(d: Handlers): Pending
    reads Objects(d)`requested
  {
    imap k: Key | HS.Stored(d, k) :: Handler(HS.At(d, k).reqMsg, HS.At(d, k).requested)
  }

  // ---- Batches, built node by node ----

  ghost predicate NodeBatch(was: Pending, topic: string, node: string, seen: seq<string>, ks: seq<Key>) {
    Ordered(ks) && forall k :: k in ks <==> Unsent(was, topic, k) && k.node == node && k.handler in seen
  }

  ghost predicate NodesBatch(was: Pending, topic: string, ns: seq<string>, ks: seq<Key>) {
    Ordered(ks) && forall k :: k in ks <==> Unsent(was, topic, k) && k.node in ns
  }

  lemma NodeBatchNext(was: Pending, topic: string, node: string, hs: seq<string>, i: nat, ks: seq<Key>)
    requires Increasing(hs) && i < |hs| && NodeBatch(was, topic, node, hs[..i], ks)
    ensures var k := HS.Key(topic, node, hs[i]);
            && hs[..i + 1] == hs[..i] + [hs[i]] && hs[i] !in hs[..i]
            && NodeBatch(was, topic, node, hs[..i + 1], ks + if Unsent(was, topic, k) then [k] else [])
  {
    var k := HS.Key(topic, node, hs[i]);
    assert hs[..i + 1] == hs[..i] + [hs[i]];
    IncreasingDistinct(hs);
    assert ks + [] == ks;
    forall j | 0 <= j < |ks| ensures HS.Before(ks[j], k) {
      assert ks[j] in ks;
      var l :| 0 <= l < i && hs[..i][l] == ks[j].handler;
      assert Less(hs[l], hs[i]);
    }
    assert forall x :: x in ks + [k] <==> x in ks || x == k;
  }

  lemma WholePrefix(hs: seq<string>)
    ensures hs[..0] == [] && hs[..|hs|] == hs
  {
  }

  lemma NodesBatchNext(was: Pending, topic: string, ns: seq<string>, i: nat, ks: seq<Key>, hs: seq<string>,
                       js: seq<Key>)
    requires Increasing(ns) && i < |ns| && NodesBatch(was, topic, ns[..i], ks)
    requires NodeBatch(was, topic, ns[i], hs, js)
    requires forall k | k in was && k.topic == topic && k.node == ns[i] :: k.handler in hs
    ensures ns[..i + 1] == ns[..i] + [ns[i]] && NodesBatch(was, topic, ns[..i + 1], ks + js)
  {
  }

  lemma ReqsConcat(was: Pending, ks: seq<Key>, js: seq<Key>, to: Address, sender: string, replyTo: string)
    requires forall k | k in ks || k in js :: k in was
    ensures ReqsFor(was, ks + js, to, sender, replyTo)
         == ReqsFor(was, ks, to, sender, replyTo) + ReqsFor(was, js, to, sender, replyTo)
  {
  }

  lemma ReqsNext(was: Pending, topic: string, ks: seq<Key>, k: Key, to: Address, sender: string, replyTo: string)
    requires forall x | x in ks :: x in was
    ensures var more := if Unsent(was, topic, k) then [ReqFor(was, k, to, sender, replyTo)] else [];
            var ks' := ks + if Unsent(was, topic, k) then [k] else [];
            && (forall x | x in ks' :: x in was)
            && ReqsFor(was, ks', to, sender, replyTo) == ReqsFor(was, ks, to, sender, replyTo) + more
  {
  }

  // ---- The nested loops of SendPendingRemoteReqs ----

  // The handlers of one node hold what was says, except that those in seen are marked as requested.
  ghost predicate NodeMarked(hs: map<string, ReqHandler>, was: Pending, topic: string, node: string, seen: seq<string>)
    reads hs.Values
  {
    forall h | h in hs ::
      && hs[h].For(HS.Key(topic, node, h)) && HS.Key(topic, node, h) in was
      && was[HS.Key(topic, node, h)] == Handler(hs[h].reqMsg, was[HS.Key(topic, node, h)].requested)
      && hs[h].requested == (h in seen || was[HS.Key(topic, node, h)].requested)
  }

  // One turn of the inner loop.
  method SendOne(hs: map<string, ReqHandler>, name: string, topic: string, ghost node: string, ghost was: Pending,
                 ghost seen: seq<string>, to: Address, sender: string, replyTo: string)
    returns (sent: seq<ReqMsg>)
    requires name in hs && name !in seen && NodeMarked(hs, was, topic, node, seen)
    modifies hs.Values`requested
    ensures NodeMarked(hs, was, topic, node, seen + [name])
    ensures var k := HS.Key(topic, node, name);
            sent == if Unsent(was, topic, k) then [ReqFor(was, k, to, sender, replyTo)] else []
  {
    var req := hs[name];
    assert forall h :: h in seen + [name] <==> h in seen || h == name;
    if req.requested {
      return [];
    }
    req.SetRequested(true);
    sent := [ReqMsg(to.ctrl, topic, sender, replyTo, req.nUuid, req.hUuid, req.reqMsg)];
  }

  method SendNode(hs: map<string, ReqHandler>, topic: string, ghost node: string, ghost was: Pending,
                  to: Address, sender: string, replyTo: string)
    returns (sent: seq<ReqMsg>, ghost ks: seq<Key>)
    requires NodeMarked(hs, was, topic, node, [])
    modifies hs.Values`requested
    ensures NodeMarked(hs, was, topic, node, Keys(hs.Keys))
    ensures NodeBatch(was, topic, node, Keys(hs.Keys), ks)
    ensures sent == ReqsFor(was, ks, to, sender, replyTo)
  {
    sent, ks := [], [];
    var names := Keys(hs.Keys);
    WholePrefix(names);
    for i := 0 to |names|
      invariant NodeMarked(hs, was, topic, node, names[..i])
      invariant NodeBatch(was, topic, node, names[..i], ks)
      invariant sent == ReqsFor(was, ks, to, sender, replyTo)
    {
      NodeBatchNext(was, topic, node, names, i, ks);
      ghost var k := HS.Key(topic, node, names[i]);
      var more := SendOne(hs, names[i], topic, node, was, names[..i], to, sender, replyTo);
      ReqsNext(was, topic, ks, k, to, sender, replyTo);
      sent := sent + more;
      ks := ks + if Unsent(was, topic, k) then [k] else [];
    }
  }

  ghost function NodeObjects(reqs: HS.Nodes<ReqHandler>): set<ReqHandler> {
    set n, h | n in reqs && h in reqs[n] :: reqs[n][h]
  }

  ghost function SeenOf(reqs: HS.Nodes<ReqHandler>, n: string, ns: seq<string>): seq<string>
    requires n in reqs
  {
    if n in ns then Keys(reqs[n].Keys) else []
  }

  ghost predicate TopicMarked(reqs: HS.Nodes<ReqHandler>, was: Pending, topic: string, ns: seq<string>)
    reads NodeObjects(reqs)
  {
    forall n | n in reqs :: NodeMarked(reqs[n], was, topic, n, SeenOf(reqs, n, ns))
  }

  lemma ValuesWithin(reqs: HS.Nodes<ReqHandler>, n: string)
    requires n in reqs
    ensures reqs[n].Values <= NodeObjects(reqs)
  {
  }

  // One turn of the outer loop leaves the handlers of the other nodes alone.
  method SendNext(reqs: HS.Nodes<ReqHandler>, n: string, topic: string, ghost was: Pending, ghost ns: seq<string>,
                  to: Address, sender: string, replyTo: string)
    returns (sent: seq<ReqMsg>, ghost ks: seq<Key>)
    requires n in reqs && n !in ns && TopicMarked(reqs, was, topic, ns)
    modifies NodeObjects(reqs)`requested
    ensures TopicMarked(reqs, was, topic, ns + [n])
    ensures NodeBatch(was, topic, n, Keys(reqs[n].Keys), ks)
    ensures sent == ReqsFor(was, ks, to, sender, replyTo)
  {
    ValuesWithin(reqs, n);
    assert NodeMarked(reqs[n], was, topic, n, SeenOf(reqs, n, ns));
    sent, ks := SendNode(reqs[n], topic, n, was, to, sender, replyTo);
    assert forall m :: m in ns + [n] <==> m in ns || m == n;
    forall m | m in reqs && m != n ensures NodeMarked(reqs[m], was, topic, m, SeenOf(reqs, m, ns + [n])) {
      assert old(NodeMarked(reqs[m], was, topic, m, SeenOf(reqs, m, ns)));
      assert reqs[n].Values !! reqs[m].Values;
    }
  }

  method SendAll(reqs: HS.Nodes<ReqHandler>, topic: string, ghost was: Pending, to: Address, sender: string,
                 replyTo: string)
    returns (sent: seq<ReqMsg>, ghost ks: seq<Key>)
    requires TopicMarked(reqs, was, topic, [])
    requires forall k | k in was && k.topic == topic :: k.node in reqs && k.handler in reqs[k.node]
    modifies NodeObjects(reqs)`requested
    ensures TopicMarked(reqs, was, topic, Keys(reqs.Keys))
    ensures IsBatch(was, topic, ks)
    ensures sent == ReqsFor(was, ks, to, sender, replyTo)
  {
    sent, ks := [], [];
    var ns := Keys(reqs.Keys);
    WholePrefix(ns);
    for i := 0 to |ns|
      invariant TopicMarked(reqs, was, topic, ns[..i])
      invariant NodesBatch(was, topic, ns[..i], ks)
      invariant sent == ReqsFor(was, ks, to, sender, replyTo)
    {
      IncreasingDistinct(ns);
      assert ns[i] !in ns[..i];
      ghost var js;
      var more;
      more, js := SendNext(reqs, ns[i], topic, was, ns[..i], to, sender, replyTo);
      NodesBatchNext(was, topic, ns, i, ks, Keys(reqs[ns[i]].Keys), js);
      ReqsConcat(was, ks, js, to, sender, replyTo);
      sent, ks := sent + more, ks + js;
    }
  }

  // ---- NodeShared ----

  // Only the handlers of the batch's topic changed, and they are all marked now.
  lemma MarkedIsMarkSent(d: Handlers, was: Pending, topic: string, ns: seq<string>)
    requires topic in d && ns == Keys(d[topic].Keys) && TopicMarked(d[topic], was, topic, ns)
    requires forall k | HS.Stored(d, k) && k.topic != topic :: k in was && PendingOf(d)[k] == was[k]
    requires forall k :: k in was <==> HS.Stored(d, k)
    ensures PendingOf(d) == MarkSent(was, topic)
  {
    forall k | HS.Stored(d, k) ensures PendingOf(d)[k] == MarkSent(was, topic)[k] {
      if k.topic == topic {
        assert NodeMarked(d[topic][k.node], was, topic, k.node, SeenOf(d[topic], k.node, ns)) by {
          assert k.node in d[topic];
        }
        assert HS.At(d, k) == d[topic][k.node][k.handler];
        assert HS.Key(topic, k.node, k.handler) == k;
      }
    }
  }

  lemma UnmarkedAtFirst(d: Handlers, topic: string)
    requires Tagged(d) && topic in d
    ensures TopicMarked(d[topic], PendingOf(d), topic, [])
    ensures forall k | k in PendingOf(d) && k.topic == topic :: k.node in d[topic] && k.handler in d[topic][k.node]
    ensures NodeObjects(d[topic]) <= Objects(d)
    ensures forall k | HS.Stored(d, k) && k.topic != topic :: HS.At(d, k) !in NodeObjects(d[topic])
  {
    forall n, h | n in d[topic] && h in d[topic][n]
      ensures d[topic][n][h].For(HS.Key(topic, n, h)) && HS.Key(topic, n, h) in PendingOf(d)
      ensures PendingOf(d)[HS.Key(topic, n, h)] == Handler(d[topic][n][h].reqMsg, d[topic][n][h].requested)
    {
      assert HS.Stored(d, HS.Key(topic, n, h)) && HS.At(d, HS.Key(topic, n, h)) == d[topic][n][h];
    }
  }

  lemma NothingToSend(d: Handlers, topic: string)
    requires topic !in d
    ensures IsBatch(PendingOf(d), topic, []) && MarkSent(PendingOf(d), topic) == PendingOf(d)
  {
  }

  method SendStored(d: Handlers, topic: string, to: Address, sender: string, replyTo: string)
    returns (sent: seq<ReqMsg>, ghost ks: seq<Key>)
    requires Tagged(d) && topic in d
    modifies Objects(d)`requested
    ensures IsBatch(old(PendingOf(d)), topic, ks) && PendingOf(d) == MarkSent(old(PendingOf(d)), topic)
    ensures sent == ReqsFor(old(PendingOf(d)), ks, to, sender, replyTo)
  {
    UnmarkedAtFirst(d, topic);
    ghost var was := PendingOf(d);
    sent, ks := SendAll(d[topic], topic, was, to, sender, replyTo);
    MarkedIsMarkSent(d, was, topic, Keys(d[topic].Keys));
  }

  predicate Apart(a: object, b: object, c: object) {
    a != b && b != c && a != c
  }

  class NodeShared {
    const ends: O.Endpoints
    const discovery: D.Discovery
    const localSubscriptions: HS.Storage<O.Subscriber>
    const requests: HS.Storage<ReqHandler>
    const repliers: HS.Storage<O.Service>
    var srvConnections: seq<string>

    // What the methods of this class need and keep.  None of them changes discovery, so Valid holds after
    // each of them if it held before.
    ghost predicate Held()
      reads discovery.infoMsg, discovery.infoSrv, requests, repliers, localSubscriptions
    {
      Apart(requests, repliers, localSubscriptions)
      && discovery.Held() && localSubscriptions.Valid() && requests.Valid() && repliers.Valid()
      && Tagged(requests.data)
    }

    ghost predicate Valid()
      reads discovery, discovery.infoMsg, discovery.infoSrv, requests, repliers, localSubscriptions
    {
      Held() && discovery.Valid()
    }

    ghost function Pending(): Pending
      reads requests, Objects(requests.data)`requested
    {
      PendingOf(requests.data)
    }

    // What the nodes of the process share.
    ghost function Stores(): O.Stores
      reads discovery, discovery.infoMsg, discovery.infoSrv, localSubscriptions, repliers
    {
      O.Stores(discovery.View(), localSubscriptions.data, repliers.data)
    }

    // The handler of a request has a callback exactly if the caller gave one.
    ghost predicate Carries(k: Key, hasCb: bool)
      reads requests
    {
      HS.Stored(requests.data, k) && HS.At(requests.data, k).hasCb == hasCb
    }

    // What becomes of the pending requests of a topic when to is the responder discovery has for it:
    // all that were not sent are sent, once, in order, and marked.
    ghost predicate SentOff(before: Pending, after: Pending, topic: string, to: Option<Address>, ks: seq<Key>,
                            sent: seq<ReqMsg>)
    {
      if to.None? then sent == [] && after == before
      else IsBatch(before, topic, ks) && after == MarkSent(before, topic)
           && F.FramesAre(sent, ks, before, topic, to.value, ends.requester, ends.receiverId)
    }

    // The datagrams of the search for a responder, if none is known.
    ghost function SearchFor(topic: string): (r: seq<string>)
      requires discovery.Held()
      reads discovery, discovery.infoMsg, discovery.infoSrv
      ensures topic in discovery.infoSrv.data ==> r == []
      ensures topic !in discovery.infoSrv.data ==> r == [M.Datagram(M.Sub(Srv, discovery.pUuid, topic))]
    {
      if O.Responder(discovery.infoSrv.data, topic).Some? then []
      else D.Datagrams(P.Discover(discovery.View(), Srv, topic).sent)
    }

    // SentOff is the step of the network the process takes when a responder shows up ...
    lemma ConnectionIsStep(w: World, p: string, before: Pending, after: Pending, topic: string, to: Option<Address>,
                           ks: seq<Key>, sent: seq<ReqMsg>)
      requires p in w.procs && w.procs[p] == Proc(ends.requester, ends.receiverId, before, w.procs[p].repliers)
      requires SentOff(before, after, topic, to, ks, sent)
      ensures var w' := Step(w, SrvConnection(p, topic, to, ks));
              w'.procs == w.procs[p := w.procs[p].(pending := after)] && w'.reqs == w.reqs + sent
    {
      if to.Some? {
        F.FramesDetermine(sent, ks, before, topic, to.value, ends.requester, ends.receiverId);
      }
    }

    // ... and, behind a new handler, the one it takes for a request nobody in the process can answer.
    lemma RequestIsStep(w: World, p: string, before: Pending, after: Pending, k: Key, data: string, to: Option<Address>,
                        ks: seq<Key>, sent: seq<ReqMsg>)
      requires p in w.procs && w.procs[p] == Proc(ends.requester, ends.receiverId, before, w.procs[p].repliers)
      requires !HasReplier(w.procs[p].repliers, k.topic) && FreshUuid(w, k.handler)
      requires SentOff(before[k := Handler(data, false)], after, k.topic, to, ks, sent)
      ensures var w' := Step(w, Action.Request(p, k, data, to, ks));
              w'.procs == w.procs[p := w.procs[p].(pending := after)] && w'.reqs == w.reqs + sent
    {
      ConnectionIsStep(Create(w, p, k, data), p, before[k := Handler(data, false)], after, k.topic, to, ks, sent);
    }

    constructor (pUuid: string, hostAddr: string, ends: O.Endpoints)
      ensures Valid() && Pending() == imap[] && HS.Flat(repliers.data) == imap[]
      ensures HS.Flat(localSubscriptions.data) == imap[]
      ensures this.ends == ends && srvConnections == []
      ensures discovery.pUuid == pUuid && P.Fresh(discovery.View())
      ensures discovery.View().me.cbs == P.Callbacks(true, true, true, true)
      ensures fresh(discovery) && fresh(discovery.infoMsg) && fresh(discovery.infoSrv)
      ensures fresh(requests) && fresh(repliers) && fresh(localSubscriptions)
    {
      this.ends := ends;
      var d := new D.Discovery(pUuid, hostAddr);
      d.connectionCb, d.disconnectionCb, d.connectionSrvCb, d.disconnectionSrvCb := true, true, true, true;
      discovery := d;
      localSubscriptions := new HS.Storage<O.Subscriber>();
      requests := new HS.Storage<ReqHandler>();
      repliers := new HS.Storage<O.Service>();
      srvConnections := [];
    }

    // The updates of the subscriptions and of the repliers leave all else alone.
    method AddSubscription(topic: string, nUuid: string, hUuid: string, callback: O.Subscriber)
      requires Held()
      modifies localSubscriptions`data
      ensures Held() && requests.data == old(requests.data) && repliers.data == old(repliers.data)
      ensures localSubscriptions.data
           == HS.Inserted(old(localSubscriptions.data), HS.Key(topic, nUuid, hUuid), callback)
      ensures HS.Flat(localSubscriptions.data)
           == HS.Added(old(HS.Flat(localSubscriptions.data)), HS.Key(topic, nUuid, hUuid), callback)
    {
      localSubscriptions.AddHandler(topic, nUuid, hUuid, callback);
    }

    method RemoveSubscriptions(topic: string, nUuid: string)
      requires Held()
      modifies localSubscriptions`data
      ensures Held() && requests.data == old(requests.data) && repliers.data == old(repliers.data)
      ensures localSubscriptions.data == HS.Emptied(old(localSubscriptions.data), topic, nUuid)
      ensures HS.Flat(localSubscriptions.data) == HS.WithoutNode(old(HS.Flat(localSubscriptions.data)), topic, nUuid)
    {
      var removed := localSubscriptions.RemoveHandlersForNode(topic, nUuid);
    }

    method AddReplier(topic: string, nUuid: string, hUuid: string, callback: O.Service)
      requires Held()
      modifies repliers`data
      ensures Held() && requests.data == old(requests.data) && localSubscriptions.data == old(localSubscriptions.data)
      ensures repliers.data == HS.Inserted(old(repliers.data), HS.Key(topic, nUuid, hUuid), callback)
    {
      repliers.AddHandler(topic, nUuid, hUuid, callback);
    }

    method RemoveRepliers(topic: string, nUuid: string)
      requires Held()
      modifies repliers`data
      ensures Held() && requests.data == old(requests.data) && localSubscriptions.data == old(localSubscriptions.data)
      ensures repliers.data == HS.Emptied(old(repliers.data), topic, nUuid)
    {
      var removed := repliers.RemoveHandlersForNode(topic, nUuid);
    }

    method SendPendingRemoteReqs(topic: string) returns (sent: seq<ReqMsg>, ghost ks: seq<Key>)
      requires Held()
      modifies Objects(requests.data)`requested
      ensures Held()
      ensures SentOff(old(Pending()), Pending(), topic, O.Responder(discovery.infoSrv.data, topic), ks, sent)
      ensures topic !in discovery.infoSrv.data ==> sent == []
      ensures forall p | FirstOf(p, topic) ::
                F.FramesAre(sent, ks, old(Pending()), topic, discovery.infoSrv.data[topic][p][0],
                            ends.requester, ends.receiverId)
    {
      var to := FirstResponder(discovery.infoSrv, topic);
      if to.None? {
        return [], [];
      }
      sent, ks := SendTo(topic, to.value);
      F.BatchFrames(old(Pending()), topic, ks, to.value, ends.requester, ends.receiverId);
      FirstIsResponder(topic);
    }

    // p is the first process that has rows of the topic.
    ghost predicate FirstOf(p: string, topic: string)
      reads discovery.infoSrv
    {
      && topic in discovery.infoSrv.data && IsLeast(p, discovery.infoSrv.data[topic].Keys)
      && discovery.infoSrv.data[topic][p] != []
    }

    lemma FirstIsResponder(topic: string)
      requires discovery.Held()
      ensures forall p | FirstOf(p, topic) ::
                O.Responder(discovery.infoSrv.data, topic) == Some(discovery.infoSrv.data[topic][p][0])
    {
      if topic in discovery.infoSrv.data {
        LeastUnique(discovery.infoSrv.data[topic].Keys);
      }
    }

    // The second half: the responder is known.
    method SendTo(topic: string, to: Address) returns (sent: seq<ReqMsg>, ghost ks: seq<Key>)
      requires requests.Valid() && Tagged(requests.data)
      modifies Objects(requests.data)`requested
      ensures IsBatch(old(Pending()), topic, ks) && Pending() == MarkSent(old(Pending()), topic)
      ensures sent == ReqsFor(old(Pending()), ks, to, ends.requester, ends.receiverId)
    {
      var reqs := requests.GetHandlers(topic);
      if reqs.None? {
        NothingToSend(requests.data, topic);
        return [], [];
      }
      sent, ks := SendStored(requests.data, topic, to, ends.requester, ends.receiverId);
    }

    // A response: tell the handler it names, and forget the handler.
    method RecvSrvResponse(m: RepMsg) returns (told: Option<Told>)
      requires Held()
      modifies requests`data, Objects(requests.data)`rep
      modifies Objects(requests.data)`result, Objects(requests.data)`repAvailable
      ensures Held()
      ensures Pending() == old(Pending()) - {KeyOfRep(m)}
      ensures KeyOfRep(m) !in old(Pending()) ==> told == None && requests.data == old(requests.data)
      ensures KeyOfRep(m) !in old(Pending()) ==> forall o | o in old(Objects(requests.data)) :: unchanged(o)
      ensures HS.Flat(requests.data) == old(HS.Flat(requests.data)) - {KeyOfRep(m)}
      ensures KeyOfRep(m) in old(Pending()) ==> Notified(old(HS.At(requests.data, KeyOfRep(m))), m, told)
      ensures KeyOfRep(m) in old(Pending()) ==>
        forall o | o in old(Objects(requests.data)) && o != old(HS.At(requests.data, KeyOfRep(m))) :: unchanged(o)
    {
      var handler := requests.GetHandler(m.topic, m.node, m.req);
      if handler.None? {
        NothingRemoved(Pending(), KeyOfRep(m));
        NothingRemoved(HS.Flat(requests.data), KeyOfRep(m));
        return None;
      }
      told := Complete(m, handler.value);
    }

    // Notify the result and remove the handler.
    method Complete(m: RepMsg, handler: ReqHandler) returns (told: Option<Told>)
      requires requests.Valid() && Tagged(requests.data)
      requires HS.Stored(requests.data, KeyOfRep(m)) && handler == HS.At(requests.data, KeyOfRep(m))
      modifies requests`data, Objects(requests.data)`rep
      modifies Objects(requests.data)`result, Objects(requests.data)`repAvailable
      ensures requests.Valid() && Tagged(requests.data)
      ensures Pending() == old(Pending()) - {KeyOfRep(m)}
      ensures HS.Flat(requests.data) == old(HS.Flat(requests.data)) - {KeyOfRep(m)}
      ensures Notified(handler, m, told)
      ensures forall o | o in old(Objects(requests.data)) && o != handler :: unchanged(o)
    {
      told := handler.NotifyResult(m.topic, m.rep, m.result == "1");
      FlagsStay(requests.data);
      Remove(m);
    }

    method Remove(m: RepMsg)
      requires requests.Valid() && Tagged(requests.data)
      modifies requests`data
      ensures requests.Valid() && Tagged(requests.data)
      ensures Pending() == old(Pending()) - {KeyOfRep(m)}
      ensures HS.Flat(requests.data) == old(HS.Flat(requests.data)) - {KeyOfRep(m)}
    {
      ghost var d := requests.data;
      var lastOne := requests.RemoveHandler(m.topic, m.node, m.req);
      FlagsStay(d);
      PendingRemoved(d, requests.data, KeyOfRep(m));
    }

    // A request: run the first replier of the topic and answer to where the request says.
    method RecvSrvRequest(m: ReqMsg) returns (reply: Option<RepMsg>)
      requires Held()
      modifies this`srvConnections
      ensures Held()
      ensures reply.None? <==> !HasReplier(HS.Flat(repliers.data).Keys, m.topic)
      ensures reply.None? ==> srvConnections == old(srvConnections)
      ensures reply.Some? ==> srvConnections == if m.sender in old(srvConnections) then old(srvConnections)
                                                else old(srvConnections) + [m.sender]
      ensures reply.Some? ==> AnswerOfFirst(HS.Flat(repliers.data), m, reply.value)
    {
      var handler, at := repliers.GetFirstHandler(m.topic);
      if handler.None? {
        return None;
      }
      var (rep, result) := handler.value(m.topic, m.data);
      var resultStr := if result then "1" else "0";
      srvConnections := Connect(srvConnections, m.sender);
      reply := Some(RepMsg(m.replyTo, m.topic, m.node, m.req, rep, resultStr));
      assert Runs(HS.Flat(repliers.data)[at], m, reply.value);
    }

    // Discovery has a new responder.
    method OnNewSrvConnection(topic: string, addr: string) returns (sent: seq<ReqMsg>, ghost ks: seq<Key>)
      requires Held()
      modifies this`srvConnections, Objects(requests.data)`requested
      ensures Held()
      ensures srvConnections == if addr in old(srvConnections) then old(srvConnections)
                                else old(srvConnections) + [addr]
      ensures SentOff(old(Pending()), Pending(), topic, O.Responder(discovery.infoSrv.data, topic), ks, sent)
    {
      srvConnections := Connect(srvConnections, addr);
      FlagsStay(requests.data);
      sent, ks := SendPendingRemoteReqs(topic);
    }

    method OnNewSrvDisconnection(addr: string)
      modifies this`srvConnections
      ensures forall a :: a in srvConnections <==> a in old(srvConnections) && a != addr
      ensures addr !in old(srvConnections) ==> srvConnections == old(srvConnections)
    {
      srvConnections := Disconnect(srvConnections, addr);
    }

    // A replier of this process answers on the spot.
    method AnswerHere(topic: string, data: string) returns (direct: Option<(string, bool)>)
      requires repliers.Valid()
      ensures direct.Some? <==> HasReplier(HS.Flat(repliers.data).Keys, topic)
      ensures direct.Some? ==> AnsweredHere(HS.Flat(repliers.data), topic, data, direct.value)
    {
      var repHandler, at := repliers.GetFirstHandler(topic);
      if repHandler.None? {
        return None;
      }
      direct := Some(repHandler.value(topic, data));
    }

    // Create a request handler and store it.
    method Store(topic: string, nUuid: string, hUuid: string, data: string, hasCb: bool)
      requires Held() && HS.Key(topic, nUuid, hUuid) !in Pending()
      modifies requests`data
      ensures Held() && fresh(Objects(requests.data) - old(Objects(requests.data)))
      ensures Pending() == old(Pending())[HS.Key(topic, nUuid, hUuid) := Handler(data, false)]
      ensures Carries(HS.Key(topic, nUuid, hUuid), hasCb) && Extends(old(requests.data), requests.data)
    {
      ghost var d := requests.data;
      var req := new ReqHandler(nUuid, hUuid, data, hasCb, topic);
      requests.AddHandler(topic, nUuid, hUuid, req);
      FlagsStay(d);
      PendingAdded(d, requests.data, HS.Key(topic, nUuid, hUuid), req);
      ObjectsAdded(d, requests.data, HS.Key(topic, nUuid, hUuid), req);
      StoredAdded(d, requests.data, HS.Key(topic, nUuid, hUuid), req);
    }

    // The Request templates, behind the qualification of the name: answer on the spot, or store a
    // handler and send it, or store it and look for a responder.
    method Request(topic: string, nUuid: string, hUuid: string, data: string, hasCb: bool)
      returns (direct: Option<(string, bool)>, sent: seq<ReqMsg>, ghost ks: seq<Key>, discovered: seq<string>)
      requires Held() && forall k | k in Pending() :: k.handler != hUuid
      modifies requests`data, Objects(requests.data)`requested
      ensures Held()
      ensures direct.Some? <==> HasReplier(HS.Flat(repliers.data).Keys, topic)
      ensures direct.Some? ==> sent == [] && discovered == []
      ensures direct.Some? ==> unchanged(requests) && forall o | o in Objects(requests.data) :: unchanged(o)
      ensures direct.Some? ==> AnsweredHere(HS.Flat(repliers.data), topic, data, direct.value)
      ensures direct.None? ==> SentOff(old(Pending())[HS.Key(topic, nUuid, hUuid) := Handler(data, false)], Pending(),
                                       topic, O.Responder(discovery.infoSrv.data, topic), ks, sent)
      ensures direct.None? ==> discovered == SearchFor(topic)
      ensures direct.None? ==> Carries(HS.Key(topic, nUuid, hUuid), hasCb) && Extends(old(requests.data), requests.data)
    {
      sent, ks, discovered := [], [], [];
      direct := AnswerHere(topic, data);
      if direct.None? {
        sent, ks, discovered := RequestRemotely(topic, nUuid, hUuid, data, hasCb);
      }
    }

    method RequestRemotely(topic: string, nUuid: string, hUuid: string, data: string, hasCb: bool)
      returns (sent: seq<ReqMsg>, ghost ks: seq<Key>, discovered: seq<string>)
      requires Held() && HS.Key(topic, nUuid, hUuid) !in Pending()
      modifies requests`data, Objects(requests.data)`requested
      ensures Held()
      ensures SentOff(old(Pending())[HS.Key(topic, nUuid, hUuid) := Handler(data, false)], Pending(),
                      topic, O.Responder(discovery.infoSrv.data, topic), ks, sent)
      ensures discovered == SearchFor(topic)
      ensures Carries(HS.Key(topic, nUuid, hUuid), hasCb) && Extends(old(requests.data), requests.data)
    {
      Store(topic, nUuid, hUuid, data, hasCb);
      sent, ks, discovered := SendOrDiscover(topic);
    }

    // Send what is pending if discovery knows a responder, else search for one.
    method SendOrDiscover(topic: string) returns (sent: seq<ReqMsg>, ghost ks: seq<Key>, discovered: seq<string>)
      requires Held()
      modifies Objects(requests.data)`requested
      ensures Held()
      ensures SentOff(old(Pending()), Pending(), topic, O.Responder(discovery.infoSrv.data, topic), ks, sent)
      ensures discovered == SearchFor(topic)
    {
      sent, ks, discovered := [], [], [];
      var addresses := discovery.infoSrv.GetAddresses(topic);
      if addresses.Some? {
        sent, ks := SendPendingRemoteReqs(topic);
      } else {
        var events;
        discovered, events := discovery.Discover(topic, true);
      }
    }
  }

  // What NotifyResult left in the handler, and whom it told.
  ghost predicate Notified(h: ReqHandler, m: RepMsg, told: Option<Told>)
    reads h
  {
    && h.repAvailable
    && (h.hasCb ==> told == Some(Told(TopicNames.Stripped(m.topic), m.rep, m.result == "1")))
    && (!h.hasCb ==> told == None && h.rep == m.rep && h.result == (m.result == "1"))
  }

  // reply is the answer the callback gives to m.
  ghost predicate Runs(service: O.Service, m: ReqMsg, reply: RepMsg) {
    var (rep, result) := service(m.topic, m.data);
    && reply.dst == m.replyTo && reply.topic == m.topic && reply.node == m.node && reply.req == m.req
    && reply.rep == rep && reply.result == if result then "1" else "0"
  }

  // The callback is that of the topic's first replier.
  ghost predicate AnswerOfFirst(repliers: imap<Key, O.Service>, m: ReqMsg, reply: RepMsg) {
    exists at :: HS.FirstKey(repliers, m.topic, at) && Runs(repliers[at], m, reply)
  }

  ghost predicate AnsweredHere(repliers: imap<Key, O.Service>, topic: string, data: string, direct: (string, bool)) {
    exists at :: HS.FirstKey(repliers, topic, at) && repliers[at](topic, data) == direct
  }

  // Serving a request is the step the network takes for it.
  lemma ServingIsStep(w: World, p: string, i: nat, repliers: imap<Key, O.Service>, reply: RepMsg) returns (a: Action)
    requires p in w.procs && w.procs[p].repliers == repliers.Keys && i < |w.reqs|
    requires AnswerOfFirst(repliers, w.reqs[i], reply)
    ensures a.RecvRequest? && a.p == p && a.reqAt == i
    ensures Step(w, a).reps == w.reps + [reply] && Step(w, a).procs == w.procs
  {
    var at :| HS.FirstKey(repliers, w.reqs[i].topic, at) && Runs(repliers[at], w.reqs[i], reply);
    var (rep, result) := repliers[at](w.reqs[i].topic, w.reqs[i].data);
    a := RecvRequest(p, i, at, rep, result);
  }

  // Taking a response is the step the network takes for it: the handler goes, and what the network
  // records is what Notified says the handler was told; a response nobody waits for records nothing.
  lemma ResponseIsStep(w: World, p: string, j: nat)
    requires p in w.procs && j < |w.reps|
    ensures var k, t, w' := KeyOfRep(w.reps[j]), w.procs[p].pending, Step(w, RecvResponse(p, j));
            && w'.procs == w.procs[p := w.procs[p].(pending := t - {k})]
            && w'.notes == w.notes + if k in t then [NoteOf(p, w.reps[j])] else []
  {
    var k, t := KeyOfRep(w.reps[j]), w.procs[p].pending;
    if k !in t {
      NothingRemoved(t, k);
      assert w.procs[p].(pending := t) == w.procs[p];
    }
  }

  // What a handler is told, as Notified has it, is what the network notes.
  lemma ToldIsNoted(p: string, m: RepMsg, h: ReqHandler, told: Option<Told>)
    requires Notified(h, m, told)
    ensures var n := NoteOf(p, m);
            && n.key == KeyOfRep(m)
            && (h.hasCb ==> told == Some(Told(TopicNames.Stripped(n.key.topic), n.rep, n.result)))
            && (!h.hasCb ==> h.rep == n.rep && h.result == n.result)
  {
  }

  // std::find, then push_back.
  method Connect(cs: seq<string>, addr: string) returns (r: seq<string>)
    ensures r == if addr in cs then cs else cs + [addr]
  {
    for i := 0 to |cs|
      invariant addr !in cs[..i]
    {
      if cs[i] == addr {
        return cs;
      }
    }
    return cs + [addr];
  }

  // std::remove, then erase.
  method Disconnect(cs: seq<string>, addr: string) returns (r: seq<string>)
    ensures forall a :: a in r <==> a in cs && a != addr
    ensures addr !in cs ==> r == cs
  {
    r := [];
    for i := 0 to |cs|
      invariant forall a :: a in r <==> a in cs[..i] && a != addr
      invariant addr !in cs ==> r == cs[..i]
    {
      if cs[i] != addr {
        r := r + [cs[i]];
      }
    }
  }

  twostate lemma FlagsStay(d: Handlers)
    requires forall o | o in Objects(d) :: o.requested == old(o.requested)
    ensures PendingOf(d) == old(PendingOf(d))
  {
    forall k | HS.Stored(d, k) ensures PendingOf(d)[k] == old(PendingOf(d))[k] {
      assert HS.At(d, k) in Objects(d);
    }
  }

  lemma NothingRemoved<T>(m: imap<Key, T>, k: Key)
    requires k !in m
    ensures m - {k} == m
  {
  }

  lemma PendingRemoved(d: Handlers, e: Handlers, k: Key)
    requires HS.Flat(e) == HS.Flat(d) - {k} && Tagged(d)
    ensures PendingOf(e) == PendingOf(d) - {k} && Tagged(e)
  {
  }

  lemma PendingAdded(d: Handlers, e: Handlers, k: Key, h: ReqHandler)
    requires Tagged(d) && h.For(k)
    requires k !in HS.Flat(d) && HS.Flat(e) == HS.Flat(d)[k := h]
    ensures PendingOf(e) == PendingOf(d)[k := Handler(h.reqMsg, h.requested)] && Tagged(e)
  {
    StoredAdded(d, e, k, h);
  }

  lemma StoredAdded(d: Handlers, e: Handlers, k: Key, h: ReqHandler)
    requires HS.Flat(e) == HS.Flat(d)[k := h]
    ensures forall j :: HS.Stored(e, j) <==> HS.Stored(d, j) || j == k
    ensures forall j | HS.Stored(e, j) :: HS.At(e, j) == if j == k then h else HS.At(d, j)
  {
  }

  lemma ObjectsAdded(d: Handlers, e: Handlers, k: Key, h: ReqHandler)
    requires HS.Flat(e) == HS.Flat(d)[k := h]
    ensures Objects(e) <= Objects(d) + {h}
  {
    StoredAdded(d, e, k, h);
    forall o | o in Objects(e) ensures o in Objects(d) || o == h {
      ObjectsMeaning(e, o);
      var j :| HS.Stored(e, j) && HS.At(e, j) == o;
      ObjectsMeaning(d, o);
    }
  }

  lemma ObjectsMeaning(d: Handlers, o: ReqHandler)
    ensures o in Objects(d) <==> exists k :: HS.Stored(d, k) && HS.At(d, k) == o
  {
    if o in Objects(d) {
      var t, n, h :| t in d && n in d[t] && h in d[t][n] && d[t][n][h] == o;
      assert HS.Stored(d, HS.Key(t, n, h)) && HS.At(d, HS.Key(t, n, h)) == o;
    }
  }

  // addresses.begin()->second.at(0): neither the map nor the vector is empty.
  method FirstResponder(infoSrv: TopicStorage.Storage, topic: string) returns (to: Option<Address>)
    requires infoSrv.Valid()
    ensures to == O.Responder(infoSrv.data, topic)
  {
    var addresses := infoSrv.GetAddresses(topic);
    if addresses.None? {
      return None;
    }
    var v := addresses.value[Least(addresses.value.Keys)];
    return Some(v[0]);
  }
}
