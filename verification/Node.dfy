// src/Node.cc and the Subscribe, Advertise and Request templates of Node.hh: names are qualified, kept
// in the node's own sets, and handed to the shared stores and to discovery.
module Node {
  import opened Types
  import opened TopicTable
  import opened TopicNames
  import TopicStorage
  import HS = HandlerStorage
  import opened Messages
  import P = Protocol
  import D = Discovery
  import Requests
  import NS = NodeShared
  import O = OneProcess
  import C = CallMeaning

  // UnadvertiseSrv withdraws no service: the service table stays as it is, whatever it holds, and
  // discovery changes at all exactly if the node advertises a message topic of that name.
  lemma WithdrawnService(s: P.State, t: string, n: string)
    requires P.TablesCanonical(s)
    ensures var o := P.Unadvertise(s, Msg, t, n);
            && o.next.infoSrv == s.infoSrv
            && (o.next == s <==> NoRow(Vec(s.infoMsg, t, s.me.pUuid), n))
            && NoRow(Vec(o.next.infoMsg, t, s.me.pUuid), n)
  {
    var v := Vec(s.infoMsg, t, s.me.pUuid);
    DropNodeVec(s.infoMsg, t, s.me.pUuid, n);
    WithoutMember(v, n);
    if NoRow(v, n) {
      WithoutAbsent(v, n);
    }
  }

  function ValidOr(name: string, default: string): (r: string)
    ensures IsValidNamespace(default) ==> IsValidNamespace(r)
  {
    if IsValidNamespace(name) then name else default
  }

  class Node {
    const shared: NS.NodeShared
    const partition: string
    const ns: string
    const nUuid: string
    var topicsSubscribed: set<string>
    var topicsAdvertised: set<string>
    var srvsAdvertised: set<string>

    ghost function View(): O.Names reads this {
      O.Names(partition, ns, topicsSubscribed, topicsAdvertised, srvsAdvertised)
    }

    // The sets hold names the node can make, and account for what the shared stores hold of it.
    ghost predicate Valid()
      reads this, shared.discovery, shared.discovery.infoMsg, shared.discovery.infoSrv
      reads shared.requests, shared.repliers, shared.localSubscriptions
    {
      shared.Valid() && O.NamesOk(View()) && O.Accounted(shared.Stores(), nUuid, View())
    }

    // What the node and the shared stores were before the call.
    twostate function Outcome(c: O.Call): O.Outcome
      reads this, shared.discovery, shared.discovery.infoMsg, shared.discovery.infoSrv
      reads shared.repliers, shared.localSubscriptions
    {
      O.Perform(old(shared.Stores()), nUuid, old(View()), shared.ends, c)
    }

    // The node and the shared stores are as the call leaves them.
    twostate predicate Did(c: O.Call)
      reads this, shared.discovery, shared.discovery.infoMsg, shared.discovery.infoSrv
      reads shared.repliers, shared.localSubscriptions
    {
      shared.Stores() == Outcome(c).stores && View() == Outcome(c).names
    }

    twostate predicate OtherBefore(o: Node) {
      o != this && o.shared == shared && o.nUuid != nUuid && old(o.Valid())
    }

    twostate lemma StaysAccounted(c: O.Call)
      requires old(Valid()) && shared.Valid() && Did(c)
      ensures Valid()
    {
      O.PerformAccounted(old(shared.Stores()), nUuid, old(View()), shared.ends, c, nUuid, old(View()));
      O.PerformOwnNames(old(shared.Stores()), nUuid, old(View()), shared.ends, c);
    }

    // Another node of the process is none the worse for it.
    twostate lemma OthersStay(c: O.Call)
      requires old(Valid()) && shared.Valid() && Did(c)
      ensures forall o: Node | old(allocated(o)) && OtherBefore(o) && o.View() == old(o.View()) :: o.Valid()
    {
      forall o: Node | old(allocated(o)) && OtherBefore(o) && o.View() == old(o.View()) ensures o.Valid() {
        O.PerformAccounted(old(shared.Stores()), nUuid, old(View()), shared.ends, c, o.nUuid, old(o.View()));
      }
    }

    // Valid again, and so is every other node of the process.
    twostate lemma Settled(c: O.Call)
      requires old(Valid()) && shared.Valid() && Did(c)
      ensures Valid()
      ensures forall o: Node | old(allocated(o)) && OtherBefore(o) && o.View() == old(o.View()) :: o.Valid()
    {
      StaysAccounted(c);
      OthersStay(c);
    }

    // Nor is any node for what discovery does by itself: datagrams, passes, heartbeats and searches.
    twostate lemma StaysValid(i: P.Input)
      requires old(Valid()) && shared.Valid() && View() == old(View())
      requires !P.LocalUpdate(i)
      requires shared.Stores() == old(shared.Stores()).(disc := P.Step(old(shared.discovery.View()), i).next)
      ensures Valid()
    {
      O.StepAccounted(old(shared.Stores()), i, nUuid, View());
    }

    // Nor for requests, which leave these stores alone.
    twostate lemma OthersStayIdle()
      requires old(Valid()) && shared.Valid() && shared.Stores() == old(shared.Stores())
      ensures forall o: Node | old(allocated(o)) && OtherBefore(o) && o.View() == old(o.View()) :: o.Valid()
    {
    }

    // Invalid names are replaced by the defaults.  The UUID is new, so nothing is stored under it yet.
    constructor (shared: NS.NodeShared, partition: string, ns: string, defaultPartition: string, nUuid: string)
      requires shared.Valid() && IsValidNamespace(defaultPartition)
      requires O.Accounted(shared.Stores(), nUuid, O.NO_NAMES)
      ensures Valid() && this.shared == shared && this.nUuid == nUuid
      ensures this.partition == if Plain(partition) then partition else defaultPartition
      ensures this.ns == if Plain(ns) then ns else ""
      ensures topicsSubscribed == topicsAdvertised == srvsAdvertised == {}
    {
      ValidIsPlain(partition);
      ValidIsPlain(ns);
      this.shared, this.nUuid := shared, nUuid;
      this.partition := ValidOr(partition, defaultPartition);
      this.ns := ValidOr(ns, "");
      topicsSubscribed, topicsAdvertised, srvsAdvertised := {}, {}, {};
    }

    method Advertise(topic: string, scope: Scope) returns (ok: bool, sent: seq<string>)
      requires Valid()
      modifies this`topicsAdvertised, shared.discovery.infoMsg, shared.discovery.infoSrv
      ensures Valid() && Did(O.Advertise(topic, scope))
      ensures ok <==> FullName(partition, ns, topic).Some?
      ensures ok ==> topicsAdvertised == old(topicsAdvertised) + {FullName(partition, ns, topic).value}
      ensures sent == D.Datagrams(Outcome(O.Advertise(topic, scope)).sent)
      ensures ok ==> C.Announced(old(shared.Stores()), Outcome(O.Advertise(topic, scope)), Msg,
                                 FullName(partition, ns, topic).value,
                                 Address(shared.ends.publisher, shared.ends.control, nUuid, scope))
      ensures forall o: Node | old(allocated(o)) && OtherBefore(o) :: o.Valid()
    {
      ok, sent := Register(topic, scope);
      if ok {
        C.AdvertiseAnnounces(old(shared.Stores()), nUuid, old(View()), shared.ends, topic, scope);
      }
      Settled(O.Advertise(topic, scope));
    }

    // What Advertise does, apart from what it means for the nodes.
    method Register(topic: string, scope: Scope) returns (ok: bool, sent: seq<string>)
      requires shared.Valid()
      modifies this`topicsAdvertised, shared.discovery.infoMsg, shared.discovery.infoSrv
      ensures shared.Valid() && Did(O.Advertise(topic, scope))
      ensures ok <==> FullName(partition, ns, topic).Some?
      ensures sent == D.Datagrams(Outcome(O.Advertise(topic, scope)).sent)
    {
      sent := [];
      var full;
      ok, full := GetFullyQualifiedName(partition, ns, topic, "");
      if ok {
        topicsAdvertised := topicsAdvertised + {full};
        sent := shared.discovery.Advertise(Msg, full, shared.ends.publisher, shared.ends.control, nUuid, scope);
      }
    }

    method Unadvertise(topic: string) returns (ok: bool, sent: seq<string>)
      requires Valid()
      modifies this`topicsAdvertised, shared.discovery.infoMsg, shared.discovery.infoSrv
      ensures Valid() && Did(O.Unadvertise(topic))
      ensures ok <==> FullName(partition, ns, topic).Some?
      ensures ok ==> topicsAdvertised == old(topicsAdvertised) - {FullName(partition, ns, topic).value}
      ensures sent == D.Datagrams(Outcome(O.Unadvertise(topic)).sent)
      ensures ok ==> C.TakenBack(old(shared.Stores()), Outcome(O.Unadvertise(topic)), nUuid,
                                 FullName(partition, ns, topic).value)
      ensures forall o: Node | old(allocated(o)) && OtherBefore(o) :: o.Valid()
    {
      ok, sent := Unregister(topic);
      if ok {
        C.UnadvertiseTakesBack(old(shared.Stores()), nUuid, old(View()), shared.ends, O.Unadvertise(topic));
      }
      Settled(O.Unadvertise(topic));
    }

    // The same for Unadvertise.
    method Unregister(topic: string) returns (ok: bool, sent: seq<string>)
      requires shared.Valid()
      modifies this`topicsAdvertised, shared.discovery.infoMsg, shared.discovery.infoSrv
      ensures shared.Valid() && Did(O.Unadvertise(topic))
      ensures ok <==> FullName(partition, ns, topic).Some?
      ensures sent == D.Datagrams(Outcome(O.Unadvertise(topic)).sent)
    {
      sent := [];
      var full;
      ok, full := GetFullyQualifiedName(partition, ns, topic, topic);
      if ok {
        topicsAdvertised := topicsAdvertised - {full};
        sent := shared.discovery.Unadvertise(Msg, full, nUuid);
      }
    }

    // Store the callback, then look for publishers.
    method Subscribe(topic: string, hUuid: string, callback: O.Subscriber)
      returns (ok: bool, sent: seq<string>, events: seq<P.Event>)
      requires Valid()
      modifies this`topicsSubscribed, shared.localSubscriptions`data
      ensures Valid() && Did(O.Subscribe(topic, hUuid, callback))
      ensures ok <==> FullName(partition, ns, topic).Some?
      ensures ok ==> topicsSubscribed == old(topicsSubscribed) + {FullName(partition, ns, topic).value}
      ensures ok ==>
        HS.Flat(shared.localSubscriptions.data)
        == HS.Added(old(HS.Flat(shared.localSubscriptions.data)),
                    HS.Key(FullName(partition, ns, topic).value, nUuid, hUuid), callback)
      ensures sent == D.Datagrams(Outcome(O.Subscribe(topic, hUuid, callback)).sent)
      ensures events == Outcome(O.Subscribe(topic, hUuid, callback)).events
      ensures ok ==> C.SearchedFor(old(shared.Stores()), Outcome(O.Subscribe(topic, hUuid, callback)),
                                   FullName(partition, ns, topic).value)
      ensures forall o: Node | old(allocated(o)) && OtherBefore(o) :: o.Valid()
    {
      ok, sent, events := Enlist(topic, hUuid, callback);
      if ok {
        C.SubscribeSearches(old(shared.Stores()), nUuid, old(View()), shared.ends, topic, hUuid, callback);
        HS.FlatInserted(old(shared.localSubscriptions.data),
                        HS.Key(FullName(partition, ns, topic).value, nUuid, hUuid), callback);
      }
      Settled(O.Subscribe(topic, hUuid, callback));
    }

    // What Subscribe does, apart from what it means for the nodes.
    method Enlist(topic: string, hUuid: string, callback: O.Subscriber)
      returns (ok: bool, sent: seq<string>, events: seq<P.Event>)
      requires shared.Held()
      modifies this`topicsSubscribed, shared.localSubscriptions`data
      ensures shared.Held() && Did(O.Subscribe(topic, hUuid, callback))
      ensures ok <==> FullName(partition, ns, topic).Some?
      ensures sent == D.Datagrams(Outcome(O.Subscribe(topic, hUuid, callback)).sent)
      ensures events == Outcome(O.Subscribe(topic, hUuid, callback)).events
    {
      sent, events := [], [];
      var full;
      ok, full := GetFullyQualifiedName(partition, ns, topic, "");
      if ok {
        sent, events := Join(full, hUuid, callback);
        O.PerformAt(old(shared.Stores()), nUuid, old(View()), shared.ends, O.Subscribe(topic, hUuid, callback), full);
      }
    }

    // The topic is gone from the node's set even when the answer is false because nobody publishes it.
    // filterRemoved: no handler of the topic is left in the process.
    method Unsubscribe(topic: string) returns (ok: bool, filterRemoved: bool)
      requires Valid()
      modifies this`topicsSubscribed, shared.localSubscriptions`data
      ensures Valid() && Did(O.Unsubscribe(topic))
      ensures FullName(partition, ns, topic).None? ==> !ok
      ensures FullName(partition, ns, topic).Some? ==>
        (var full := FullName(partition, ns, topic).value;
         && topicsSubscribed == old(topicsSubscribed) - {full}
         && HS.Flat(shared.localSubscriptions.data)
            == HS.WithoutNode(old(HS.Flat(shared.localSubscriptions.data)), full, nUuid)
         && (filterRemoved <==> forall k | k in HS.Flat(shared.localSubscriptions.data) :: k.topic != full)
         && (ok <==> full in shared.discovery.infoMsg.data))
      ensures forall o: Node | old(allocated(o)) && OtherBefore(o) :: o.Valid()
    {
      ok, filterRemoved := Delist(topic);
      if FullName(partition, ns, topic).Some? {
        HS.FlatRemoveNode(old(shared.localSubscriptions.data), FullName(partition, ns, topic).value, nUuid);
      }
      Settled(O.Unsubscribe(topic));
    }

    // The same for Unsubscribe.
    method Delist(topic: string) returns (ok: bool, filterRemoved: bool)
      requires shared.Held()
      modifies this`topicsSubscribed, shared.localSubscriptions`data
      ensures shared.Held() && Did(O.Unsubscribe(topic))
      ensures FullName(partition, ns, topic).None? ==> !ok
      ensures FullName(partition, ns, topic).Some? ==>
        (var full := FullName(partition, ns, topic).value;
         && (filterRemoved <==> forall k | k in HS.Flat(shared.localSubscriptions.data) :: k.topic != full)
         && (ok <==> full in shared.discovery.infoMsg.data))
    {
      filterRemoved := false;
      var full;
      ok, full := GetFullyQualifiedName(partition, ns, topic, "");
      if ok {
        ok, filterRemoved := Leave(full);
        O.PerformAt(old(shared.Stores()), nUuid, old(View()), shared.ends, O.Unsubscribe(topic), full);
      }
    }

    // Unsubscribe, on the full name.
    method Leave(full: string) returns (known: bool, filterRemoved: bool)
      requires shared.Held()
      modifies this`topicsSubscribed, shared.localSubscriptions`data
      ensures shared.Held()
      ensures var o := O.Leaving(old(shared.Stores()), nUuid, old(View()), full);
              shared.Stores() == o.stores && View() == o.names
      ensures filterRemoved <==> forall k | k in HS.Flat(shared.localSubscriptions.data) :: k.topic != full
      ensures known <==> full in shared.discovery.infoMsg.data
    {
      shared.RemoveSubscriptions(full, nUuid);
      topicsSubscribed := topicsSubscribed - {full};
      var left := shared.localSubscriptions.HasHandlersForTopic(full);
      filterRemoved := !left;
      var addresses := shared.discovery.infoMsg.GetAddresses(full);
      known := addresses.Some?;
    }

    // Subscribe, on the full name.
    method Join(full: string, hUuid: string, callback: O.Subscriber) returns (sent: seq<string>, events: seq<P.Event>)
      requires shared.Held()
      modifies this`topicsSubscribed, shared.localSubscriptions`data
      ensures shared.Held()
      ensures var o := O.Joining(old(shared.Stores()), nUuid, old(View()), full, hUuid, callback);
              shared.Stores() == o.stores && View() == o.names && sent == D.Datagrams(o.sent) && events == o.events
    {
      shared.AddSubscription(full, nUuid, hUuid, callback);
      topicsSubscribed := topicsSubscribed + {full};
      sent, events := shared.discovery.Discover(full, false);
    }

    // The service templates, on the full name.
    method Offer(full: string, hUuid: string, callback: O.Service, scope: Scope) returns (sent: seq<string>)
      requires shared.Valid()
      modifies this`srvsAdvertised, shared.repliers`data, shared.discovery.infoMsg, shared.discovery.infoSrv
      ensures shared.Valid()
      ensures var o := O.Offering(old(shared.Stores()), nUuid, old(View()), shared.ends, full, hUuid, callback, scope);
              shared.Stores() == o.stores && View() == o.names && sent == D.Datagrams(o.sent)
    {
      srvsAdvertised := srvsAdvertised + {full};
      shared.AddReplier(full, nUuid, hUuid, callback);
      assert shared.discovery.View() == old(shared.discovery.View());
      sent := shared.discovery.Advertise(Srv, full, shared.ends.replier, shared.ends.replierId, nUuid, scope);
    }

    method Retire(full: string) returns (sent: seq<string>)
      requires shared.Valid()
      modifies this`srvsAdvertised, shared.repliers`data, shared.discovery.infoMsg, shared.discovery.infoSrv
      ensures shared.Valid()
      ensures var o := O.Retiring(old(shared.Stores()), nUuid, old(View()), full);
              shared.Stores() == o.stores && View() == o.names && sent == D.Datagrams(o.sent)
    {
      srvsAdvertised := srvsAdvertised - {full};
      shared.RemoveRepliers(full, nUuid);
      assert shared.discovery.View() == old(shared.discovery.View());
      sent := shared.discovery.Unadvertise(Msg, full, nUuid);
    }

    method AdvertiseSrv(topic: string, hUuid: string, callback: O.Service, scope: Scope)
      returns (ok: bool, sent: seq<string>)
      requires Valid()
      modifies this`srvsAdvertised, shared.repliers`data, shared.discovery.infoMsg, shared.discovery.infoSrv
      ensures Valid() && Did(O.AdvertiseSrv(topic, hUuid, callback, scope))
      ensures ok <==> FullName(partition, ns, topic).Some?
      ensures ok ==> srvsAdvertised == old(srvsAdvertised) + {FullName(partition, ns, topic).value}
      ensures ok ==>
        HS.Flat(shared.repliers.data)
        == HS.Added(old(HS.Flat(shared.repliers.data)),
                    HS.Key(FullName(partition, ns, topic).value, nUuid, hUuid), callback)
      ensures sent == D.Datagrams(Outcome(O.AdvertiseSrv(topic, hUuid, callback, scope)).sent)
      ensures ok ==> C.Announced(old(shared.Stores()), Outcome(O.AdvertiseSrv(topic, hUuid, callback, scope)), Srv,
                                 FullName(partition, ns, topic).value,
                                 Address(shared.ends.replier, shared.ends.replierId, nUuid, scope))
      ensures forall o: Node | old(allocated(o)) && OtherBefore(o) :: o.Valid()
    {
      ok, sent := OfferTopic(topic, hUuid, callback, scope);
      if ok {
        C.AdvertiseSrvAnnounces(old(shared.Stores()), nUuid, old(View()), shared.ends, topic, hUuid, callback, scope);
        ghost var full := FullName(partition, ns, topic).value;
        O.PerformAt(old(shared.Stores()), nUuid, old(View()), shared.ends,
                    O.AdvertiseSrv(topic, hUuid, callback, scope), full);
        HS.FlatInserted(old(shared.repliers.data), HS.Key(full, nUuid, hUuid), callback);
      }
      Settled(O.AdvertiseSrv(topic, hUuid, callback, scope));
    }

    // The same for the service templates.
    method OfferTopic(topic: string, hUuid: string, callback: O.Service, scope: Scope)
      returns (ok: bool, sent: seq<string>)
      requires shared.Valid()
      modifies this`srvsAdvertised, shared.repliers`data, shared.discovery.infoMsg, shared.discovery.infoSrv
      ensures shared.Valid() && Did(O.AdvertiseSrv(topic, hUuid, callback, scope))
      ensures ok <==> FullName(partition, ns, topic).Some?
      ensures sent == D.Datagrams(Outcome(O.AdvertiseSrv(topic, hUuid, callback, scope)).sent)
    {
      sent := [];
      var full;
      ok, full := GetFullyQualifiedName(partition, ns, topic, "");
      if ok {
        sent := Offer(full, hUuid, callback, scope);
        O.PerformAt(old(shared.Stores()), nUuid, old(View()), shared.ends,
                    O.AdvertiseSrv(topic, hUuid, callback, scope), full);
      }
    }

    // Discovery is told to unadvertise a *message* topic of this name: the service stays advertised,
    // and a message topic of the same name is withdrawn with it.
    method UnadvertiseSrv(topic: string) returns (ok: bool, sent: seq<string>)
      requires Valid()
      modifies this`srvsAdvertised, shared.repliers`data, shared.discovery.infoMsg, shared.discovery.infoSrv
      ensures Valid() && Did(O.UnadvertiseSrv(topic))
      ensures ok <==> FullName(partition, ns, topic).Some?
      ensures ok ==> srvsAdvertised == old(srvsAdvertised) - {FullName(partition, ns, topic).value}
      ensures ok ==>
        HS.Flat(shared.repliers.data)
        == HS.WithoutNode(old(HS.Flat(shared.repliers.data)), FullName(partition, ns, topic).value, nUuid)
      ensures sent == D.Datagrams(Outcome(O.UnadvertiseSrv(topic)).sent)
      ensures ok ==> C.TakenBack(old(shared.Stores()), Outcome(O.UnadvertiseSrv(topic)), nUuid,
                                 FullName(partition, ns, topic).value)
      ensures shared.discovery.infoSrv.data == old(shared.discovery.infoSrv.data)
      ensures forall o: Node | old(allocated(o)) && OtherBefore(o) :: o.Valid()
    {
      ok, sent := RetireTopic(topic);
      if ok {
        C.UnadvertiseTakesBack(old(shared.Stores()), nUuid, old(View()), shared.ends, O.UnadvertiseSrv(topic));
        ghost var full := FullName(partition, ns, topic).value;
        O.PerformAt(old(shared.Stores()), nUuid, old(View()), shared.ends, O.UnadvertiseSrv(topic), full);
        HS.FlatRemoveNode(old(shared.repliers.data), full, nUuid);
      }
      Settled(O.UnadvertiseSrv(topic));
    }

    // The same for UnadvertiseSrv.
    method RetireTopic(topic: string) returns (ok: bool, sent: seq<string>)
      requires shared.Valid()
      modifies this`srvsAdvertised, shared.repliers`data, shared.discovery.infoMsg, shared.discovery.infoSrv
      ensures shared.Valid() && Did(O.UnadvertiseSrv(topic))
      ensures ok <==> FullName(partition, ns, topic).Some?
      ensures sent == D.Datagrams(Outcome(O.UnadvertiseSrv(topic)).sent)
    {
      sent := [];
      var full;
      ok, full := GetFullyQualifiedName(partition, ns, topic, "");
      if ok {
        sent := Retire(full);
        O.PerformAt(old(shared.Stores()), nUuid, old(View()), shared.ends, O.UnadvertiseSrv(topic), full);
      }
    }

    // Answered on the spot by the topic's first replier; the caller sees the name without the partition.
    twostate predicate AnsweredAs(full: string, data: string, told: NS.Told)
      reads shared.requests, shared.repliers
    {
      && unchanged(shared.requests) && told.topic == Stripped(full)
      && NS.AnsweredHere(HS.Flat(shared.repliers.data), full, data, (told.rep, told.result))
    }

    // A new handler is stored, with the callback if there is one, and sent with whatever waits on the topic
    // if a responder is known; otherwise a responder is searched for.
    twostate predicate AskedFor(full: string, hUuid: string, data: string, hasCb: bool,
                                ks: seq<HS.Key>, sent: seq<Requests.ReqMsg>, discovered: seq<string>)
      requires shared.Held()
      reads shared.discovery, shared.discovery.infoMsg, shared.discovery.infoSrv
      reads shared.requests, shared.repliers, shared.localSubscriptions, NS.Objects(shared.requests.data)`requested
    {
      && discovered == shared.SearchFor(full)
      && shared.SentOff(old(shared.Pending())[HS.Key(full, nUuid, hUuid) := Requests.Handler(data, false)],
                        shared.Pending(), full, O.Responder(shared.discovery.infoSrv.data, full), ks, sent)
      && shared.Carries(HS.Key(full, nUuid, hUuid), hasCb)
    }

    // A service call, on the full name: the request goes out as this node's.
    method Ask(full: string, hUuid: string, data: string, hasCb: bool)
      returns (direct: Option<NS.Told>, sent: seq<Requests.ReqMsg>, ghost ks: seq<HS.Key>, discovered: seq<string>)
      requires shared.Held() && forall k | k in shared.Pending() :: k.handler != hUuid
      modifies shared.requests`data, NS.Objects(shared.requests.data)`requested
      ensures shared.Held()
      ensures direct.Some? <==> Requests.HasReplier(HS.Flat(shared.repliers.data).Keys, full)
      ensures direct.Some? ==> AnsweredAs(full, data, direct.value)
      ensures direct.None? ==> AskedFor(full, hUuid, data, hasCb, ks, sent, discovered)
    {
      direct := None;
      var answer;
      answer, sent, ks, discovered := shared.Request(full, nUuid, hUuid, data, hasCb);
      if answer.Some? {
        direct := Some(NS.Told(Stripped(full), answer.value.0, answer.value.1));
      }
    }

    method Request(topic: string, hUuid: string, data: string, hasCb: bool)
      returns (ok: bool, direct: Option<NS.Told>, sent: seq<Requests.ReqMsg>, ghost ks: seq<HS.Key>,
               discovered: seq<string>)
      requires Valid() && forall k | k in shared.Pending() :: k.handler != hUuid
      modifies shared.requests`data, NS.Objects(shared.requests.data)`requested
      ensures Valid() && shared.Stores() == old(shared.Stores())
      ensures ok <==> FullName(partition, ns, topic).Some?
      ensures !ok ==> direct.None? && sent == [] && discovered == [] && unchanged(shared.requests)
      ensures ok ==>
        (direct.Some?
         <==> Requests.HasReplier(HS.Flat(shared.repliers.data).Keys, FullName(partition, ns, topic).value))
      ensures ok && direct.Some? ==> AnsweredAs(FullName(partition, ns, topic).value, data, direct.value)
      ensures ok && direct.None? ==>
        AskedFor(FullName(partition, ns, topic).value, hUuid, data, hasCb, ks, sent, discovered)
      ensures forall o: Node | old(allocated(o)) && OtherBefore(o) :: o.Valid()
    {
      ok, direct, sent, ks, discovered := AskTopic(topic, hUuid, data, hasCb);
      assert shared.Stores() == old(shared.Stores());
      OthersStayIdle();
    }

    // The same for Request.
    method AskTopic(topic: string, hUuid: string, data: string, hasCb: bool)
      returns (ok: bool, direct: Option<NS.Told>, sent: seq<Requests.ReqMsg>, ghost ks: seq<HS.Key>,
               discovered: seq<string>)
      requires shared.Held() && forall k | k in shared.Pending() :: k.handler != hUuid
      modifies shared.requests`data, NS.Objects(shared.requests.data)`requested
      ensures shared.Held()
      ensures ok <==> FullName(partition, ns, topic).Some?
      ensures !ok ==> direct.None? && sent == [] && discovered == [] && unchanged(shared.requests)
      ensures ok ==>
        (direct.Some?
         <==> Requests.HasReplier(HS.Flat(shared.repliers.data).Keys, FullName(partition, ns, topic).value))
      ensures ok && direct.Some? ==> AnsweredAs(FullName(partition, ns, topic).value, data, direct.value)
      ensures ok && direct.None? ==>
        AskedFor(FullName(partition, ns, topic).value, hUuid, data, hasCb, ks, sent, discovered)
    {
      direct, sent, ks, discovered := None, [], [], [];
      var full;
      ok, full := GetFullyQualifiedName(partition, ns, topic, "");
      if ok {
        direct, sent, ks, discovered := Ask(full, hUuid, data, hasCb);
      }
    }

    // Behind a new handler, what Request does to the pending requests is the step a node takes in the runs
    // of its process.
    lemma AskIsStep(w: O.World, topic: string, hUuid: string, data: string, after: Requests.Pending,
                    ks: seq<HS.Key>, sent: seq<Requests.ReqMsg>)
      requires shared.Valid() && FullName(partition, ns, topic).Some? && O.FreshUuid(w.pending, hUuid)
      requires nUuid in w.nodes && w.nodes[nUuid] == View() && w.stores == shared.Stores()
      requires var full := FullName(partition, ns, topic).value;
               && full !in shared.repliers.data
               && shared.SentOff(w.pending[HS.Key(full, nUuid, hUuid) := Requests.Handler(data, false)], after, full,
                                 O.Responder(shared.discovery.infoSrv.data, full), ks, sent)
      ensures O.Step(w, shared.ends, O.Ask(nUuid, topic, hUuid, data)) == w.(pending := after)
    {
    }

    // ---- The destructor ----

    // Qualifying a stripped name again gives back the name it was stripped from.
    lemma QualifiesBack(x: string)
      requires O.NamesOk(View()) && x in topicsSubscribed + topicsAdvertised + srvsAdvertised
      ensures O.Qualify(View(), Stripped(x)) == Some(x)
    {
      assert O.Qualified(View(), x);
      var t :| O.Qualify(View(), t) == Some(x);
      Requalify(partition, ns, t, ns);
    }

    // One turn of each loop of the destructor: x is the name, topic what is left of it without the partition.
    method DropSubscription(topic: string, ghost x: string)
      requires Valid() && x in topicsSubscribed && topic == Stripped(x)
      modifies this`topicsSubscribed, shared.localSubscriptions`data
      ensures Valid() && topicsSubscribed == old(topicsSubscribed) - {x}
      ensures shared.Stores() == O.Leaving(old(shared.Stores()), nUuid, old(View()), x).stores
    {
      QualifiesBack(x);
      O.PerformAt(shared.Stores(), nUuid, View(), shared.ends, O.Unsubscribe(topic), x);
      var ok, filterRemoved := Unsubscribe(topic);
    }

    method DropTopic(topic: string, ghost x: string) returns (sent: seq<string>)
      requires Valid() && x in topicsAdvertised && topic == Stripped(x)
      modifies this`topicsAdvertised, shared.discovery.infoMsg, shared.discovery.infoSrv
      ensures Valid() && topicsAdvertised == old(topicsAdvertised) - {x}
      ensures var o := P.Unadvertise(old(shared.Stores()).disc, Msg, x, nUuid);
              shared.Stores() == old(shared.Stores()).(disc := o.next) && sent == D.Datagrams(o.sent)
    {
      QualifiesBack(x);
      O.PerformAt(shared.Stores(), nUuid, View(), shared.ends, O.Unadvertise(topic), x);
      var ok;
      ok, sent := Unadvertise(topic);
    }

    method DropService(topic: string, ghost x: string) returns (sent: seq<string>)
      requires Valid() && x in srvsAdvertised && topic == Stripped(x)
      modifies this`srvsAdvertised, shared.repliers`data, shared.discovery.infoMsg, shared.discovery.infoSrv
      ensures Valid() && srvsAdvertised == old(srvsAdvertised) - {x}
      ensures var o := O.Retiring(old(shared.Stores()), nUuid, old(View()), x);
              shared.Stores() == o.stores && sent == D.Datagrams(o.sent)
    {
      QualifiesBack(x);
      O.PerformAt(shared.Stores(), nUuid, View(), shared.ends, O.UnadvertiseSrv(topic), x);
      var ok;
      ok, sent := UnadvertiseSrv(topic);
    }

    method DrainSubscriptions() returns (ghost xs: seq<string>)
      requires Valid()
      modifies this`topicsSubscribed, shared.localSubscriptions`data
      ensures Valid() && topicsSubscribed == {} && O.Each(xs, old(topicsSubscribed))
      ensures shared.Stores() == O.LeaveEach(old(shared.Stores()), nUuid, xs)
    {
      var subsTopics;
      ghost var st := shared.Stores();
      subsTopics, xs := SubscribedTopics();
      for i := 0 to |subsTopics|
        invariant Valid() && topicsSubscribed == O.Later(xs, i)
        invariant shared.Stores() == O.LeaveEach(st, nUuid, xs[..i])
      {
        O.LaterNext(xs, i);
        O.LeaveNext(st, nUuid, View(), xs, i);
        DropSubscription(subsTopics[i], xs[i]);
      }
      assert xs[..|xs|] == xs;
    }

    method DrainTopics() returns (sent: seq<string>, ghost xs: seq<string>)
      requires Valid()
      modifies this`topicsAdvertised, shared.discovery.infoMsg, shared.discovery.infoSrv
      ensures Valid() && topicsAdvertised == {} && O.Each(xs, old(topicsAdvertised))
      ensures var o := O.Withdraw(old(shared.Stores()).disc, nUuid, xs);
              shared.Stores() == old(shared.Stores()).(disc := o.next) && sent == D.Datagrams(o.sent)
    {
      sent := [];
      var advTopics;
      ghost var st := shared.Stores();
      advTopics, xs := AdvertisedTopics();
      for i := 0 to |advTopics|
        invariant Valid() && topicsAdvertised == O.Later(xs, i)
        invariant shared.Stores() == st.(disc := O.Withdraw(st.disc, nUuid, xs[..i]).next)
        invariant sent == D.Datagrams(O.Withdraw(st.disc, nUuid, xs[..i]).sent)
      {
        O.LaterNext(xs, i);
        ghost var o := P.Unadvertise(shared.Stores().disc, Msg, xs[i], nUuid);
        var more := DropTopic(advTopics[i], xs[i]);
        D.DatagramsConcat(O.Withdraw(st.disc, nUuid, xs[..i]).sent, o.sent);
        assert xs[..i + 1][..i] == xs[..i];
        sent := sent + more;
      }
      assert xs[..|xs|] == xs;
    }

    method DrainServices() returns (sent: seq<string>, ghost xs: seq<string>)
      requires Valid()
      modifies this`srvsAdvertised, shared.repliers`data, shared.discovery.infoMsg, shared.discovery.infoSrv
      ensures Valid() && srvsAdvertised == {} && O.Each(xs, old(srvsAdvertised))
      ensures shared.Stores() == O.RetireEach(old(shared.Stores()), nUuid, xs)
      ensures sent == D.Datagrams(O.Withdraw(old(shared.Stores()).disc, nUuid, xs).sent)
    {
      sent := [];
      var advServices;
      advServices, xs := AdvertisedServices();
      ghost var st := shared.Stores();
      for i := 0 to |advServices|
        invariant Valid() && srvsAdvertised == O.Later(xs, i)
        invariant shared.Stores() == O.RetireEach(st, nUuid, xs[..i])
        invariant sent == D.Datagrams(O.Withdraw(st.disc, nUuid, xs[..i]).sent)
      {
        O.LaterNext(xs, i);
        ghost var o, v := P.Unadvertise(shared.Stores().disc, Msg, xs[i], nUuid), View();
        var more := DropService(advServices[i], xs[i]);
        D.DatagramsConcat(O.Withdraw(st.disc, nUuid, xs[..i]).sent, o.sent);
        O.RetireNext(st, nUuid, v, xs, i);
        sent := sent + more;
      }
      assert xs[..|xs|] == xs;
    }

    // ~Node: everything the node had in the subscriptions, the repliers and the message table is gone and
    // nothing else, its rows in the service table included.  One UNADV goes out for each topic it has a
    // row of that others may see.
    method Destroy() returns (sent: seq<string>, ghost msgs: seq<Message>)
      requires Valid()
      modifies this, shared.localSubscriptions`data, shared.repliers`data
      modifies shared.discovery.infoMsg, shared.discovery.infoSrv
      ensures Valid() && topicsSubscribed == topicsAdvertised == srvsAdvertised == {}
      ensures shared.Stores() == O.Destroyed(old(shared.Stores()), nUuid)
      ensures sent == D.Datagrams(msgs)
      ensures forall m :: m in msgs <==> exists t :: O.Owes(old(shared.Stores()).disc, nUuid, t, m)
      ensures forall t :: NoRow(Vec(shared.discovery.infoMsg.data, t, shared.discovery.pUuid), nUuid)
      ensures forall k | k in HS.Flat(shared.localSubscriptions.data) :: k.node != nUuid
      ensures forall k | k in HS.Flat(shared.repliers.data) :: k.node != nUuid
      ensures shared.discovery.infoSrv.data == old(shared.discovery.infoSrv.data)
      ensures forall o: Node | old(allocated(o)) && OtherBefore(o) :: o.Valid()
    {
      sent, msgs := Clear();
      O.NothingOwned(shared.localSubscriptions.data, nUuid);
      O.NothingOwned(shared.repliers.data, nUuid);
      forall o: Node | old(allocated(o)) && OtherBefore(o) ensures o.Valid() {
        O.DestroyedAccounted(old(shared.Stores()), nUuid, o.nUuid, old(o.View()));
      }
    }

    // The three loops.
    method Clear() returns (sent: seq<string>, ghost msgs: seq<Message>)
      requires Valid()
      modifies this, shared.localSubscriptions`data, shared.repliers`data
      modifies shared.discovery.infoMsg, shared.discovery.infoSrv
      ensures Valid() && topicsSubscribed == topicsAdvertised == srvsAdvertised == {}
      ensures shared.Stores() == O.Destroyed(old(shared.Stores()), nUuid)
      ensures sent == D.Datagrams(msgs)
      ensures forall m :: m in msgs <==> exists t :: O.Owes(old(shared.Stores()).disc, nUuid, t, m)
    {
      ghost var xs := DrainSubscriptions();
      ghost var ys;
      sent, ys := DrainTopics();
      ghost var zs;
      var more;
      more, zs := DrainServices();
      O.DestroyedInOrder(old(shared.Stores()), nUuid, old(View()), xs, ys, zs);
      msgs := O.Withdraw(old(shared.Stores()).disc, nUuid, ys).sent;
      assert more == [];
      sent := sent + more;
    }

    // ---- Listings ----

    // The topics of discovery whose partition is this node's, without it.
    method GetTopicList() returns (topics: seq<string>)
      ensures topics == ListNames(partition, TopicStorage.TopicsOf(shared.discovery.infoMsg.data))
    {
      var all := shared.discovery.infoMsg.GetTopicList([]);
      assert all == TopicStorage.TopicsOf(shared.discovery.infoMsg.data);
      topics := ListEach(partition, all);
    }

    method GetServiceList() returns (services: seq<string>)
      ensures services == ListNames(partition, TopicStorage.TopicsOf(shared.discovery.infoSrv.data))
    {
      var all := shared.discovery.infoSrv.GetTopicList([]);
      assert all == TopicStorage.TopicsOf(shared.discovery.infoSrv.data);
      services := ListEach(partition, all);
    }

    method AdvertisedTopics() returns (v: seq<string>, ghost xs: seq<string>)
      ensures |v| == |topicsAdvertised| && forall s :: s in v <==> exists x :: x in topicsAdvertised && Stripped(x) == s
      ensures Strips(topicsAdvertised, v, xs)
    {
      v, xs := StripAll(topicsAdvertised);
    }

    method SubscribedTopics() returns (v: seq<string>, ghost xs: seq<string>)
      ensures |v| == |topicsSubscribed| && forall s :: s in v <==> exists x :: x in topicsSubscribed && Stripped(x) == s
      ensures Strips(topicsSubscribed, v, xs)
    {
      v, xs := StripAll(topicsSubscribed);
    }

    method AdvertisedServices() returns (v: seq<string>, ghost xs: seq<string>)
      ensures |v| == |srvsAdvertised| && forall s :: s in v <==> exists x :: x in srvsAdvertised && Stripped(x) == s
      ensures Strips(srvsAdvertised, v, xs)
    {
      v, xs := StripAll(srvsAdvertised);
    }
  }

  // xs lists the names, each once, and v is xs without the partitions.
  ghost predicate Strips(names: set<string>, v: seq<string>, xs: seq<string>) {
    |v| == |xs| && (forall i | 0 <= i < |v| :: v[i] == Stripped(xs[i])) && O.Each(xs, names)
  }

  // The names that pass, stripped, in order.
  function Select(keep: string -> bool, strip: string -> string, xs: seq<string>): seq<string> {
    if xs == [] then [] else (if keep(xs[0]) then [strip(xs[0])] else []) + Select(keep, strip, xs[1..])
  }

  lemma {:induction false} SelectNext(keep: string -> bool, strip: string -> string, xs: seq<string>, i: nat)
    requires i < |xs|
    ensures Select(keep, strip, xs[..i + 1])
         == Select(keep, strip, xs[..i]) + if keep(xs[i]) then [strip(xs[i])] else []
    decreases i
  {
    if i == 0 {
      assert xs[..1][1..] == [];
    } else {
      SelectNext(keep, strip, xs[1..], i - 1);
      assert xs[..i + 1][1..] == xs[1..][..i] && xs[..i][1..] == xs[1..][..i - 1];
    }
  }

  lemma {:induction false} SelectMembers(keep: string -> bool, strip: string -> string, xs: seq<string>, s: string)
    ensures s in Select(keep, strip, xs) <==> exists x :: x in xs && keep(x) && strip(x) == s
  {
    if xs != [] {
      SelectMembers(keep, strip, xs[1..], s);
      assert forall x :: x in xs <==> x == xs[0] || x in xs[1..];
    }
  }

  // In the order of xs, one for each that passes.
  ghost predicate Selects(keep: string -> bool, strip: string -> string, xs: seq<string>, ys: seq<string>,
                          js: seq<nat>)
  {
    && |ys| == |js| && (forall i, j | 0 <= i < j < |js| :: js[i] < js[j])
    && (forall j | 0 <= j < |js| :: js[j] < |xs| && keep(xs[js[j]]) && ys[j] == strip(xs[js[j]]))
    && forall i: nat | i < |xs| && keep(xs[i]) :: i in js
  }

  lemma {:induction false} SelectOrdered(keep: string -> bool, strip: string -> string, xs: seq<string>, n: nat)
    returns (js: seq<nat>)
    requires n <= |xs|
    ensures Selects(keep, strip, xs[..n], Select(keep, strip, xs[..n]), js)
    decreases n
  {
    if n == 0 {
      js := [];
    } else {
      var before := SelectOrdered(keep, strip, xs, n - 1);
      SelectNext(keep, strip, xs, n - 1);
      js := before + if keep(xs[n - 1]) then [n - 1] else [];
      forall i: nat | i < n && keep(xs[i]) ensures i in js {
        if i < n - 1 {
          assert xs[..n - 1][i] == xs[i];
        }
      }
    }
  }

  function ListNames(partition: string, names: seq<string>): seq<string> {
    Select(x => Listed(partition, x), x => Stripped(x), names)
  }

  // GetTopicList names s exactly if discovery knows a topic with this partition that strips to s.
  lemma ListNamesMembers(partition: string, names: seq<string>, s: string)
    ensures s in ListNames(partition, names) <==> exists x :: x in names && Listed(partition, x) && Stripped(x) == s
  {
    SelectMembers(x => Listed(partition, x), x => Stripped(x), names, s);
  }

  // The listing keeps the order and has one name for each topic that passes.
  lemma ListNamesOrdered(partition: string, names: seq<string>) returns (js: seq<nat>)
    ensures Selects(x => Listed(partition, x), x => Stripped(x), names, ListNames(partition, names), js)
  {
    js := SelectOrdered(x => Listed(partition, x), x => Stripped(x), names, |names|);
    assert names[..|names|] == names;
  }

  method ListEach(partition: string, all: seq<string>) returns (topics: seq<string>)
    ensures topics == ListNames(partition, all)
  {
    topics := [];
    for i := 0 to |all|
      invariant topics == ListNames(partition, all[..i])
    {
      SelectNext(x => Listed(partition, x), x => Stripped(x), all, i);
      var p := PartitionOf(all[i]);
      if p != "" {
        p := p[1..];
      }
      if p != partition {
        continue;
      }
      topics := topics + [Stripped(all[i])];
    }
    assert all[..|all|] == all;
  }

  // Iterating an unordered set.
  method StripAll(names: set<string>) returns (v: seq<string>, ghost xs: seq<string>)
    ensures |v| == |names| && forall s :: s in v <==> exists x :: x in names && Stripped(x) == s
    ensures Strips(names, v, xs)
  {
    v, xs := StripEach(names);
    StripsMembers(names, v, xs);
  }

  method StripEach(names: set<string>) returns (v: seq<string>, ghost xs: seq<string>)
    ensures |v| == |names| && Strips(names, v, xs)
  {
    v, xs := [], [];
    var rest := names;
    ghost var done: set<string> := {};
    while rest != {}
      invariant done <= names && rest == names - done && Strips(done, v, xs) && |v| == |done|
      decreases rest
    {
      var x :| x in rest;
      StripsNext(done, v, xs, x);
      rest, done := rest - {x}, done + {x};
      v, xs := v + [Stripped(x)], xs + [x];
    }
    assert done == names;
  }

  lemma StripsMembers(names: set<string>, v: seq<string>, xs: seq<string>)
    requires Strips(names, v, xs)
    ensures forall s :: s in v <==> exists x :: x in names && Stripped(x) == s
  {
    forall x | x in names ensures Stripped(x) in v {
      var j :| 0 <= j < |xs| && xs[j] == x;
      assert v[j] == Stripped(x);
    }
    forall s | s in v ensures exists x :: x in names && Stripped(x) == s {
      var j :| 0 <= j < |v| && v[j] == s;
      assert xs[j] in O.Later(xs, 0);
    }
  }

  lemma StripsNext(names: set<string>, v: seq<string>, xs: seq<string>, x: string)
    requires Strips(names, v, xs) && x !in names
    ensures Strips(names + {x}, v + [Stripped(x)], xs + [x])
  {
    forall i | 0 <= i < |xs| ensures xs[i] != x && xs[i] in names {
      assert xs[i] in O.Later(xs, 0);
    }
    var ys := xs + [x];
    forall y ensures y in O.Later(ys, 0) <==> y in names + {x} {
      if y in names {
        var j :| 0 <= j < |xs| && xs[j] == y;
        assert ys[j] == y;
      }
      assert ys[|xs|] == x;
    }
  }
}
