// Two processes p and q whose p-to-q traffic is a lossless FIFO queue from the start.  Nothing is
// assumed about the rest of the network: both may take any local step and receive anything at all
// from anybody else.
module Agreement {
  import opened Types
  import opened Wire
  import opened TopicTable
  import opened Ordering
  import opened Messages
  import opened Protocol
  import opened Network

  // gone: p's destructor has sent BYE; from then on p has no rows of its own.
  datatype Link = Link(p: State, q: State, queue: seq<Message>, gone: bool)

  datatype Move = Sender(i: Input) | Receiver(i: Input) | Delivery(now: int)

  // What is assumed of the run: p does nothing after its BYE, q does not hear p from elsewhere and does
  // not find it expired, and only what is queued is delivered.
  ghost predicate Sound(l: Link, x: Move) {
    match x
    case Sender(i) => !l.gone
    case Receiver(i) =>
      (i.Recv? ==> i.msg.pUuid != l.p.me.pUuid)
      && (i.DoActivity? && l.p.me.pUuid in l.q.activity ==>
            !Expired(l.q.activity[l.p.me.pUuid], i.now, l.q.me.silence))
    case Delivery(_) => l.queue != []
  }

  ghost function Do(l: Link, x: Move): Link {
    match x
    case Sender(i) =>
      var o := Step(l.p, i);
      l.(p := o.next, queue := l.queue + o.sent, gone := l.gone || i.DoExit?)
    case Receiver(i) => l.(q := Step(l.q, i).next)
    case Delivery(now) =>
      if l.queue == [] then l else
        l.(q := Receive(l.q, l.p.me.hostAddr, Transmit(l.queue[0]), now).next, queue := l.queue[1..])
  }

  ghost function After(l: Link, xs: seq<Move>): Link
    decreases |xs|
  {
    if xs == [] then l else Do(After(l, xs[..|xs| - 1]), xs[|xs| - 1])
  }

  // Before each move: the run is sound and the call, if it is one of p's, keeps agreement.
  ghost predicate Allowed(l: Link, x: Move) {
    Sound(l, x) && (x.Sender? ==> CallAgrees(l.p, x.i, l.q.me.hostAddr))
  }

  ghost predicate AllAllowed(l: Link, xs: seq<Move>) {
    forall i | 0 <= i < |xs| :: Allowed(After(l, xs[..i]), xs[i])
  }

  // ---- Which calls keep agreement ----

  // Advertise keeps agreement if its own scope hides it from the receiver, or if the receiver takes it
  // exactly when the sender does: for a new row when Pack accepts it, for a row the sender has already
  // (whose scope stays as it was) when the receiver can see that one or Pack refuses.
  ghost predicate AdvertiseAgrees(own: seq<Address>, t: string, a: Address, ip: string, host: string) {
    Hidden(a.scope, ip, host)
    || if Known(own, a.addr, a.nUuid)
       then Known(Visible(own, ip, host), a.addr, a.nUuid) || !BaseComplete(BaseValue(t, a))
       else BaseComplete(BaseValue(t, a))
  }

  // Unadvertise sends the first row of the node: it keeps agreement if that one is visible and complete,
  // or if the receiver sees no row of the node anyway.
  ghost predicate UnadvertiseAgrees(own: seq<Address>, t: string, n: string, ip: string, host: string) {
    match First(own, n)
    case None => true
    case Some(inf) =>
      (!Hidden(inf.scope, ip, host) && BaseComplete(BaseValue(t, inf))) || NoRow(Visible(own, ip, host), n)
  }

  ghost predicate CallAgrees(s: State, i: Input, host: string) {
    match i
    case DoAdvertise(k, t, a) => AdvertiseAgrees(Vector(s, k, t, s.me.pUuid), t, a, s.me.hostAddr, host)
    case DoUnadvertise(k, t, n) => UnadvertiseAgrees(Vector(s, k, t, s.me.pUuid), t, n, s.me.hostAddr, host)
    case _ => true
  }

  // ---- The statement ----

  function Visible(v: seq<Address>, fromIp: string, hostAddr: string): seq<Address> {
    if v == [] then [] else
      (if Hidden(v[0].scope, fromIp, hostAddr) then [] else [v[0]]) + Visible(v[1..], fromIp, hostAddr)
  }

  // Rows v after the queued datagrams have been applied.
  ghost function Pending(ms: seq<Message>, k: Kind, t: string, fromIp: string, hostAddr: string,
                         v: seq<Address>): seq<Address> {
    if ms == [] then v else
      Pending(ms[1..], k, t, fromIp, hostAddr, Effect(Transmit(ms[0]), k, t, fromIp, hostAddr, v))
  }

  ghost function Own(l: Link, k: Kind, t: string): seq<Address> {
    if l.gone then [] else Vector(l.p, k, t, l.p.me.pUuid)
  }

  ghost predicate AgreeOn(l: Link, k: Kind, t: string) {
    Pending(l.queue, k, t, l.p.me.hostAddr, l.q.me.hostAddr, Vector(l.q, k, t, l.p.me.pUuid))
      == Visible(Own(l, k, t), l.p.me.hostAddr, l.q.me.hostAddr)
  }

  ghost predicate LinkInv(l: Link) {
    && Inv(l.p) && Inv(l.q) && l.p.me.pUuid != l.q.me.pUuid && l.p.me.pUuid != ""
    && (forall i | 0 <= i < |l.queue| :: l.queue[i].pUuid == l.p.me.pUuid)
    && AgreeAll(l)
  }

  ghost predicate AgreeAll(l: Link) {
    forall k, t :: AgreeOn(l, k, t)
  }

  ghost predicate LinkStart(l: Link) {
    Fresh(l.p) && Fresh(l.q) && l.p.me.pUuid != l.q.me.pUuid && l.p.me.pUuid != "" && l.queue == [] && !l.gone
  }

  // ---- Facts about the filters ----

  lemma {:induction false} VisibleMember(v: seq<Address>, ip: string, host: string)
    ensures forall a :: a in Visible(v, ip, host) <==> a in v && !Hidden(a.scope, ip, host)
  {
    if v != [] {
      VisibleMember(v[1..], ip, host);
      assert forall a :: a in v <==> a == v[0] || a in v[1..];
    }
  }

  lemma {:induction false} VisibleAppend(v: seq<Address>, a: Address, ip: string, host: string)
    ensures Visible(v + [a], ip, host) == Visible(v, ip, host) + (if Hidden(a.scope, ip, host) then [] else [a])
  {
    if v == [] {
      assert v + [a] == [a];
    } else {
      VisibleAppend(v[1..], a, ip, host);
      assert (v + [a])[0] == v[0] && (v + [a])[1..] == v[1..] + [a];
      var seen := if Hidden(v[0].scope, ip, host) then [] else [v[0]];
      var more := if Hidden(a.scope, ip, host) then [] else [a];
      Associates(seen, Visible(v[1..], ip, host), more);
    }
  }

  // Hiding and dropping a node are filters: their order does not matter.
  lemma {:induction false} VisibleWithout(v: seq<Address>, n: string, ip: string, host: string)
    ensures Visible(Without(v, n), ip, host) == Without(Visible(v, ip, host), n)
  {
    if v != [] {
      var w := Without(v[1..], n);
      VisibleWithout(v[1..], n, ip, host);
      WithoutHead(v, n, ip, host);
    }
  }

  lemma WithoutHead(v: seq<Address>, n: string, ip: string, host: string)
    requires v != []
    requires Visible(Without(v[1..], n), ip, host) == Without(Visible(v[1..], ip, host), n)
    ensures Visible(Without(v, n), ip, host) == Without(Visible(v, ip, host), n)
  {
    var w, x := Without(v[1..], n), Visible(v[1..], ip, host);
    assert ([v[0]] + w)[1..] == w && ([v[0]] + x)[1..] == x;
    assert [] + w == w && [] + x == x;
  }

  lemma KnownMember(v: seq<Address>, addr: string, n: string)
    ensures Known(v, addr, n) <==> exists a :: a in v && a.addr == addr && a.nUuid == n
  {
  }

  lemma {:induction false} PendingConcat(xs: seq<Message>, ys: seq<Message>, k: Kind, t: string, ip: string,
                                         host: string, v: seq<Address>)
    ensures Pending(xs + ys, k, t, ip, host, v) == Pending(ys, k, t, ip, host, Pending(xs, k, t, ip, host, v))
  {
    if xs == [] {
      assert xs + ys == ys;
    } else {
      assert (xs + ys)[0] == xs[0] && (xs + ys)[1..] == xs[1..] + ys;
      PendingConcat(xs[1..], ys, k, t, ip, host, Effect(Transmit(xs[0]), k, t, ip, host, v));
    }
  }

  // ---- What p sends tells the receiver exactly how p's visible rows change ----

  // A message that repeats what the receiver knows: a heartbeat, a request, or an ADV of a stored row.
  ghost predicate Redundant(m: Message, k: Kind, t: string, own: seq<Address>) {
    !m.Unadv? && !m.Bye? && (m.Adv? && m.kind == k && m.topic == t ==> m.info in own)
  }

  lemma {:induction false} RedundantPending(ms: seq<Message>, k: Kind, t: string, ip: string, host: string,
                                            own: seq<Address>)
    requires forall m | m in ms :: Redundant(m, k, t, own) && m.pUuid != ""
    ensures Pending(ms, k, t, ip, host, Visible(own, ip, host)) == Visible(own, ip, host)
  {
    if ms != [] {
      var m := ms[0];
      var v := Visible(own, ip, host);
      if m.Adv? && !Hidden(Transmit(m).info.scope, ip, host) && m.kind == k && m.topic == t {
        VisibleMember(own, ip, host);
        KnownMember(v, m.info.addr, m.info.nUuid);
      }
      assert Effect(Transmit(m), k, t, ip, host, v) == v;
      RedundantPending(ms[1..], k, t, ip, host, own);
    }
  }

  lemma PendingOne(m: Message, k: Kind, t: string, ip: string, host: string, v: seq<Address>)
    ensures Pending([m], k, t, ip, host, v) == Effect(Transmit(m), k, t, ip, host, v)
  {
  }

  // The visible rows move from own to own' when the receiver applies ms.
  ghost predicate Tells(ms: seq<Message>, k: Kind, t: string, ip: string, host: string, own: seq<Address>,
                        own': seq<Address>) {
    Pending(ms, k, t, ip, host, Visible(own, ip, host)) == Visible(own', ip, host)
  }

  lemma PendingNone(k: Kind, t: string, ip: string, host: string, v: seq<Address>)
    ensures Pending([], k, t, ip, host, v) == v
  {
  }

  lemma AdvertiseTells(s: State, i: Input, k: Kind, t: string, host: string)
    requires i.DoAdvertise? && s.me.pUuid != ""
    ensures Tells(Step(s, i).sent, k, t, s.me.hostAddr, host,
                  Vector(s, k, t, s.me.pUuid), OwnEffect(i, k, t, Vector(s, k, t, s.me.pUuid)))
       <==> (i.kind == k && i.topic == t ==> CallAgrees(s, i, host))
  {
    var own, ip, a := Vector(s, k, t, s.me.pUuid), s.me.hostAddr, i.info;
    var v := Visible(own, ip, host);
    VisibleMember(own, ip, host);
    VisibleAppend(own, a, ip, host);
    KnownMember(own, a.addr, a.nUuid);
    KnownMember(v, a.addr, a.nUuid);
    if a.scope == Process {
      PendingNone(k, t, ip, host, v);
    } else {
      PendingOne(Adv(i.kind, s.me.pUuid, i.topic, a), k, t, ip, host, v);
    }
  }

  lemma WithoutSame(v: seq<Address>, n: string)
    ensures Without(v, n) == v <==> NoRow(v, n)
  {
    WithoutMember(v, n);
    if NoRow(v, n) {
      WithoutAbsent(v, n);
    }
  }

  // The receiver's side of an Unadvertise of the topic whose first row of the node is inf.
  lemma UnadvEffect(own: seq<Address>, inf: Address, m: Message, ip: string, host: string)
    requires m.Unadv? && m.pUuid != "" && m.info == inf
    ensures Effect(Transmit(m), m.kind, m.topic, ip, host, Visible(own, ip, host))
         == Visible(Without(own, inf.nUuid), ip, host)
       <==> (!Hidden(inf.scope, ip, host) && BaseComplete(BaseValue(m.topic, inf)))
            || NoRow(Visible(own, ip, host), inf.nUuid)
  {
    VisibleWithout(own, inf.nUuid, ip, host);
    WithoutSame(Visible(own, ip, host), inf.nUuid);
  }

  lemma UnadvertiseTells(s: State, i: Input, k: Kind, t: string, host: string)
    requires i.DoUnadvertise? && s.me.pUuid != ""
    ensures Tells(Step(s, i).sent, k, t, s.me.hostAddr, host,
                  Vector(s, k, t, s.me.pUuid), OwnEffect(i, k, t, Vector(s, k, t, s.me.pUuid)))
       <==> (i.kind == k && i.topic == t ==> CallAgrees(s, i, host))
  {
    var own, ip, n := Vector(s, k, t, s.me.pUuid), s.me.hostAddr, i.nUuid;
    var v := Visible(own, ip, host);
    match First(Vector(s, i.kind, i.topic, s.me.pUuid), n)
    case None =>
      PendingNone(k, t, ip, host, v);
      if i.kind == k && i.topic == t {
        WithoutAbsent(own, n);
      }
    case Some(inf) =>
      var m := Unadv(i.kind, s.me.pUuid, i.topic, inf.(nUuid := n));
      assert m.info == inf;
      UnadvEffect(own, inf, m, ip, host);
      PendingNone(k, t, ip, host, v);
      PendingOne(m, k, t, ip, host, v);
  }

  lemma OtherTells(s: State, i: Input, k: Kind, t: string, host: string)
    requires Inv(s) && s.me.pUuid != "" && !LocalUpdate(i) && !i.DoExit?
    ensures Tells(Step(s, i).sent, k, t, s.me.hostAddr, host, Vector(s, k, t, s.me.pUuid), Vector(s, k, t, s.me.pUuid))
  {
    SentTruthful(s, i);
    var own := Vector(s, k, t, s.me.pUuid);
    forall m | m in Step(s, i).sent ensures Redundant(m, k, t, own) && m.pUuid != "" {
      assert Truthful(s, i, m);
    }
    RedundantPending(Step(s, i).sent, k, t, s.me.hostAddr, host, own);
  }

  // ---- Every move keeps the agreement ----

  lemma SenderTells(s: State, i: Input, k: Kind, t: string, host: string)
    requires Inv(s) && s.me.pUuid != "" && !i.DoExit?
    ensures Tells(Step(s, i).sent, k, t, s.me.hostAddr, host,
                  Vector(s, k, t, s.me.pUuid), Vector(Step(s, i).next, k, t, s.me.pUuid))
       <==> (LocalUpdate(i) && i.kind == k && i.topic == t ==> CallAgrees(s, i, host))
  {
    StepOwn(s, i, k, t);
    match i
    case DoAdvertise(_, _, _) => AdvertiseTells(s, i, k, t, host);
    case DoUnadvertise(_, _, _) => UnadvertiseTells(s, i, k, t, host);
    case _ => OtherTells(s, i, k, t, host);
  }

  lemma SenderAgrees(l: Link, i: Input, k: Kind, t: string)
    requires LinkInv(l) && !l.gone
    requires Step(l.p, i).next.me == l.p.me
    ensures AgreeOn(Do(l, Sender(i)), k, t)
       <==> (LocalUpdate(i) && i.kind == k && i.topic == t ==> CallAgrees(l.p, i, l.q.me.hostAddr))
  {
    var s := l.p;
    var ip, host := s.me.hostAddr, l.q.me.hostAddr;
    assert AgreeOn(l, k, t);
    PendingConcat(l.queue, Step(s, i).sent, k, t, ip, host, Vector(l.q, k, t, s.me.pUuid));
    if i.DoExit? {
      PendingOne(Bye(s.me.pUuid), k, t, ip, host, Visible(Own(l, k, t), ip, host));
    } else {
      SenderTells(s, i, k, t, host);
    }
  }

  // Exactly which of p's steps keep agreement, wherever there is agreement.
  lemma SenderAgreesIff(l: Link, i: Input)
    requires LinkInv(l) && !l.gone
    ensures AgreeAll(Do(l, Sender(i))) <==> CallAgrees(l.p, i, l.q.me.hostAddr)
  {
    StepKeepsInv(l.p, i);
    forall k, t
      ensures AgreeOn(Do(l, Sender(i)), k, t)
         <==> (LocalUpdate(i) && i.kind == k && i.topic == t ==> CallAgrees(l.p, i, l.q.me.hostAddr))
    {
      SenderAgrees(l, i, k, t);
    }
    if LocalUpdate(i) && AgreeAll(Do(l, Sender(i))) {
      assert AgreeOn(Do(l, Sender(i)), i.kind, i.topic);
    }
  }

  lemma SenderKeeps(l: Link, i: Input)
    requires LinkInv(l) && Allowed(l, Sender(i))
    ensures LinkInv(Do(l, Sender(i)))
  {
    StepKeepsInv(l.p, i);
    SenderQueue(l, i);
    SenderAgreesIff(l, i);
  }

  lemma SenderQueue(l: Link, i: Input)
    requires forall j | 0 <= j < |l.queue| :: l.queue[j].pUuid == l.p.me.pUuid
    ensures var l' := Do(l, Sender(i)); forall j | 0 <= j < |l'.queue| :: l'.queue[j].pUuid == l.p.me.pUuid
  {
    SentTruthful(l.p, i);
    var sent := Step(l.p, i).sent;
    forall j | 0 <= j < |sent| ensures sent[j].pUuid == l.p.me.pUuid {
      assert Truthful(l.p, i, sent[j]);
    }
  }

  lemma ReceiverKeeps(l: Link, i: Input)
    requires LinkInv(l) && Sound(l, Receiver(i))
    ensures LinkInv(Do(l, Receiver(i)))
  {
    StepKeepsInv(l.q, i);
    forall k, t ensures AgreeOn(Do(l, Receiver(i)), k, t) {
      assert AgreeOn(l, k, t);
      OthersRowsStay(l.q, i, k, t, l.p.me.pUuid);
    }
  }

  // q's rows for p move only on datagrams from p or when p expires.
  lemma OthersRowsStay(s: State, i: Input, k: Kind, t: string, p: string)
    requires Inv(s) && p != s.me.pUuid
    requires i.Recv? ==> i.msg.pUuid != p
    requires i.DoActivity? && p in s.activity ==> !Expired(s.activity[p], i.now, s.me.silence)
    ensures Vector(Step(s, i).next, k, t, p) == Vector(s, k, t, p)
  {
    match i
    case DoAdvertise(_, _, _) => LocalVec(s, i);
    case DoUnadvertise(_, _, _) => LocalVec(s, i);
    case DoActivity(now) =>
      if s.me.cbs.disconnection {
        ActivityOverMeaning(s, Keys(s.activity.Keys), now);
      } else {
        ActivityOverThrows(s, Keys(s.activity.Keys), now);
      }
    case Recv(ip, m, now) => ReceiveVec(s, ip, m, now);
    case _ =>
  }

  lemma DeliveryKeeps(l: Link, now: int)
    requires LinkInv(l) && l.queue != []
    ensures LinkInv(Do(l, Delivery(now)))
  {
    var m := Transmit(l.queue[0]);
    assert m.pUuid == l.p.me.pUuid;
    ReceiveVec(l.q, l.p.me.hostAddr, m, now);
    ReceiveKeepsInv(l.q, l.p.me.hostAddr, m, now);
    forall k, t ensures AgreeOn(Do(l, Delivery(now)), k, t) {
      assert AgreeOn(l, k, t);
    }
  }

  lemma AllowedBefore(l: Link, xs: seq<Move>)
    requires xs != [] && AllAllowed(l, xs)
    ensures AllAllowed(l, xs[..|xs| - 1]) && Allowed(After(l, xs[..|xs| - 1]), xs[|xs| - 1])
  {
    var ys := xs[..|xs| - 1];
    forall i | 0 <= i < |ys| ensures Allowed(After(l, ys[..i]), ys[i]) {
      assert ys[..i] == xs[..i];
      assert Allowed(After(l, xs[..i]), xs[i]);
    }
  }

  lemma {:induction false} AgreementInvariant(l: Link, xs: seq<Move>)
    requires LinkStart(l) && AllAllowed(l, xs)
    ensures LinkInv(After(l, xs))
    decreases |xs|
  {
    if xs == [] {
      FreshInv(l.p);
      FreshInv(l.q);
    } else {
      var ys, x := xs[..|xs| - 1], xs[|xs| - 1];
      AllowedBefore(l, xs);
      AgreementInvariant(l, ys);
      match x
      case Sender(i) => SenderKeeps(After(l, ys), i);
      case Receiver(i) => ReceiverKeeps(After(l, ys), i);
      case Delivery(now) => DeliveryKeeps(After(l, ys), now);
    }
  }

  // Applying what is still queued to q's rows for p always gives exactly p's own rows, filtered by
  // scope and host, in order and in every field; with nothing queued, q holds exactly those.
  lemma AgreementTheorem(l: Link, xs: seq<Move>, k: Kind, t: string)
    requires LinkStart(l) && AllAllowed(l, xs)
    ensures var e := After(l, xs); var ip, host := e.p.me.hostAddr, e.q.me.hostAddr;
            && Pending(e.queue, k, t, ip, host, Vector(e.q, k, t, e.p.me.pUuid)) == Visible(Own(e, k, t), ip, host)
            && (e.queue == [] ==> Vector(e.q, k, t, e.p.me.pUuid) == Visible(Own(e, k, t), ip, host))
  {
    AgreementInvariant(l, xs);
    assert AgreeOn(After(l, xs), k, t);
  }

  // And no more can be had: after any such run, the next call of p keeps agreement exactly if CallAgrees.
  lemma AgreementExact(l: Link, xs: seq<Move>, i: Input)
    requires LinkStart(l) && AllAllowed(l, xs) && !After(l, xs).gone
    ensures AgreeAll(After(l, xs + [Sender(i)])) <==> CallAgrees(After(l, xs).p, i, After(l, xs).q.me.hostAddr)
  {
    AgreementInvariant(l, xs);
    AfterNext(l, xs, Sender(i));
    SenderAgreesIff(After(l, xs), i);
  }

  lemma AfterNext(l: Link, xs: seq<Move>, x: Move)
    ensures After(l, xs + [x]) == Do(After(l, xs), x)
  {
    assert (xs + [x])[..|xs|] == xs;
  }

  // ---- One scope per node and topic suffices ----

  // What a caller may stick to: complete addresses, and one scope for each node and topic.
  type Policy = (Kind, string, string) -> Scope

  ghost predicate Decent(k: Kind, t: string, a: Address, policy: Policy) {
    BaseComplete(BaseValue(t, a)) && a.scope == policy(k, t, a.nUuid)
  }

  ghost predicate OwnOk(s: State, policy: Policy) {
    forall k, t, a | a in Vector(s, k, t, s.me.pUuid) :: Decent(k, t, a, policy)
  }

  ghost predicate DecentCall(i: Input, policy: Policy) {
    i.DoAdvertise? ==> Decent(i.kind, i.topic, i.info, policy)
  }

  lemma DecentAgrees(s: State, i: Input, host: string, policy: Policy)
    requires OwnOk(s, policy) && DecentCall(i, policy)
    ensures CallAgrees(s, i, host)
  {
    if LocalUpdate(i) {
      var own, ip := Vector(s, i.kind, i.topic, s.me.pUuid), s.me.hostAddr;
      assert forall a | a in own :: Decent(i.kind, i.topic, a, policy);
      VisibleMember(own, ip, host);
      if i.DoAdvertise? {
        KnownMember(own, i.info.addr, i.info.nUuid);
        KnownMember(Visible(own, ip, host), i.info.addr, i.info.nUuid);
      }
    }
  }

  lemma SenderOwn(s: State, i: Input, policy: Policy)
    requires Inv(s) && OwnOk(s, policy) && DecentCall(i, policy)
    ensures OwnOk(Step(s, i).next, policy)
  {
    StepKeepsInv(s, i);
    forall k, t, a | a in Vector(Step(s, i).next, k, t, s.me.pUuid) ensures Decent(k, t, a, policy) {
      StepRows(s, i, k, t, s.me.pUuid, a);
    }
  }

  ghost predicate DecentMove(l: Link, x: Move, policy: Policy) {
    Sound(l, x) && (x.Sender? ==> DecentCall(x.i, policy))
  }

  ghost predicate SoundAndDecent(l: Link, xs: seq<Move>, policy: Policy) {
    forall i | 0 <= i < |xs| :: DecentMove(After(l, xs[..i]), xs[i], policy)
  }

  lemma DecentBefore(l: Link, xs: seq<Move>, policy: Policy)
    requires xs != [] && SoundAndDecent(l, xs, policy)
    ensures SoundAndDecent(l, xs[..|xs| - 1], policy) && DecentMove(After(l, xs[..|xs| - 1]), xs[|xs| - 1], policy)
  {
    var ys := xs[..|xs| - 1];
    forall i | 0 <= i < |ys| ensures DecentMove(After(l, ys[..i]), ys[i], policy) {
      assert ys[..i] == xs[..i];
      assert DecentMove(After(l, xs[..i]), xs[i], policy);
    }
  }

  lemma AllowedNext(l: Link, xs: seq<Move>)
    requires xs != [] && AllAllowed(l, xs[..|xs| - 1]) && Allowed(After(l, xs[..|xs| - 1]), xs[|xs| - 1])
    ensures AllAllowed(l, xs)
  {
    var ys := xs[..|xs| - 1];
    forall i | 0 <= i < |xs| ensures Allowed(After(l, xs[..i]), xs[i]) {
      if i < |ys| {
        assert ys[..i] == xs[..i];
        assert Allowed(After(l, ys[..i]), ys[i]);
      } else {
        assert xs[..i] == ys;
      }
    }
  }

  lemma DecentIsAllowed(l: Link, x: Move, policy: Policy)
    requires LinkInv(l) && OwnOk(l.p, policy) && DecentMove(l, x, policy)
    ensures Allowed(l, x) && OwnOk(Do(l, x).p, policy)
  {
    if x.Sender? {
      DecentAgrees(l.p, x.i, l.q.me.hostAddr, policy);
      SenderOwn(l.p, x.i, policy);
    }
  }

  lemma {:induction false} PolicySuffices(l: Link, xs: seq<Move>, policy: Policy)
    requires LinkStart(l) && SoundAndDecent(l, xs, policy)
    ensures AllAllowed(l, xs) && OwnOk(After(l, xs).p, policy)
    decreases |xs|
  {
    if xs != [] {
      DecentBefore(l, xs, policy);
      PolicySuffices(l, xs[..|xs| - 1], policy);
      AgreementInvariant(l, xs[..|xs| - 1]);
      DecentIsAllowed(After(l, xs[..|xs| - 1]), xs[|xs| - 1], policy);
      AllowedNext(l, xs);
    }
  }

  // The source takes a scope with each call and checks nothing: advertise first with Process, then with
  // All under the same address, and the receiver learns of a row the sender keeps to itself.
  lemma ScopeChangeBreaks(l: Link, k: Kind, t: string, a: Address)
    requires LinkStart(l) && BaseComplete(BaseValue(t, a))
    ensures var first := Sender(DoAdvertise(k, t, a.(scope := Process)));
            var second := Sender(DoAdvertise(k, t, a.(scope := All)));
            AgreeAll(After(l, [first])) && !AgreeAll(After(l, [first, second]))
  {
    var i, j := DoAdvertise(k, t, a.(scope := Process)), DoAdvertise(k, t, a.(scope := All));
    assert [Sender(i)][..0] == [];
    assert AllAllowed(l, [Sender(i)]);
    AgreementInvariant(l, [Sender(i)]);
    assert After(l, [Sender(i)]) == Do(After(l, []), Sender(i));
    OwnAfterFirst(l.p, k, t, i.info, l.q.me.hostAddr);
    AgreementExact(l, [Sender(i)], j);
    assert [Sender(i)] + [Sender(j)] == [Sender(i), Sender(j)];
  }

  lemma OwnAfterFirst(s: State, k: Kind, t: string, a: Address, host: string)
    requires Fresh(s) && a.scope == Process
    ensures var s' := Step(s, DoAdvertise(k, t, a)).next;
            var own := Vector(s', k, t, s.me.pUuid);
            s'.me == s.me && Known(own, a.addr, a.nUuid) && Visible(own, s.me.hostAddr, host) == []
  {
    FreshInv(s);
    StepKeepsInv(s, DoAdvertise(k, t, a));
    StepOwn(s, DoAdvertise(k, t, a), k, t);
    var own := Vector(Step(s, DoAdvertise(k, t, a)).next, k, t, s.me.pUuid);
    assert Vector(s, k, t, s.me.pUuid) == [];
    assert own == [] + [a];
    assert own[0] == a && own[1..] == [];
  }
}
