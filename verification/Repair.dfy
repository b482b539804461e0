// Heartbeats repair what the network lost: one batch, whole, in whatever order and however often
// duplicated, brings a peer's rows for the sender up to date.
module Repair {
  import opened Types
  import opened Wire
  import opened TopicTable
  import opened Ordering
  import opened Messages
  import opened Protocol
  import opened Network
  import opened Agreement

  // q receives the datagrams of ms one after the other.
  ghost function ReceiveAll(q: State, ip: string, ms: seq<Message>, now: int): State
    decreases |ms|
  {
    if ms == [] then q else ReceiveAll(Receive(q, ip, Transmit(ms[0]), now).next, ip, ms[1..], now)
  }

  lemma {:induction false} ReceiveAllVec(q: State, ip: string, ms: seq<Message>, now: int, k: Kind, t: string,
                                         p: string)
    requires Inv(q) && p != q.me.pUuid && p != "" && forall m | m in ms :: m.pUuid == p
    ensures var q' := ReceiveAll(q, ip, ms, now);
            && Inv(q') && q'.me == q.me
            && Vector(q', k, t, p) == Pending(ms, k, t, ip, q.me.hostAddr, Vector(q, k, t, p))
            && forall k, t, r | r != p :: Vector(q', k, t, r) == Vector(q, k, t, r)
    decreases |ms|
  {
    if ms != [] {
      var m := Transmit(ms[0]);
      assert m.pUuid == ms[0].pUuid == p;
      ReceiveVec(q, ip, m, now);
      ReceiveKeepsInv(q, ip, m, now);
      ReceiveAllVec(Receive(q, ip, m, now).next, ip, ms[1..], now, k, t, p);
    }
  }

  // A message of a heartbeat batch.
  ghost predicate Gossip(m: Message, p: string) {
    m.pUuid == p && (m.Heartbeat? || m.Adv?)
  }

  // A row that reaches a peer at all: complete, and not hidden by its scope.
  ghost predicate Shown(t: string, a: Address, ip: string, host: string) {
    BaseComplete(BaseValue(t, a)) && !Hidden(a.scope, ip, host)
  }

  lemma GossipEffect(m: Message, p: string, k: Kind, t: string, ip: string, host: string, v: seq<Address>)
    requires Gossip(m, p) && p != ""
    ensures var w := Effect(Transmit(m), k, t, ip, host, v);
            w == if m.Adv? && m.kind == k && m.topic == t && Shown(t, m.info, ip, host)
                    && !Known(v, m.info.addr, m.info.nUuid)
                 then v + [m.info] else v
  {
  }

  lemma KnownAppend(v: seq<Address>, a: Address, addr: string, n: string)
    ensures Known(v + [a], addr, n) <==> Known(v, addr, n) || (a.addr == addr && a.nUuid == n)
  {
    var w := v + [a];
    if Known(v, addr, n) {
      var i :| 0 <= i < |v| && v[i].addr == addr && v[i].nUuid == n;
      assert w[i].addr == addr && w[i].nUuid == n;
    }
    if a.addr == addr && a.nUuid == n {
      assert w[|v|].addr == addr && w[|v|].nUuid == n;
    }
  }

  // Nothing known is forgotten, and every shown row of the batch becomes known.
  lemma {:induction false} PendingCovers(ms: seq<Message>, p: string, k: Kind, t: string, ip: string, host: string,
                                         v: seq<Address>, addr: string, n: string)
    requires p != "" && forall m | m in ms :: Gossip(m, p)
    ensures Known(v, addr, n) ==> Known(Pending(ms, k, t, ip, host, v), addr, n)
    ensures forall a | Adv(k, p, t, a) in ms && a.addr == addr && a.nUuid == n && Shown(t, a, ip, host) ::
              Known(Pending(ms, k, t, ip, host, v), addr, n)
  {
    if ms != [] {
      var m := ms[0];
      var w := Effect(Transmit(m), k, t, ip, host, v);
      GossipEffect(m, p, k, t, ip, host, v);
      if m.Adv? {
        KnownAppend(v, m.info, addr, n);
      }
      PendingCovers(ms[1..], p, k, t, ip, host, w, addr, n);
      assert forall x :: x in ms <==> x == m || x in ms[1..];
    }
  }

  // Nothing appears that the batch did not show.
  lemma {:induction false} PendingAddsOnly(ms: seq<Message>, p: string, k: Kind, t: string, ip: string, host: string,
                                           v: seq<Address>, b: Address)
    requires p != "" && forall m | m in ms :: Gossip(m, p)
    requires b in Pending(ms, k, t, ip, host, v)
    ensures b in v || (Adv(k, p, t, b) in ms && Shown(t, b, ip, host))
  {
    if ms != [] {
      var m := ms[0];
      GossipEffect(m, p, k, t, ip, host, v);
      PendingAddsOnly(ms[1..], p, k, t, ip, host, Effect(Transmit(m), k, t, ip, host, v), b);
      assert forall x | x in ms[1..] :: x in ms;
      assert m in ms;
    }
  }

  lemma {:induction false} PendingKeepsRows(ms: seq<Message>, p: string, k: Kind, t: string, ip: string,
                                            host: string, v: seq<Address>)
    requires p != "" && forall m | m in ms :: Gossip(m, p)
    ensures forall b | b in v :: b in Pending(ms, k, t, ip, host, v)
  {
    if ms != [] {
      var w := Effect(Transmit(ms[0]), k, t, ip, host, v);
      GossipEffect(ms[0], p, k, t, ip, host, v);
      PendingKeepsRows(ms[1..], p, k, t, ip, host, w);
      assert forall b | b in v :: b in w;
    }
  }

  // Once every shown row of the batch is known, the batch changes nothing.
  lemma {:induction false} PendingSettled(ms: seq<Message>, p: string, k: Kind, t: string, ip: string, host: string,
                                          v: seq<Address>)
    requires p != "" && forall m | m in ms :: Gossip(m, p)
    requires forall a | Adv(k, p, t, a) in ms && Shown(t, a, ip, host) :: Known(v, a.addr, a.nUuid)
    ensures Pending(ms, k, t, ip, host, v) == v
  {
    if ms != [] {
      var m := ms[0];
      GossipEffect(m, p, k, t, ip, host, v);
      if m.Adv? && m.kind == k && m.topic == t {
        assert m == Adv(k, p, t, m.info);
      }
      assert forall x | x in ms[1..] :: x in ms;
      PendingSettled(ms[1..], p, k, t, ip, host, v);
    }
  }

  // ms delivers p's whole heartbeat batch: every message of it at least once, and nothing else.
  ghost predicate WholeBatch(p: State, ms: seq<Message>) {
    forall m :: m in ms <==> m in HeartbeatBatch(p)
  }

  lemma BatchParts(p: State, m: Message)
    ensures m in HeartbeatBatch(p) <==>
            m == Heartbeat(p.me.pUuid) || m in OwnAdvertisements(p, Msg) || m in OwnAdvertisements(p, Srv)
  {
  }

  lemma BatchMember(p: State, m: Message)
    ensures m in HeartbeatBatch(p) <==>
            m == Heartbeat(p.me.pUuid)
            || (m.Adv? && m.pUuid == p.me.pUuid && m.info in Vector(p, m.kind, m.topic, p.me.pUuid))
  {
    BatchParts(p, m);
    OwnAdvertisementsAre(p, Msg);
    OwnAdvertisementsAre(p, Srv);
  }

  lemma BatchContents(p: State, ms: seq<Message>)
    requires WholeBatch(p, ms)
    ensures forall m | m in ms :: Gossip(m, p.me.pUuid)
    ensures forall k, t, a :: Adv(k, p.me.pUuid, t, a) in ms <==> a in Vector(p, k, t, p.me.pUuid)
  {
    forall m | m in ms ensures Gossip(m, p.me.pUuid) {
      BatchMember(p, m);
    }
    forall k, t, a ensures Adv(k, p.me.pUuid, t, a) in ms <==> a in Vector(p, k, t, p.me.pUuid) {
      BatchMember(p, Adv(k, p.me.pUuid, t, a));
    }
  }

  // p's own row that q must end up knowing.
  ghost predicate Owed(p: State, q: State, k: Kind, t: string, a: Address) {
    a in Vector(p, k, t, p.me.pUuid) && Shown(t, a, p.me.hostAddr, q.me.hostAddr)
  }

  // Whatever was lost before, q's rows for p now cover, by (topic, address, node), every row p owes it.
  lemma HeartbeatCovers(p: State, q: State, ms: seq<Message>, now: int, k: Kind, t: string, a: Address)
    requires Inv(p) && Inv(q) && p.me.pUuid != q.me.pUuid && p.me.pUuid != "" && WholeBatch(p, ms)
    requires Owed(p, q, k, t, a)
    ensures Known(Vector(ReceiveAll(q, p.me.hostAddr, ms, now), k, t, p.me.pUuid), a.addr, a.nUuid)
  {
    BatchContents(p, ms);
    ReceiveAllVec(q, p.me.hostAddr, ms, now, k, t, p.me.pUuid);
    PendingCovers(ms, p.me.pUuid, k, t, p.me.hostAddr, q.me.hostAddr, Vector(q, k, t, p.me.pUuid), a.addr, a.nUuid);
  }

  // If q held nothing but rows p owes it, it now holds exactly those, in every field.
  lemma HeartbeatRestores(p: State, q: State, ms: seq<Message>, now: int, k: Kind, t: string, a: Address)
    requires Inv(p) && Inv(q) && p.me.pUuid != q.me.pUuid && p.me.pUuid != "" && WholeBatch(p, ms)
    requires forall b | b in Vector(q, k, t, p.me.pUuid) :: Owed(p, q, k, t, b)
    ensures a in Vector(ReceiveAll(q, p.me.hostAddr, ms, now), k, t, p.me.pUuid) <==> Owed(p, q, k, t, a)
  {
    var me, ip, host := p.me.pUuid, p.me.hostAddr, q.me.hostAddr;
    var v := Vector(q, k, t, me);
    var w := Vector(ReceiveAll(q, ip, ms, now), k, t, me);
    BatchContents(p, ms);
    ReceiveAllVec(q, ip, ms, now, k, t, me);
    if a in w {
      PendingAddsOnly(ms, me, k, t, ip, host, v, a);
    }
    if Owed(p, q, k, t, a) {
      HeartbeatCovers(p, q, ms, now, k, t, a);
      KnownMember(w, a.addr, a.nUuid);
      var b :| b in w && b.addr == a.addr && b.nUuid == a.nUuid;
      PendingAddsOnly(ms, me, k, t, ip, host, v, b);
      SameIdentity(p, k, t, a, b);
    }
  }

  // Whatever q holds for p, right or wrong, a batch of p leaves in place.
  lemma HeartbeatKeeps(p: State, q: State, ms: seq<Message>, now: int, k: Kind, t: string)
    requires Inv(p) && Inv(q) && p.me.pUuid != q.me.pUuid && p.me.pUuid != "" && WholeBatch(p, ms)
    ensures forall b | b in Vector(q, k, t, p.me.pUuid) ::
              b in Vector(ReceiveAll(q, p.me.hostAddr, ms, now), k, t, p.me.pUuid)
  {
    BatchContents(p, ms);
    ReceiveAllVec(q, p.me.hostAddr, ms, now, k, t, p.me.pUuid);
    PendingKeepsRows(ms, p.me.pUuid, k, t, p.me.hostAddr, q.me.hostAddr, Vector(q, k, t, p.me.pUuid));
  }

  // A batch repairs q exactly if q held nothing but rows p owes it: whatever else it held, it still holds.
  lemma HeartbeatRestoresIff(p: State, q: State, ms: seq<Message>, now: int, k: Kind, t: string)
    requires Inv(p) && Inv(q) && p.me.pUuid != q.me.pUuid && p.me.pUuid != "" && WholeBatch(p, ms)
    ensures (forall a :: a in Vector(ReceiveAll(q, p.me.hostAddr, ms, now), k, t, p.me.pUuid) <==> Owed(p, q, k, t, a))
       <==> (forall b | b in Vector(q, k, t, p.me.pUuid) :: Owed(p, q, k, t, b))
  {
    var v := Vector(q, k, t, p.me.pUuid);
    if forall b | b in v :: Owed(p, q, k, t, b) {
      forall a ensures a in Vector(ReceiveAll(q, p.me.hostAddr, ms, now), k, t, p.me.pUuid) <==> Owed(p, q, k, t, a) {
        HeartbeatRestores(p, q, ms, now, k, t, a);
      }
    } else {
      HeartbeatKeeps(p, q, ms, now, k, t);
    }
  }

  // A row whose UNADV was lost: no batch of its process makes it go, and the tables stay apart.
  lemma LostUnadvStays(p: State, q: State, ms: seq<Message>, now: int, k: Kind, t: string, a: Address)
    requires Inv(p) && Inv(q) && p.me.pUuid != q.me.pUuid && p.me.pUuid != ""
    requires a in Vector(q, k, t, p.me.pUuid)
    requires WholeBatch(Unadvertise(p, k, t, a.nUuid).next, ms)
    ensures a in Vector(ReceiveAll(q, p.me.hostAddr, ms, now), k, t, p.me.pUuid)
    ensures !Owed(Unadvertise(p, k, t, a.nUuid).next, q, k, t, a)
  {
    UnadvertiseEmpties(p, k, t, a.nUuid);
    HeartbeatKeeps(Unadvertise(p, k, t, a.nUuid).next, q, ms, now, k, t);
  }

  lemma UnadvertiseEmpties(p: State, k: Kind, t: string, n: string)
    requires Inv(p)
    ensures var p' := Unadvertise(p, k, t, n).next;
            Inv(p') && p'.me == p.me && NoRow(Vector(p', k, t, p.me.pUuid), n)
  {
    StepKeepsInv(p, DoUnadvertise(k, t, n));
    LocalVec(p, DoUnadvertise(k, t, n));
    WithoutMember(Vector(p, k, t, p.me.pUuid), n);
  }

  // ---- What makes a row of another process go at all ----

  // A pass of q drops the rows of p: p has expired and, if q has no disconnection callback, is the first.
  ghost predicate DropsAll(q: State, p: string, now: int) {
    if q.me.cbs.disconnection then p in q.activity && Expired(q.activity[p], now, q.me.silence)
    else FirstExpired(q, Keys(q.activity.Keys), p, now)
  }

  // The input takes q's rows of node n of process p under the topic: an UNADV that passes the scope check, a
  // BYE, or a pass that finds p expired.
  ghost predicate Removes(q: State, i: Input, k: Kind, t: string, p: string, n: string) {
    match i
    case DoActivity(now) => DropsAll(q, p, now)
    case Recv(ip, m, now) =>
      && m.pUuid == p
      && (m.Bye? || (m.Unadv? && m.kind == k && m.topic == t && m.info.nUuid == n
                     && !Hidden(m.info.scope, ip, q.me.hostAddr)))
    case _ => false
  }

  lemma RowGoesIff(q: State, i: Input, k: Kind, t: string, p: string, a: Address)
    requires Inv(q) && p != q.me.pUuid && a in Vector(q, k, t, p)
    ensures a in Vector(Step(q, i).next, k, t, p) <==> !Removes(q, i, k, t, p, a.nUuid)
  {
    match i
    case DoAdvertise(_, _, _) => LocalVec(q, i);
    case DoUnadvertise(_, _, _) => LocalVec(q, i);
    case DoActivity(now) =>
      if q.me.cbs.disconnection {
        ActivityOverMeaning(q, Keys(q.activity.Keys), now);
      } else {
        ActivityOverStops(q, Keys(q.activity.Keys), now, k, t, p);
      }
    case Recv(ip, m, now) =>
      ReceiveVec(q, ip, m, now);
      if m.Unadv? {
        WithoutMember(Vector(q, k, t, p), m.info.nUuid);
      }
    case _ =>
  }

  ghost predicate Untouched(q: State, tr: seq<Input>, k: Kind, t: string, p: string, n: string) {
    forall j | 0 <= j < |tr| :: !Removes(Run(q, tr[..j]), tr[j], k, t, p, n)
  }

  lemma UntouchedBefore(q: State, tr: seq<Input>, k: Kind, t: string, p: string, n: string)
    requires tr != [] && Untouched(q, tr, k, t, p, n)
    ensures Untouched(q, tr[..|tr| - 1], k, t, p, n)
  {
    var ys := tr[..|tr| - 1];
    forall j | 0 <= j < |ys| ensures !Removes(Run(q, ys[..j]), ys[j], k, t, p, n) {
      assert ys[..j] == tr[..j];
    }
  }

  // So over any run, heartbeats and answers of p included, a row once held goes only that way.
  lemma {:induction false} RowStays(q: State, tr: seq<Input>, k: Kind, t: string, p: string, a: Address)
    requires Inv(q) && p != q.me.pUuid && a in Vector(q, k, t, p) && Untouched(q, tr, k, t, p, a.nUuid)
    ensures a in Vector(Run(q, tr), k, t, p)
    decreases |tr|
  {
    if tr != [] {
      var ys, n := tr[..|tr| - 1], |tr| - 1;
      UntouchedBefore(q, tr, k, t, p, a.nUuid);
      RowStays(q, ys, k, t, p, a);
      RunKeepsInv(q, ys);
      RowGoesIff(Run(q, ys), tr[n], k, t, p, a);
    }
  }

  // A process never stores two own rows with the same address and node.
  lemma SameIdentity(p: State, k: Kind, t: string, a: Address, b: Address)
    requires Inv(p) && a in Vector(p, k, t, p.me.pUuid) && b in Vector(p, k, t, p.me.pUuid)
    requires a.addr == b.addr && a.nUuid == b.nUuid
    ensures a == b
  {
  }

  // A second batch changes no table at all.
  lemma SecondHeartbeatIdle(p: State, q: State, ms: seq<Message>, ms': seq<Message>, now: int, now': int)
    requires Inv(p) && Inv(q) && p.me.pUuid != q.me.pUuid && p.me.pUuid != ""
    requires WholeBatch(p, ms) && WholeBatch(p, ms')
    ensures var q1 := ReceiveAll(q, p.me.hostAddr, ms, now);
            var q2 := ReceiveAll(q1, p.me.hostAddr, ms', now');
            q2.infoMsg == q1.infoMsg && q2.infoSrv == q1.infoSrv
  {
    var me, ip, host := p.me.pUuid, p.me.hostAddr, q.me.hostAddr;
    var q1 := ReceiveAll(q, ip, ms, now);
    var q2 := ReceiveAll(q1, ip, ms', now');
    BatchContents(p, ms);
    BatchContents(p, ms');
    ReceiveAllVec(q, ip, ms, now, Msg, "", me);
    ReceiveAllVec(q1, ip, ms', now', Msg, "", me);
    forall k, t, r ensures Vector(q2, k, t, r) == Vector(q1, k, t, r) {
      if r == me {
        ReceiveAllVec(q1, ip, ms', now', k, t, me);
        forall a | Adv(k, me, t, a) in ms' && Shown(t, a, ip, host)
          ensures Known(Vector(q1, k, t, me), a.addr, a.nUuid)
        {
          HeartbeatCovers(p, q, ms, now, k, t, a);
        }
        PendingSettled(ms', me, k, t, ip, host, Vector(q1, k, t, me));
      }
    }
    forall t, r ensures Vec(q2.infoMsg, t, r) == Vec(q1.infoMsg, t, r) {
      assert Vector(q2, Msg, t, r) == Vector(q1, Msg, t, r);
    }
    forall t, r ensures Vec(q2.infoSrv, t, r) == Vec(q1.infoSrv, t, r) {
      assert Vector(q2, Srv, t, r) == Vector(q1, Srv, t, r);
    }
    CanonicalExtensional(q2.infoMsg, q1.infoMsg);
    CanonicalExtensional(q2.infoSrv, q1.infoSrv);
  }
}
