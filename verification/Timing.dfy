// How long a process remembers a peer.  A run is timed by the now of its datagrams and passes, in
// nanoseconds; the silence interval is in milliseconds.
module Timing {
  import opened Ordering
  import opened Protocol

  const MS := 1_000_000

  predicate From(i: Input, p: string) {
    i.Recv? && i.msg.pUuid == p
  }

  // Entry i of the run is the datagram that keeps p alive at its end: it is not a BYE, nothing from p
  // follows, and no later pass finds it too old.
  ghost predicate Keeps(tr: seq<Input>, i: int, p: string, silence: nat) {
    0 <= i < |tr| && From(tr[i], p) && !tr[i].msg.Bye?
    && forall j | i < j < |tr| :: !From(tr[j], p) && (tr[j].DoActivity? ==> !Expired(tr[i].now, tr[j].now, silence))
  }

  // What a single step does to the activity map, when the disconnection callback is set.
  lemma StepActivity(s: State, i: Input, p: string)
    requires Inv(s) && s.me.cbs.disconnection && p != s.me.pUuid
    ensures var a' := Step(s, i).next.activity;
            && (p in a' <==> if From(i, p) then !i.msg.Bye?
                             else p in s.activity && !(i.DoActivity? && Expired(s.activity[p], i.now, s.me.silence)))
            && (p in a' ==> a'[p] == if From(i, p) then i.now else s.activity[p])
  {
    match i
    case DoAdvertise(_, _, _) => LocalVec(s, i);
    case DoUnadvertise(_, _, _) => LocalVec(s, i);
    case DoActivity(now) => ActivityOverMeaning(s, Keys(s.activity.Keys), now);
    case Recv(ip, m, now) => ReceiveVec(s, ip, m, now);
    case _ =>
  }

  lemma KeepsExtend(tr: seq<Input>, x: Input, i: int, p: string, silence: nat)
    requires 0 <= i < |tr|
    ensures Keeps(tr + [x], i, p, silence) <==>
            Keeps(tr, i, p, silence) && !From(x, p) && (x.DoActivity? ==> !Expired(tr[i].now, x.now, silence))
  {
    var tr' := tr + [x];
    if Keeps(tr', i, p, silence) {
      assert tr'[|tr|] == x;
      forall j | i < j < |tr|
        ensures !From(tr[j], p) && (tr[j].DoActivity? ==> !Expired(tr[i].now, tr[j].now, silence))
      {
        assert tr'[j] == tr[j];
      }
    }
  }

  // Exactly when a peer is remembered, and since when.
  lemma {:induction false} ActivityIs(s: State, tr: seq<Input>, p: string)
    requires Fresh(s) && s.me.cbs.disconnection && p != s.me.pUuid
    ensures var a := Run(s, tr).activity;
            && (p in a <==> exists i :: Keeps(tr, i, p, s.me.silence))
            && forall i | Keeps(tr, i, p, s.me.silence) :: p in a && a[p] == tr[i].now
    decreases |tr|
  {
    FreshInv(s);
    if tr == [] {
    } else {
      var ys, x := tr[..|tr| - 1], tr[|tr| - 1];
      var silence := s.me.silence;
      assert tr == ys + [x];
      ActivityIs(s, ys, p);
      RunKeepsInv(s, ys);
      var mid := Run(s, ys);
      StepActivity(mid, x, p);
      forall i | 0 <= i < |ys|
        ensures Keeps(tr, i, p, silence) <==>
                Keeps(ys, i, p, silence) && !From(x, p) && (x.DoActivity? ==> !Expired(ys[i].now, x.now, silence))
      {
        KeepsExtend(ys, x, i, p, silence);
      }
      if From(x, p) {
        assert Keeps(tr, |ys|, p, silence) <==> !x.msg.Bye?;
      } else if p in mid.activity {
        var i :| Keeps(ys, i, p, silence);
        if !(x.DoActivity? && Expired(mid.activity[p], x.now, silence)) {
          assert Keeps(tr, i, p, silence);
        }
      }
    }
  }

  // Datagrams carry the time they are processed at, and time does not run backwards.
  ghost predicate TimeOrdered(tr: seq<Input>) {
    forall i, j | 0 <= i < j < |tr| && tr[i].Recv? && (tr[j].Recv? || tr[j].DoActivity?) :: tr[i].now <= tr[j].now
  }

  // Some datagram of p, at or after the first, comes less than silence + 1 ms before pass j.
  ghost predicate HeardBefore(tr: seq<Input>, p: string, first: nat, j: nat, silence: nat)
    requires j < |tr| && tr[j].DoActivity?
  {
    exists i :: first <= i < j && From(tr[i], p) && tr[j].now < tr[i].now + (silence + 1) * MS
  }

  // The last datagram of p among the first n entries.
  ghost predicate LastHeard(tr: seq<Input>, p: string, l: nat, n: nat) {
    l < n <= |tr| && From(tr[l], p) && forall i | l < i < n :: !From(tr[i], p)
  }

  lemma StillFresh(tr: seq<Input>, p: string, first: nat, l: nat, j: nat, silence: nat)
    requires TimeOrdered(tr) && first <= l && LastHeard(tr, p, l, j)
    requires j < |tr| && tr[j].DoActivity? && HeardBefore(tr, p, first, j, silence)
    ensures !Expired(tr[l].now, tr[j].now, silence)
  {
    var i :| first <= i < j && From(tr[i], p) && tr[j].now < tr[i].now + (silence + 1) * MS;
    assert i <= l;
    assert i < l ==> tr[i].now <= tr[l].now;
  }

  // A step that neither is a BYE of p nor a pass that finds p too old keeps p, with callback or without.
  lemma StepStamp(s: State, i: Input, p: string)
    requires Inv(s) && p != s.me.pUuid
    requires From(i, p) ==> !i.msg.Bye?
    requires !From(i, p) ==> p in s.activity && (i.DoActivity? ==> !Expired(s.activity[p], i.now, s.me.silence))
    ensures var s' := Step(s, i).next;
            && p in s'.activity && s'.activity[p] == (if From(i, p) then i.now else s.activity[p])
            && (i.DoActivity? ==> SameRows(s, s', p))
  {
    match i
    case DoAdvertise(_, _, _) => LocalVec(s, i);
    case DoUnadvertise(_, _, _) => LocalVec(s, i);
    case DoActivity(now) =>
      if s.me.cbs.disconnection {
        ActivityOverMeaning(s, Keys(s.activity.Keys), now);
      } else {
        ActivityOverThrows(s, Keys(s.activity.Keys), now);
      }
    case Recv(ip, m, now) => ReceiveVec(s, ip, m, now);
    case _ =>
  }

  // The state after the first n entries.
  ghost function Until(s: State, tr: seq<Input>, n: nat): State
    requires n <= |tr|
  {
    Run(s, tr[..n])
  }

  lemma UntilNext(s: State, tr: seq<Input>, n: nat)
    requires n < |tr| && Inv(s)
    ensures Until(s, tr, n + 1) == Step(Until(s, tr, n), tr[n]).next
    ensures Inv(Until(s, tr, n)) && Until(s, tr, n).me == s.me
  {
    assert tr[..n + 1][..n] == tr[..n];
    RunKeepsInv(s, tr[..n]);
  }

  ghost predicate SameRows(s: State, s': State, p: string) {
    forall k, t :: Vector(s', k, t, p) == Vector(s, k, t, p)
  }

  // Some datagram of p comes less than silence + 1 ms before every pass, and none of them is a BYE.
  ghost predicate KeptAlive(tr: seq<Input>, p: string, first: nat, silence: nat) {
    && first < |tr| && From(tr[first], p)
    && (forall i | first <= i < |tr| && From(tr[i], p) :: !tr[i].msg.Bye?)
    && (forall j | first < j < |tr| && tr[j].DoActivity? :: HeardBefore(tr, p, first, j, silence))
  }

  // p is remembered after n entries, since its last datagram among them.
  ghost predicate Remembered(s: State, tr: seq<Input>, p: string, l: nat, n: nat) {
    LastHeard(tr, p, l, n) && p in Until(s, tr, n).activity && Until(s, tr, n).activity[p] == tr[l].now
  }

  lemma HeardNow(s: State, tr: seq<Input>, p: string, n: nat)
    requires Inv(s) && p != s.me.pUuid && n < |tr| && From(tr[n], p) && !tr[n].msg.Bye?
    ensures Remembered(s, tr, p, n, n + 1)
  {
    UntilNext(s, tr, n);
    StepStamp(Until(s, tr, n), tr[n], p);
  }

  lemma LastHeardNext(tr: seq<Input>, p: string, l: nat, n: nat)
    requires n < |tr| && !From(tr[n], p) && LastHeard(tr, p, l, n)
    ensures LastHeard(tr, p, l, n + 1)
  {
  }

  lemma StillRemembered(s: State, tr: seq<Input>, p: string, l: nat, n: nat)
    requires Inv(s) && p != s.me.pUuid && n < |tr| && !From(tr[n], p) && Remembered(s, tr, p, l, n)
    requires tr[n].DoActivity? ==> !Expired(tr[l].now, tr[n].now, s.me.silence)
    ensures Remembered(s, tr, p, l, n + 1)
  {
    UntilNext(s, tr, n);
    StepStamp(Until(s, tr, n), tr[n], p);
    LastHeardNext(tr, p, l, n);
  }

  lemma {:induction false} KeptUpTo(s: State, tr: seq<Input>, p: string, first: nat, n: nat) returns (l: nat)
    requires Inv(s) && p != s.me.pUuid && TimeOrdered(tr) && KeptAlive(tr, p, first, s.me.silence) && first < n <= |tr|
    ensures first <= l < n && Remembered(s, tr, p, l, n)
    decreases n
  {
    if From(tr[n - 1], p) {
      l := n - 1;
      assert !tr[l].msg.Bye?;
      HeardNow(s, tr, p, l);
    } else {
      l := KeptUpTo(s, tr, p, first, n - 1);
      PassFindsFresh(tr, p, first, l, n - 1, s.me.silence);
      StillRemembered(s, tr, p, l, n - 1);
    }
  }

  lemma PassFindsFresh(tr: seq<Input>, p: string, first: nat, l: nat, j: nat, silence: nat)
    requires TimeOrdered(tr) && KeptAlive(tr, p, first, silence) && first <= l && LastHeard(tr, p, l, j) && j < |tr|
    ensures tr[j].DoActivity? ==> !Expired(tr[l].now, tr[j].now, silence)
  {
    if tr[j].DoActivity? {
      StillFresh(tr, p, first, l, j, silence);
    }
  }

  // A peer heard from often enough is never dropped: once a datagram of p has arrived, if p does not
  // say BYE and every later pass comes less than silence + 1 ms after some datagram from p, p stays and
  // no pass takes a row of p.
  lemma KeepAlive(s: State, tr: seq<Input>, p: string, first: nat)
    requires Fresh(s) && p != s.me.pUuid && TimeOrdered(tr) && KeptAlive(tr, p, first, s.me.silence)
    ensures p in Run(s, tr).activity
    ensures forall j | first < j < |tr| && tr[j].DoActivity? ::
              SameRows(Until(s, tr, j), Step(Until(s, tr, j), tr[j]).next, p)
  {
    FreshInv(s);
    var l := KeptUpTo(s, tr, p, first, |tr|);
    assert tr[..|tr|] == tr;
    forall j | first < j < |tr| && tr[j].DoActivity?
      ensures SameRows(Until(s, tr, j), Step(Until(s, tr, j), tr[j]).next, p)
    {
      PassKeepsRows(s, tr, p, first, j);
    }
  }

  lemma PassKeepsRows(s: State, tr: seq<Input>, p: string, first: nat, j: nat)
    requires Inv(s) && p != s.me.pUuid && TimeOrdered(tr) && KeptAlive(tr, p, first, s.me.silence)
    requires first < j < |tr| && tr[j].DoActivity?
    ensures SameRows(Until(s, tr, j), Step(Until(s, tr, j), tr[j]).next, p)
  {
    var l := KeptUpTo(s, tr, p, first, j);
    PassFindsFresh(tr, p, first, l, j, s.me.silence);
    UntilNext(s, tr, j);
    StepStamp(Until(s, tr, j), tr[j], p);
  }

  // A silent peer is forgotten: one pass at least silence + 1 ms after p's last datagram is enough.
  lemma SilentIsForgotten(s: State, tr: seq<Input>, p: string, last: nat, pass: nat)
    requires Fresh(s) && s.me.cbs.disconnection && p != s.me.pUuid
    requires last < |tr| && From(tr[last], p) && forall j | last < j < |tr| :: !From(tr[j], p)
    requires last < pass < |tr| && tr[pass].DoActivity?
    requires tr[pass].now >= tr[last].now + (s.me.silence + 1) * MS
    ensures p !in Run(s, tr).activity
    ensures forall k, t :: Vector(Run(s, tr), k, t, p) == []
  {
    ActivityIs(s, tr, p);
    if p in Run(s, tr).activity {
      var i :| Keeps(tr, i, p, s.me.silence);
      assert i == last;
      assert Expired(tr[last].now, tr[pass].now, s.me.silence);
    }
    FreshInv(s);
    RunKeepsInv(s, tr);
  }

  // There is a pass in every window of interval ms that starts after entry last and ends by until.
  ghost predicate PassesEvery(tr: seq<Input>, last: nat, interval: nat, until: int)
    requires last < |tr| && tr[last].Recv?
  {
    forall x | tr[last].now <= x && x + interval * MS <= until :: PassIn(tr, last, x, interval)
  }

  ghost predicate PassIn(tr: seq<Input>, last: nat, x: int, interval: nat) {
    exists j :: last < j < |tr| && tr[j].DoActivity? && x <= tr[j].now <= x + interval * MS
  }

  // With a pass every activityInterval ms, p is gone silence + 1 + activityInterval ms after it fell
  // silent.
  lemma ForgottenInTime(s: State, tr: seq<Input>, p: string, last: nat, interval: nat, until: int)
    requires Fresh(s) && s.me.cbs.disconnection && p != s.me.pUuid
    requires last < |tr| && From(tr[last], p) && forall j | last < j < |tr| :: !From(tr[j], p)
    requires PassesEvery(tr, last, interval, until)
    requires until >= tr[last].now + (s.me.silence + 1 + interval) * MS
    ensures p !in Run(s, tr).activity
    ensures forall k, t :: Vector(Run(s, tr), k, t, p) == []
  {
    var x := tr[last].now + (s.me.silence + 1) * MS;
    assert PassIn(tr, last, x, interval);
    var j :| last < j < |tr| && tr[j].DoActivity? && x <= tr[j].now <= x + interval * MS;
    SilentIsForgotten(s, tr, p, last, j);
  }

  // The bound is tight: a pass earlier than silence + 1 ms after p's last datagram keeps p.
  lemma NotForgottenEarly(s: State, tr: seq<Input>, p: string, last: nat)
    requires Fresh(s) && s.me.cbs.disconnection && p != s.me.pUuid
    requires last < |tr| && From(tr[last], p) && !tr[last].msg.Bye? && forall j | last < j < |tr| :: !From(tr[j], p)
    ensures p in Run(s, tr).activity <==>
            forall j | last < j < |tr| && tr[j].DoActivity? :: tr[j].now < tr[last].now + (s.me.silence + 1) * MS
  {
    ActivityIs(s, tr, p);
    if p in Run(s, tr).activity {
      var i :| Keeps(tr, i, p, s.me.silence);
      assert i == last;
      forall j | last < j < |tr| && tr[j].DoActivity? ensures tr[j].now < tr[last].now + (s.me.silence + 1) * MS {
        assert !Expired(tr[last].now, tr[j].now, s.me.silence);
      }
    } else {
      assert !Keeps(tr, last, p, s.me.silence);
    }
  }
}
