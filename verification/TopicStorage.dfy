// src/TopicStorage.cc: the mutable address table.  Iterating data in the source visits the keys in
// order, so every loop over the map runs over Ordering.Keys.
module TopicStorage {
  import opened Types
  import opened TopicTable
  import opened Ordering

  // The order in which iteration meets the topics.
  function TopicsOf(d: Table): (ts: seq<string>)
    ensures Increasing(ts) && forall t :: t in ts <==> t in d
  {
    Keys(d.Keys)
  }

  // What DelAddressesByProc reports: whether the *last* topic visited lost anything.
  ghost predicate LastTopicHas(d: Table, p: string) {
    var ts := TopicsOf(d);
    ts != [] && p in d[ts[|ts| - 1]]
  }

  class Storage {
    var data: Table

    ghost predicate Valid() reads this {
      Canonical(data)
    }

    constructor ()
      ensures Valid() && data == map[]
    {
      data := map[];
    }

    method AddAddress(topic: string, addr: string, ctrl: string, pUuid: string, nUuid: string, scope: Scope)
      returns (added: bool)
      requires Valid()
      modifies this`data
      ensures Valid()
      ensures added == !Known(old(Vec(data, topic, pUuid)), addr, nUuid)
      ensures data == Insert(old(data), topic, pUuid, Address(addr, ctrl, nUuid, scope))
      ensures Rows(data) == if added then old(Rows(data)) + iset{Row(topic, pUuid, Address(addr, ctrl, nUuid, scope))}
                            else old(Rows(data))
    {
      ghost var a := Address(addr, ctrl, nUuid, scope);
      InsertVec(data, topic, pUuid, a);
      InsertRows(data, topic, pUuid, a);
      RowKnown(data, topic, pUuid, a);
      var m := if topic in data then data[topic] else map[];
      var v := [];
      if pUuid in m {
        v := m[pUuid];
        var found := false;
        for i := 0 to |v|
          invariant !found
          invariant forall j | 0 <= j < i :: v[j].addr != addr || v[j].nUuid != nUuid
        {
          if v[i].addr == addr && v[i].nUuid == nUuid {
            return false;
          }
        }
      }
      assert v == Vec(data, topic, pUuid);
      assert !Known(v, addr, nUuid);
      m := m[pUuid := v + [Address(addr, ctrl, nUuid, scope)]];
      assert pUuid in m;
      data := data[topic := m];
      added := true;
    }

    method HasTopic(topic: string) returns (b: bool)
      requires Valid()
      ensures b <==> exists r :: r in Rows(data) && r.topic == topic
    {
      HasTopicMeansSomeRow(data, topic);
      b := topic in data;
    }

    method HasAnyAddresses(topic: string, pUuid: string) returns (b: bool)
      requires Valid()
      ensures b <==> Vec(data, topic, pUuid) != []
    {
      var known := HasTopic(topic);
      HasTopicMeansSomeRow(data, topic);
      if !known {
        return false;
      }
      b := pUuid in data[topic];
    }

    method HasAddress(addr: string) returns (b: bool)
      ensures b <==> exists r :: r in Rows(data) && r.info.addr == addr
    {
      b := TopicsHave(data, addr);
      AddressRows(data, addr);
    }

    method GetAddress(topic: string, pUuid: string, nUuid: string) returns (info: Option<Address>)
      requires Valid()
      ensures info == First(Vec(data, topic, pUuid), nUuid)
    {
      if topic !in data || pUuid !in data[topic] {
        return None;
      }
      var v := data[topic][pUuid];
      for i := 0 to |v|
        invariant First(v, nUuid) == First(v[i..], nUuid)
      {
        if v[i].nUuid == nUuid {
          return Some(v[i]);
        }
        assert v[i..][1..] == v[i + 1..];
      }
      return None;
    }

    method GetAddresses(topic: string) returns (info: Option<Addresses>)
      requires Valid()
      ensures info == if topic in data then Some(data[topic]) else None
    {
      var known := HasTopic(topic);
      HasTopicMeansSomeRow(data, topic);
      if !known {
        return None;
      }
      return Some(data[topic]);
    }

    method DelAddressByNode(topic: string, pUuid: string, nUuid: string) returns (removed: bool)
      requires Valid()
      modifies this`data
      ensures Valid()
      ensures data == DropNode(old(data), topic, pUuid, nUuid)
      ensures removed <==> exists a :: a in old(Vec(data, topic, pUuid)) && a.nUuid == nUuid
      ensures Rows(data)
           == iset r | r in old(Rows(data)) && !(r.topic == topic && r.proc == pUuid && r.info.nUuid == nUuid)
    {
      DropNodeRows(data, topic, pUuid, nUuid);
      DropNodeVec(data, topic, pUuid, nUuid);
      DropNodeAbsent(data, topic, pUuid, nUuid);
      removed := false;
      if topic in data {
        var m := data[topic];
        if pUuid in m {
          var v := m[pUuid];
          var kept := RemoveIf(v, nUuid);
          WithoutShorter(v, nUuid);
          removed := |v| > |kept|;
          m := if kept == [] then m - {pUuid} else m[pUuid := kept];
          data := if m == map[] then data - {topic} else data[topic := m];
        }
      }
    }

    method DelAddressesByProc(pUuid: string) returns (removed: bool)
      requires Valid()
      modifies this`data
      ensures Valid()
      ensures data == DropProc(old(data), pUuid)
      ensures removed == LastTopicHas(old(data), pUuid)
      ensures Rows(data) == iset r | r in old(Rows(data)) && r.proc != pUuid
    {
      DropProcVec(data, pUuid);
      DropProcRows(data, pUuid);
      data, removed := EraseProc(data, pUuid);
    }

    method GetAddressesByProc(pUuid: string) returns (nodes: map<string, seq<Address>>)
      ensures nodes == ByProc(data, pUuid)
    {
      nodes := map[];
      var ts := TopicsOf(data);
      VisitedAll(data.Keys);
      for i := 0 to |ts|
        invariant nodes == ByProcIn(data, pUuid, Visited(ts, i))
      {
        VisitNext(ts, i);
        var m := data[ts[i]];
        ByProcInStep(data, pUuid, Visited(ts, i), ts[i]);
        if pUuid in m {
          nodes := PushAll(nodes, ts[i], m[pUuid]);
        }
      }
      assert nodes == ByProc(data, pUuid);
    }

    method GetTopicList(topics: seq<string>) returns (r: seq<string>)
      ensures r == topics + TopicsOf(data)
    {
      r := topics;
      var ts := TopicsOf(data);
      for i := 0 to |ts|
        invariant r == topics + ts[..i]
      {
        r := r + [ts[i]];
      }
      assert ts[..|ts|] == ts;
    }
  }

  // What GetAddresses answers: nothing if no process has a row of the topic, else exactly the
  // processes that have, each with its rows; neither the map nor any vector in it is empty.
  lemma AddressesMeaning(d: Table, topic: string)
    requires Canonical(d)
    ensures topic !in d <==> forall p :: Vec(d, topic, p) == []
    ensures topic in d ==> d[topic] != map[] && forall p :: p in d[topic] <==> Vec(d, topic, p) != []
    ensures topic in d ==> forall p | p in d[topic] :: d[topic][p] == Vec(d, topic, p) && |d[topic][p]| > 0
  {
    if topic in d {
      assert d[topic] != map[];
      var p :| p in d[topic];
      assert Vec(d, topic, p) != [];
    }
  }

  // std::remove_if over one vector.
  method RemoveIf(v: seq<Address>, nUuid: string) returns (kept: seq<Address>)
    ensures kept == Without(v, nUuid)
  {
    kept := [];
    for i := 0 to |v|
      invariant kept == Without(v[..i], nUuid)
    {
      assert v[..i + 1] == v[..i] + [v[i]];
      WithoutConcat(v[..i], [v[i]], nUuid);
      if v[i].nUuid != nUuid {
        kept := kept + [v[i]];
      }
    }
    assert v[..|v|] == v;
  }

  // The inner loop of GetAddressesByProc.
  method PushAll(nodes: map<string, seq<Address>>, topic: string, v: seq<Address>)
    returns (r: map<string, seq<Address>>)
    requires topic !in nodes
    ensures r == if v == [] then nodes else nodes[topic := v]
  {
    r := nodes;
    for j := 0 to |v|
      invariant r == if j == 0 then nodes else nodes[topic := v[..j]]
    {
      assert v[..j + 1] == v[..j] + [v[j]];
      r := r[topic := (if topic in r then r[topic] else []) + [v[j]]];
    }
    assert v[..|v|] == v;
  }

  ghost predicate AnyProcHas(m: Addresses, addr: string) {
    exists p, i :: p in m && 0 <= i < |m[p]| && m[p][i].addr == addr
  }

  // The two inner loops of HasAddress.
  method ProcsHave(m: Addresses, addr: string) returns (found: bool)
    ensures found <==> AnyProcHas(m, addr)
  {
    var ps := Keys(m.Keys);
    for j := 0 to |ps|
      invariant forall k, l | 0 <= k < j && 0 <= l < |m[ps[k]]| :: m[ps[k]][l].addr != addr
    {
      var v := m[ps[j]];
      for k := 0 to |v|
        invariant forall l | 0 <= l < k :: v[l].addr != addr
      {
        if v[k].addr == addr {
          return true;
        }
      }
    }
    forall p, l | p in m && 0 <= l < |m[p]| ensures m[p][l].addr != addr {
      assert p in ps;
    }
    return false;
  }

  ghost predicate AnyTopicHas(d: Table, addr: string) {
    exists t :: t in d && AnyProcHas(d[t], addr)
  }

  // The outer loop of HasAddress.
  method TopicsHave(d: Table, addr: string) returns (found: bool)
    ensures found <==> AnyTopicHas(d, addr)
  {
    var ts := TopicsOf(d);
    for i := 0 to |ts|
      invariant forall j | 0 <= j < i :: !AnyProcHas(d[ts[j]], addr)
    {
      found := ProcsHave(d[ts[i]], addr);
      if found {
        return true;
      }
    }
    forall t | t in d ensures !AnyProcHas(d[t], addr) {
      assert t in ts;
    }
    return false;
  }

  lemma AddressRows(d: Table, addr: string)
    ensures AnyTopicHas(d, addr) <==> exists r :: r in Rows(d) && r.info.addr == addr
  {
    if AnyTopicHas(d, addr) {
      var t :| t in d && AnyProcHas(d[t], addr);
      var p, i :| p in d[t] && 0 <= i < |d[t][p]| && d[t][p][i].addr == addr;
      assert Row(t, p, d[t][p][i]) in Rows(d);
    }
    if r :| r in Rows(d) && r.info.addr == addr {
      var v := Vec(d, r.topic, r.proc);
      var i :| 0 <= i < |v| && v[i] == r.info;
      assert AnyProcHas(d[r.topic], addr);
    }
  }

  // The erase-while-iterating loop of DelAddressesByProc.
  method EraseProc(d: Table, pUuid: string) returns (r: Table, removed: bool)
    ensures r == DropProc(d, pUuid)
    ensures removed == LastTopicHas(d, pUuid)
  {
    var ts := TopicsOf(d);
    VisitedAll(d.Keys);
    r, removed := d, false;
    for i := 0 to |ts|
      invariant r == DropProcIn(d, pUuid, Visited(ts, i))
      invariant removed == (i > 0 && pUuid in d[ts[i - 1]])
    {
      VisitNext(ts, i);
      DropProcInStep(d, pUuid, Visited(ts, i), ts[i]);
      var m := r[ts[i]];
      removed := pUuid in m;
      m := m - {pUuid};
      r := if m == map[] then r - {ts[i]} else r[ts[i] := m];
    }
    DropProcInAll(d, pUuid, Visited(ts, |ts|));
  }

  // The table in the middle of DelAddressesByProc, when the topics in seen are done.
  ghost function DropProcIn(d: Table, p: string, seen: set<string>): Table {
    map t | t in d && (t in seen ==> d[t] - {p} != map[]) :: if t in seen then d[t] - {p} else d[t]
  }

  lemma DropProcInStep(d: Table, p: string, seen: set<string>, t: string)
    requires t in d && t !in seen
    ensures t in DropProcIn(d, p, seen) && DropProcIn(d, p, seen)[t] == d[t]
    ensures DropProcIn(d, p, seen + {t})
         == if d[t] - {p} == map[] then DropProcIn(d, p, seen) - {t} else DropProcIn(d, p, seen)[t := d[t] - {p}]
  {
  }

  lemma DropProcInAll(d: Table, p: string, seen: set<string>)
    requires seen == d.Keys
    ensures DropProcIn(d, p, seen) == DropProc(d, p)
  {
  }

  // The result in the middle of GetAddressesByProc.
  ghost function ByProcIn(d: Table, p: string, seen: set<string>): map<string, seq<Address>> {
    map t | t in d && t in seen && Vec(d, t, p) != [] :: Vec(d, t, p)
  }

  lemma ByProcInStep(d: Table, p: string, seen: set<string>, t: string)
    requires t in d && t !in seen
    ensures t !in ByProcIn(d, p, seen)
    ensures ByProcIn(d, p, seen + {t})
         == if Vec(d, t, p) == [] then ByProcIn(d, p, seen) else ByProcIn(d, p, seen)[t := Vec(d, t, p)]
  {
  }

  // The rows of one process, topic by topic: every address vector it has anywhere.
  function ByProc(d: Table, p: string): (nodes: map<string, seq<Address>>)
    ensures forall t :: t in nodes <==> Vec(d, t, p) != []
    ensures forall t | t in nodes :: nodes[t] == Vec(d, t, p)
  {
    map t | t in d && Vec(d, t, p) != [] :: Vec(d, t, p)
  }

  lemma RowKnown(d: Table, t: string, p: string, a: Address)
    ensures Known(Vec(d, t, p), a.addr, a.nUuid) <==>
            exists r :: r in Rows(d) && r.topic == t && r.proc == p && r.info.addr == a.addr && r.info.nUuid == a.nUuid
  {
    var v := Vec(d, t, p);
    if Known(v, a.addr, a.nUuid) {
      var i :| 0 <= i < |v| && v[i].addr == a.addr && v[i].nUuid == a.nUuid;
      assert Row(t, p, v[i]) in Rows(d);
    }
  }

  lemma {:induction false} WithoutShorter(v: seq<Address>, n: string)
    ensures |Without(v, n)| <= |v|
    ensures |Without(v, n)| < |v| <==> exists a :: a in v && a.nUuid == n
  {
    if v != [] {
      WithoutShorter(v[1..], n);
      assert forall a :: a in v <==> a == v[0] || a in v[1..];
    }
  }

  lemma DropNodeAbsent(d: Table, t: string, p: string, n: string)
    requires Canonical(d)
    ensures Vec(d, t, p) == [] ==> DropNode(d, t, p, n) == d
  {
    if Vec(d, t, p) == [] {
      DropNodeVec(d, t, p, n);
      CanonicalExtensional(DropNode(d, t, p, n), d);
    }
  }

  // DelAddressesByProc tells whether it removed anything exactly on the tables where a process with
  // any row also has one under the last topic; a true answer is never wrong.
  lemma DelAddressesByProcReport(d: Table, p: string)
    requires Canonical(d)
    ensures LastTopicHas(d, p) ==> Rows(DropProc(d, p)) != Rows(d)
    ensures (LastTopicHas(d, p) <==> Rows(DropProc(d, p)) != Rows(d))
       <==> (LastTopicHas(d, p) || forall t | t in TopicsOf(d) :: p !in d[t])
  {
    DropProcRows(d, p);
    var ts := TopicsOf(d);
    if LastTopicHas(d, p) {
      var t := ts[|ts| - 1];
      assert Row(t, p, d[t][p][0]) in Rows(d);
    }
    if t :| t in ts && p in d[t] {
      assert Row(t, p, d[t][p][0]) in Rows(d);
    }
    if forall t | t in ts :: p !in d[t] {
      forall r | r in Rows(d) ensures r.proc != p {
        assert r.topic in ts;
      }
    }
  }

  // Two processes, each with one row under a topic of its own.
  function TwoRows(s: string, p: string, t: string, q: string, a: Address): Table
    requires s != t
  {
    map[s := map[p := [a]], t := map[q := [a]]]
  }

  lemma TwoRowsCanonical(s: string, p: string, t: string, q: string, a: Address)
    requires s != t
    ensures Canonical(TwoRows(s, p, t, q, a))
  {
    assert p in map[p := [a]] && q in map[q := [a]];
  }

  // The row of the process under the first topic goes, and the answer is false.
  lemma DelAddressesByProcMisreports()
    ensures var d := TwoRows("a", "p", "b", "q", Address("tcp", "ctrl", "n", All));
            Canonical(d) && !LastTopicHas(d, "p") && Rows(DropProc(d, "p")) != Rows(d)
  {
    var info := Address("tcp", "ctrl", "n", All);
    TwoRowsCanonical("a", "p", "b", "q", info);
    FirstOfTwo(TwoRows("a", "p", "b", "q", info), "a", "b", "p");
  }

  lemma FirstOfTwo(d: Table, s: string, t: string, p: string)
    requires Canonical(d) && d.Keys == {s, t} && Less(s, t) && p in d[s] && p !in d[t]
    ensures !LastTopicHas(d, p) && Rows(DropProc(d, p)) != Rows(d)
  {
    TwoTopics(d, s, t);
    assert s in TopicsOf(d);
    DelAddressesByProcReport(d, p);
  }

  lemma TwoTopics(d: Table, s: string, t: string)
    requires d.Keys == {s, t} && Less(s, t)
    ensures TopicsOf(d) == [s, t]
  {
    IncreasingUnique(TopicsOf(d), [s, t]);
  }
}
