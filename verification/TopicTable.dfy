// The value a TopicStorage holds (TopicStorage.hh: topic -> process UUID -> addresses) and the
// meaning of its updates.  A table is read through Vec, which is total: a missing topic or process
// reads as the empty vector.
module TopicTable {
  import opened Types

  type Addresses = map<string, seq<Address>>
  type Table = map<string, Addresses>

  function Vec(d: Table, t: string, p: string): seq<Address> {
    if t in d && p in d[t] then d[t][p] else []
  }

  // The identity AddAddress compares: same 0MQ address and same node.
  ghost predicate Known(v: seq<Address>, addr: string, n: string) {
    exists i :: 0 <= i < |v| && v[i].addr == addr && v[i].nUuid == n
  }

  ghost predicate Distinct(v: seq<Address>) {
    forall i, j | 0 <= i < j < |v| :: v[i].addr != v[j].addr || v[i].nUuid != v[j].nUuid
  }

  // No empty inner map, no empty vector, no address stored twice.
  ghost predicate Canonical(d: Table) {
    forall t | t in d :: d[t] != map[] && forall p | p in d[t] :: d[t][p] != [] && Distinct(d[t][p])
  }

  function Without(v: seq<Address>, n: string): (w: seq<Address>) {
    if v == [] then []
    else (if v[0].nUuid == n then [] else [v[0]]) + Without(v[1..], n)
  }

  predicate NoRow(v: seq<Address>, n: string) {
    forall a | a in v :: a.nUuid != n
  }

  // The first address of a node, as std::find_if returns it.
  function First(v: seq<Address>, n: string): (r: Option<Address>)
    ensures r.None? ==> forall a | a in v :: a.nUuid != n
    ensures r.Some? ==> r.value in v && r.value.nUuid == n
  {
    if v == [] then None
    else if v[0].nUuid == n then Some(v[0])
    else First(v[1..], n)
  }

  // Replace one vector, erasing whatever becomes empty.
  function Put(d: Table, t: string, p: string, v: seq<Address>): (r: Table)
    ensures forall t', p' :: Vec(r, t', p') == if t' == t && p' == p then v else Vec(d, t', p')
    ensures Canonical(d) && Distinct(v) ==> Canonical(r)
  {
    var m := if t in d then d[t] else map[];
    var m' := if v == [] then m - {p} else m[p := v];
    assert v != [] ==> p in m';
    assert forall q | q != p :: q in m' <==> q in m;
    if m' == map[] then
      assert t in d ==> forall q | q in d[t] :: q == p;
      d - {t}
    else
      d[t := m']
  }

  ghost function Insert(d: Table, t: string, p: string, a: Address): Table {
    var v := Vec(d, t, p);
    if Known(v, a.addr, a.nUuid) then d else Put(d, t, p, v + [a])
  }

  ghost function DropNode(d: Table, t: string, p: string, n: string): Table {
    Put(d, t, p, Without(Vec(d, t, p), n))
  }

  function DropProc(d: Table, p: string): Table {
    map t | t in d && d[t] - {p} != map[] :: d[t] - {p}
  }

  // The rows of one node of a process gone from every topic.
  function DropOwnerIn(m: Addresses, p: string, n: string): Addresses {
    if p !in m then m else if Without(m[p], n) == [] then m - {p} else m[p := Without(m[p], n)]
  }

  function DropOwner(d: Table, p: string, n: string): Table {
    map t | t in d && DropOwnerIn(d[t], p, n) != map[] :: DropOwnerIn(d[t], p, n)
  }

  lemma {:induction false} WithoutMember(v: seq<Address>, n: string)
    ensures forall a :: a in Without(v, n) <==> a in v && a.nUuid != n
  {
    if v != [] {
      WithoutMember(v[1..], n);
      assert forall a :: a in v <==> a == v[0] || a in v[1..];
    }
  }

  lemma {:induction false} WithoutDistinct(v: seq<Address>, n: string)
    requires Distinct(v)
    ensures Distinct(Without(v, n))
  {
    if v != [] {
      WithoutDistinct(v[1..], n);
      WithoutMember(v[1..], n);
      var w := Without(v[1..], n);
      forall j | 0 <= j < |w|
        ensures v[0].addr != w[j].addr || v[0].nUuid != w[j].nUuid
      {
        assert w[j] in v[1..];
        var k :| 0 <= k < |v[1..]| && v[1..][k] == w[j];
        assert v[k + 1] == w[j];
      }
    }
  }

  lemma {:induction false} WithoutAbsent(v: seq<Address>, n: string)
    requires forall a | a in v :: a.nUuid != n
    ensures Without(v, n) == v
  {
    if v != [] {
      WithoutAbsent(v[1..], n);
    }
  }

  lemma {:induction false} WithoutConcat(v: seq<Address>, w: seq<Address>, n: string)
    ensures Without(v + w, n) == Without(v, n) + Without(w, n)
  {
    if v == [] {
      assert v + w == w;
    } else {
      WithoutConcat(v[1..], w, n);
      assert (v + w)[1..] == v[1..] + w;
      Associates(if v[0].nUuid == n then [] else [v[0]], Without(v[1..], n), Without(w, n));
    }
  }

  lemma Associates(x: seq<Address>, y: seq<Address>, z: seq<Address>)
    ensures x + (y + z) == (x + y) + z
  {
  }

  // ---- What each update does to every vector ----

  lemma InsertVec(d: Table, t: string, p: string, a: Address)
    requires Canonical(d)
    ensures Canonical(Insert(d, t, p, a))
    ensures forall t', p' | t' != t || p' != p :: Vec(Insert(d, t, p, a), t', p') == Vec(d, t', p')
    ensures Vec(Insert(d, t, p, a), t, p)
         == if Known(Vec(d, t, p), a.addr, a.nUuid) then Vec(d, t, p) else Vec(d, t, p) + [a]
  {
  }

  lemma DropNodeVec(d: Table, t: string, p: string, n: string)
    requires Canonical(d)
    ensures Canonical(DropNode(d, t, p, n))
    ensures forall t', p' | t' != t || p' != p :: Vec(DropNode(d, t, p, n), t', p') == Vec(d, t', p')
    ensures Vec(DropNode(d, t, p, n), t, p) == Without(Vec(d, t, p), n)
  {
    assert Distinct(Vec(d, t, p));
    WithoutDistinct(Vec(d, t, p), n);
  }

  lemma DropProcVec(d: Table, p: string)
    requires Canonical(d)
    ensures Canonical(DropProc(d, p))
    ensures forall t', p' :: Vec(DropProc(d, p), t', p') == if p' == p then [] else Vec(d, t', p')
  {
    forall t', p' ensures Vec(DropProc(d, p), t', p') == if p' == p then [] else Vec(d, t', p') {
      if t' in d && p' in d[t'] && p' != p {
        assert p' in d[t'] - {p};
      }
    }
  }

  lemma DropOwnerVec(d: Table, p: string, n: string)
    requires Canonical(d)
    ensures Canonical(DropOwner(d, p, n))
    ensures forall t, q :: Vec(DropOwner(d, p, n), t, q) == if q == p then Without(Vec(d, t, p), n) else Vec(d, t, q)
  {
    var e := DropOwner(d, p, n);
    forall t | t in d ensures forall q :: q in DropOwnerIn(d[t], p, n) ==> q in d[t] {
    }
    forall t, q ensures Vec(e, t, q) == if q == p then Without(Vec(d, t, p), n) else Vec(d, t, q) {
      if t in d && q in d[t] {
        assert q in DropOwnerIn(d[t], p, n) || (q == p && Without(d[t][p], n) == []);
      }
    }
    forall t, q | t in e && q in e[t] ensures e[t][q] != [] && Distinct(e[t][q]) {
      if q == p {
        assert Distinct(Vec(d, t, p));
        WithoutDistinct(Vec(d, t, p), n);
      }
    }
  }

  // A canonical table is determined by its vectors: there is one representation per content.
  lemma CanonicalExtensional(d: Table, e: Table)
    requires Canonical(d) && Canonical(e)
    requires forall t, p :: Vec(d, t, p) == Vec(e, t, p)
    ensures d == e
  {
    SubTable(d, e);
    SubTable(e, d);
    forall t | t in d ensures d[t] == e[t] {
      forall p ensures p in d[t] <==> p in e[t] {
        assert Vec(d, t, p) == Vec(e, t, p);
      }
      forall p | p in d[t] ensures d[t][p] == e[t][p] {
        assert Vec(d, t, p) == Vec(e, t, p);
      }
    }
  }

  lemma SubTable(d: Table, e: Table)
    requires Canonical(d)
    requires forall t, p :: Vec(d, t, p) == Vec(e, t, p)
    ensures d.Keys <= e.Keys
  {
    forall t | t in d ensures t in e {
      assert d[t] != map[];
      var p :| p in d[t];
      assert Vec(d, t, p) == Vec(e, t, p);
    }
  }

  // ---- The flat relation a table stands for ----

  datatype Row = Row(topic: string, proc: string, info: Address)

  ghost function Rows(d: Table): (rows: iset<Row>)
    ensures forall r :: r in rows <==> r.info in Vec(d, r.topic, r.proc)
  {
    iset r: Row | r.info in Vec(d, r.topic, r.proc)
  }

  lemma HasTopicMeansSomeRow(d: Table, t: string)
    requires Canonical(d)
    ensures t in d <==> exists r :: r in Rows(d) && r.topic == t
  {
    if t in d {
      assert d[t] != map[];
      var p :| p in d[t];
      assert d[t][p][0] in Vec(d, t, p);
      assert Row(t, p, d[t][p][0]) in Rows(d);
    }
  }

  lemma InsertRows(d: Table, t: string, p: string, a: Address)
    requires Canonical(d)
    ensures Rows(Insert(d, t, p, a)) ==
            if exists r :: r in Rows(d) && r.topic == t && r.proc == p
                           && r.info.addr == a.addr && r.info.nUuid == a.nUuid
            then Rows(d) else Rows(d) + iset{Row(t, p, a)}
  {
    InsertVec(d, t, p, a);
    var v := Vec(d, t, p);
    if Known(v, a.addr, a.nUuid) {
      var i :| 0 <= i < |v| && v[i].addr == a.addr && v[i].nUuid == a.nUuid;
      assert Row(t, p, v[i]) in Rows(d);
    } else {
      forall r | r in Rows(d) && r.topic == t && r.proc == p
        ensures r.info.addr != a.addr || r.info.nUuid != a.nUuid
      {
        assert r.info in v;
      }
      assert forall r :: r in Rows(Insert(d, t, p, a)) <==> r in Rows(d) || r == Row(t, p, a);
    }
  }

  lemma DropNodeRows(d: Table, t: string, p: string, n: string)
    requires Canonical(d)
    ensures Rows(DropNode(d, t, p, n))
         == iset r | r in Rows(d) && !(r.topic == t && r.proc == p && r.info.nUuid == n)
  {
    DropNodeVec(d, t, p, n);
    WithoutMember(Vec(d, t, p), n);
  }

  lemma DropProcRows(d: Table, p: string)
    requires Canonical(d)
    ensures Rows(DropProc(d, p)) == iset r | r in Rows(d) && r.proc != p
  {
    DropProcVec(d, p);
  }
}
