// include/ignition/transport/HandlerStorage.hh: handlers keyed by topic, node and handler UUID.
// The three nested maps are meant to be one flat map; Flat is that map.
module HandlerStorage {
  import opened Types
  import opened Ordering

  datatype Key = Key(topic: string, node: string, handler: string)

  type Nodes<T> = map<string, map<string, T>>
  type Data<T> = map<string, Nodes<T>>

  // No empty map at any level.
  ghost predicate Canonical<T>(d: Data<T>) {
    forall t | t in d :: d[t] != map[] && forall n | n in d[t] :: d[t][n] != map[]
  }

  // The handlers of one node on one topic; missing entries read as the empty map.
  function NodeAt<T>(d: Data<T>, t: string, n: string): map<string, T> {
    if t in d && n in d[t] then d[t][n] else map[]
  }

  predicate Stored<T>(d: Data<T>, k: Key) {
    k.handler in NodeAt(d, k.topic, k.node)
  }

  function At<T>(d: Data<T>, k: Key): T
    requires Stored(d, k)
  {
    NodeAt(d, k.topic, k.node)[k.handler]
  }

  ghost function Flat<T>(d: Data<T>): (m: imap<Key, T>)
    ensures forall k :: k in m <==> Stored(d, k)
    ensures forall k | Stored(d, k) :: m[k] == At(d, k)
  {
    imap k: Key | Stored(d, k) :: At(d, k)
  }

  // The order in which nested begin() .. end() loops over one topic meet the keys.
  predicate Before(j: Key, k: Key) {
    Less(j.node, k.node) || (j.node == k.node && Less(j.handler, k.handler))
  }

  // The key begin()->second.begin() refers to.
  ghost predicate FirstKey<T>(m: imap<Key, T>, t: string, k: Key) {
    k in m && k.topic == t && forall j | j in m && j.topic == t && j != k :: Before(k, j)
  }

  lemma FirstKeyUnique<T>(m: imap<Key, T>, t: string, j: Key, k: Key)
    requires FirstKey(m, t, j) && FirstKey(m, t, k)
    ensures j == k
  {
    LessTrichotomy(j.node, k.node);
    LessTrichotomy(j.handler, k.handler);
  }

  lemma FlatDetermines<T>(d: Data<T>, e: Data<T>, t: string, n: string)
    requires Flat(d) == Flat(e)
    ensures NodeAt(d, t, n) == NodeAt(e, t, n)
  {
    forall h ensures h in NodeAt(d, t, n) <==> h in NodeAt(e, t, n) {
      assert Key(t, n, h) in Flat(d) <==> Key(t, n, h) in Flat(e);
    }
    forall h | h in NodeAt(d, t, n) ensures NodeAt(d, t, n)[h] == NodeAt(e, t, n)[h] {
      assert Flat(d)[Key(t, n, h)] == Flat(e)[Key(t, n, h)];
    }
  }

  ghost predicate SameNodes<T>(d: Data<T>, e: Data<T>) {
    forall t, n :: NodeAt(d, t, n) == NodeAt(e, t, n)
  }

  lemma SubNode<T>(d: Data<T>, e: Data<T>, t: string, n: string)
    requires Canonical(d) && SameNodes(d, e) && t in d && n in d[t]
    ensures t in e && n in e[t] && e[t][n] == d[t][n]
  {
    assert NodeAt(d, t, n) == NodeAt(e, t, n);
  }

  lemma SameTopic<T>(d: Data<T>, e: Data<T>, t: string)
    requires Canonical(d) && Canonical(e) && SameNodes(d, e) && t in d
    ensures t in e && d[t] == e[t]
  {
    assert d[t] != map[];
    var n :| n in d[t];
    SubNode(d, e, t, n);
    forall n ensures n in d[t] <==> n in e[t] {
      if n in d[t] { SubNode(d, e, t, n); }
      if n in e[t] { SubNode(e, d, t, n); }
    }
    forall n | n in d[t] ensures d[t][n] == e[t][n] {
      SubNode(d, e, t, n);
    }
  }

  lemma NodesDetermine<T>(d: Data<T>, e: Data<T>)
    requires Canonical(d) && Canonical(e) && SameNodes(d, e)
    ensures d == e
  {
    forall t ensures t in d <==> t in e {
      if t in d { SameTopic(d, e, t); }
      if t in e { SameTopic(e, d, t); }
    }
    forall t | t in d ensures d[t] == e[t] {
      SameTopic(d, e, t);
    }
  }

  // With no empty inner map there is one nested representation for each flat content.
  lemma CanonicalExtensional<T>(d: Data<T>, e: Data<T>)
    requires Canonical(d) && Canonical(e) && Flat(d) == Flat(e)
    ensures d == e
  {
    forall t, n ensures NodeAt(d, t, n) == NodeAt(e, t, n) {
      FlatDetermines(d, e, t, n);
    }
    NodesDetermine(d, e);
  }

  lemma TopicPresent<T>(d: Data<T>, t: string)
    requires Canonical(d)
    ensures t in d <==> exists k :: k in Flat(d) && k.topic == t
  {
    if t in d {
      assert d[t] != map[];
      var n :| n in d[t];
      var h :| h in d[t][n];
      assert Key(t, n, h) in Flat(d);
    }
  }

  lemma NodePresent<T>(d: Data<T>, t: string, n: string)
    requires Canonical(d)
    ensures t in d && n in d[t] <==> exists k :: k in Flat(d) && k.topic == t && k.node == n
  {
    if t in d && n in d[t] {
      var h :| h in d[t][n];
      assert Key(t, n, h) in Flat(d);
    }
  }

  // Replace the handlers of one node on one topic, erasing whatever becomes empty.
  function SetNode<T>(d: Data<T>, t: string, n: string, hs: map<string, T>): (r: Data<T>)
    ensures forall t', n' :: NodeAt(r, t', n') == if t' == t && n' == n then hs else NodeAt(d, t', n')
    ensures Canonical(d) ==> Canonical(r)
  {
    var m := if t in d then d[t] else map[];
    var m' := if hs == map[] then m - {n} else m[n := hs];
    assert hs != map[] ==> n in m';
    assert forall q | q != n :: q in m' <==> q in m;
    if m' == map[] then
      assert forall q | q in m :: q == n;
      d - {t}
    else
      d[t := m']
  }

  // ---- The three updates, on the flat map ----

  lemma FlatAdd<T>(d: Data<T>, k: Key, x: T)
    ensures Flat(SetNode(d, k.topic, k.node, NodeAt(d, k.topic, k.node)[k.handler := x])) == Flat(d)[k := x]
  {
  }

  lemma FlatRemove<T>(d: Data<T>, k: Key)
    ensures Flat(SetNode(d, k.topic, k.node, NodeAt(d, k.topic, k.node) - {k.handler})) == Flat(d) - {k}
  {
    var e := SetNode(d, k.topic, k.node, NodeAt(d, k.topic, k.node) - {k.handler});
    forall j ensures j in Flat(e) <==> j in Flat(d) && j != k {
      assert NodeAt(e, j.topic, j.node) == NodeAt(d, j.topic, j.node) || (j.topic == k.topic && j.node == k.node);
    }
  }

  // std::map::insert: what is there stays.
  ghost function Added<T>(m: imap<Key, T>, k: Key, x: T): imap<Key, T> {
    if k in m then m else m[k := x]
  }

  ghost function WithoutNode<T>(m: imap<Key, T>, t: string, n: string): imap<Key, T> {
    imap k: Key | k in m && !(k.topic == t && k.node == n) :: m[k]
  }

  lemma FlatRemoveNode<T>(d: Data<T>, t: string, n: string)
    ensures Flat(SetNode(d, t, n, map[])) == WithoutNode(Flat(d), t, n)
  {
  }

  // Nothing to remove: the table is as it was.
  lemma SetNodeSame<T>(d: Data<T>, t: string, n: string)
    requires Canonical(d)
    ensures SetNode(d, t, n, NodeAt(d, t, n)) == d
  {
    var e := SetNode(d, t, n, NodeAt(d, t, n));
    NodesDetermine(e, d);
  }

  // AddHandler on the nested maps.
  function Inserted<T>(d: Data<T>, k: Key, x: T): Data<T> {
    var hs := NodeAt(d, k.topic, k.node);
    SetNode(d, k.topic, k.node, if k.handler in hs then hs else hs[k.handler := x])
  }

  lemma FlatInserted<T>(d: Data<T>, k: Key, x: T)
    requires Canonical(d)
    ensures Flat(Inserted(d, k, x)) == Added(Flat(d), k, x)
  {
    FlatAdd(d, k, x);
    SetNodeSame(d, k.topic, k.node);
  }

  // RemoveHandlersForNode on the nested maps.
  function Emptied<T>(d: Data<T>, t: string, n: string): Data<T> {
    SetNode(d, t, n, map[])
  }

  // The handlers of one node gone from every topic.
  function WithoutOwner<T>(d: Data<T>, n: string): Data<T> {
    map t | t in d && d[t] - {n} != map[] :: d[t] - {n}
  }

  lemma WithoutOwnerAt<T>(d: Data<T>, n: string)
    requires Canonical(d)
    ensures Canonical(WithoutOwner(d, n))
    ensures forall t, m :: NodeAt(WithoutOwner(d, n), t, m) == if m == n then map[] else NodeAt(d, t, m)
  {
    forall t, m ensures NodeAt(WithoutOwner(d, n), t, m) == if m == n then map[] else NodeAt(d, t, m) {
      if t in d && m in d[t] && m != n {
        assert m in d[t] - {n};
      }
    }
  }

  // The handler AddHandler stores is a shared pointer; T is the pointer type.
  class Storage<T> {
    var data: Data<T>

    ghost predicate Valid() reads this {
      Canonical(data)
    }

    constructor ()
      ensures Valid() && data == map[] && Flat(data) == imap[]
    {
      data := map[];
    }

    method GetHandlers(topic: string) returns (handlers: Option<Nodes<T>>)
      requires Valid()
      ensures handlers.None? <==> forall k | k in Flat(data) :: k.topic != topic
      ensures handlers == if topic in data then Some(data[topic]) else None
    {
      TopicPresent(data, topic);
      if topic !in data {
        return None;
      }
      return Some(data[topic]);
    }

    // The first handler of a topic: neither begin() is ever an end().
    method GetFirstHandler(topic: string) returns (handler: Option<T>, ghost at: Key)
      requires Valid()
      ensures handler.None? <==> forall k | k in Flat(data) :: k.topic != topic
      ensures handler.Some? ==> FirstKey(Flat(data), topic, at) && handler.value == Flat(data)[at]
      ensures handler.Some? ==> forall k | k in Flat(data) && k.topic == topic ::
                k == at || Less(at.node, k.node) || (at.node == k.node && Less(at.handler, k.handler))
    {
      at := Key("", "", "");
      TopicPresent(data, topic);
      if topic !in data {
        return None, at;
      }
      assert data[topic] != map[];
      var n := Least(data[topic].Keys);
      assert data[topic][n] != map[];
      var h := Least(data[topic][n].Keys);
      at := Key(topic, n, h);
      forall j | j in Flat(data) && j.topic == topic && j != at ensures Before(at, j) {
        assert j.node in data[topic].Keys;
      }
      return Some(data[topic][n][h]), at;
    }

    method GetHandler(topic: string, nUuid: string, hUuid: string) returns (handler: Option<T>)
      ensures handler == if Key(topic, nUuid, hUuid) in Flat(data)
                         then Some(Flat(data)[Key(topic, nUuid, hUuid)]) else None
    {
      if topic !in data {
        return None;
      }
      var m := data[topic];
      if nUuid !in m {
        return None;
      }
      if hUuid !in m[nUuid] {
        return None;
      }
      return Some(m[nUuid][hUuid]);
    }

    // std::map::insert does not replace: an existing handler with this UUID stays.
    method AddHandler(topic: string, nUuid: string, hUuid: string, handler: T)
      requires Valid()
      modifies this`data
      ensures Valid()
      ensures Flat(data) == Added(old(Flat(data)), Key(topic, nUuid, hUuid), handler)
      ensures Key(topic, nUuid, hUuid) in old(Flat(data)) ==> data == old(data)
      ensures Key(topic, nUuid, hUuid) !in old(Flat(data)) ==>
        Flat(data) == old(Flat(data))[Key(topic, nUuid, hUuid) := handler]
      ensures data == Inserted(old(data), Key(topic, nUuid, hUuid), handler)
    {
      SetNodeSame(data, topic, nUuid);
      FlatAdd(data, Key(topic, nUuid, hUuid), handler);
      data := Stow(data, topic, nUuid, hUuid, handler);
    }

    method HasHandlersForTopic(topic: string) returns (b: bool)
      requires Valid()
      ensures b <==> exists k :: k in Flat(data) && k.topic == topic
    {
      TopicPresent(data, topic);
      if topic !in data {
        return false;
      }
      return data[topic] != map[];
    }

    method HasHandlersForNode(topic: string, nUuid: string) returns (b: bool)
      requires Valid()
      ensures b <==> exists k :: k in Flat(data) && k.topic == topic && k.node == nUuid
    {
      NodePresent(data, topic, nUuid);
      if topic !in data {
        return false;
      }
      return nUuid in data[topic];
    }

    // The answer is true only when the node's last handler goes.
    method RemoveHandler(topic: string, nUuid: string, reqUuid: string) returns (lastOne: bool)
      requires Valid()
      modifies this`data
      ensures Valid()
      ensures Flat(data) == old(Flat(data)) - {Key(topic, nUuid, reqUuid)}
      ensures lastOne == (Key(topic, nUuid, reqUuid) in old(Flat(data))
                          && forall k | k in Flat(data) && k.topic == topic :: k.node != nUuid)
    {
      FlatRemove(data, Key(topic, nUuid, reqUuid));
      NodePresent(data, topic, nUuid);
      data, lastOne := Erase(data, topic, nUuid, reqUuid);
      NodePresent(data, topic, nUuid);
    }

    method RemoveHandlersForNode(topic: string, nUuid: string) returns (removed: bool)
      requires Valid()
      modifies this`data
      ensures Valid()
      ensures Flat(data) == WithoutNode(old(Flat(data)), topic, nUuid)
      ensures forall k :: k in Flat(data) <==> k in old(Flat(data)) && !(k.topic == topic && k.node == nUuid)
      ensures forall k | k in Flat(data) :: Flat(data)[k] == old(Flat(data))[k]
      ensures data == Emptied(old(data), topic, nUuid)
      ensures removed <==> exists k :: k in old(Flat(data)) && k.topic == topic && k.node == nUuid
    {
      FlatRemoveNode(data, topic, nUuid);
      NodePresent(data, topic, nUuid);
      data, removed := Evict(data, topic, nUuid);
    }
  }

  // The body of AddHandler on the nested maps.
  method Stow<T>(d: Data<T>, topic: string, nUuid: string, hUuid: string, handler: T) returns (r: Data<T>)
    ensures r == SetNode(d, topic, nUuid, if hUuid in NodeAt(d, topic, nUuid) then NodeAt(d, topic, nUuid)
                                          else NodeAt(d, topic, nUuid)[hUuid := handler])
  {
    var m := if topic in d then d[topic] else map[];
    var hs := if nUuid in m then m[nUuid] else map[];
    if hUuid !in hs {
      hs := hs[hUuid := handler];
    }
    assert hUuid in hs;
    assert nUuid in m[nUuid := hs];
    r := d[topic := m[nUuid := hs]];
  }

  // The body of RemoveHandlersForNode on the nested maps.
  method Evict<T>(d: Data<T>, topic: string, nUuid: string) returns (r: Data<T>, removed: bool)
    requires Canonical(d)
    ensures r == Emptied(d, topic, nUuid)
    ensures removed == (topic in d && nUuid in d[topic])
  {
    SetNodeSame(d, topic, nUuid);
    r, removed := d, false;
    if topic in d {
      var m := d[topic];
      removed := nUuid in m;
      m := m - {nUuid};
      r := if m == map[] then d - {topic} else d[topic := m];
    }
  }

  // The body of RemoveHandler on the nested maps.
  method Erase<T>(d: Data<T>, topic: string, nUuid: string, reqUuid: string) returns (r: Data<T>, counted: bool)
    requires Canonical(d)
    ensures r == SetNode(d, topic, nUuid, NodeAt(d, topic, nUuid) - {reqUuid})
    ensures counted == (reqUuid in NodeAt(d, topic, nUuid) && NodeAt(r, topic, nUuid) == map[])
  {
    SetNodeSame(d, topic, nUuid);
    r, counted := d, false;
    if topic in d && nUuid in d[topic] {
      var m := d[topic];
      var hs := m[nUuid] - {reqUuid};
      if hs == map[] {
        assert d[topic][nUuid] != map[];
        m := m - {nUuid};
        counted := true;
      } else {
        m := m[nUuid := hs];
        assert nUuid in m;
      }
      r := if m == map[] then r - {topic} else r[topic := m];
    } else {
      assert NodeAt(d, topic, nUuid) - {reqUuid} == map[];
    }
  }
}
