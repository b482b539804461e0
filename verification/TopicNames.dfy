// Topic names (src/TopicUtils.cc) and the way src/Node.cc takes them apart again.
module TopicNames {
  import opened Types

  predicate PairAt(s: string, i: nat)
    requires i + 1 < |s|
  {
    s[i] == '/' && s[i + 1] == '/'
  }

  predicate DoubleSlash(s: string) {
    exists i | 0 <= i < |s| - 1 :: PairAt(s, i)
  }

  predicate IsValidNamespace(ns: string) {
    ns != "/" && '~' !in ns && ' ' !in ns && !DoubleSlash(ns) && '@' !in ns
  }

  predicate IsValidTopic(topic: string) {
    IsValidNamespace(topic) && topic != ""
  }

  predicate Leads(s: string) {
    s != "" && s[0] == '/'
  }

  predicate Trails(s: string) {
    s != "" && s[|s| - 1] == '/'
  }

  // ---- What a name means ----

  // A partition, a namespace or a topic without the slashes at its ends.
  function Core(s: string): string {
    var a := if Leads(s) then s[1..] else s;
    if Trails(a) then a[..|a| - 1] else a
  }

  function Slashed(core: string): string {
    if core == "" then "" else "/" + core
  }

  // The absolute name a topic has in a namespace.
  function AbsoluteName(ns: string, topic: string): string {
    if Leads(topic) then Slashed(Core(topic)) else Slashed(Core(ns)) + Slashed(Core(topic))
  }

  function Join(partition: string, name: string): string {
    "@" + partition + "@" + name
  }

  function FullName(partition: string, ns: string, topic: string): Option<string> {
    if IsValidNamespace(partition) && IsValidNamespace(ns) && IsValidTopic(topic)
    then Some(Join(Slashed(Core(partition)), AbsoluteName(ns, topic))) else None
  }

  lemma CoreParts(s: string)
    requires IsValidNamespace(s)
    ensures !Leads(Core(s)) && !Trails(Core(s))
    ensures s != "" ==> Core(s) != ""
    ensures s == (if Leads(s) then "/" else "") + Core(s) + (if Trails(s) then "/" else "")
  {
    if |s| > 1 {
      assert !PairAt(s, 0) && !PairAt(s, |s| - 2);
    }
  }

  function LeadIt(s: string): string {
    if s != "" && s[0] != '/' then "/" + s else s
  }

  function UntrailIt(s: string): string {
    if s != "" && s[|s| - 1] == '/' then s[..|s| - 1] else s
  }

  lemma EditPartition(s: string)
    requires IsValidNamespace(s)
    ensures UntrailIt(LeadIt(s)) == Slashed(Core(s))
  {
    CoreParts(s);
    var c := Core(s);
    if c != "" {
      assert LeadIt(s) == "/" + c + (if Trails(s) then "/" else "");
    }
  }

  lemma EditNamespace(s: string)
    requires IsValidNamespace(s)
    ensures var t := if s == "" || s[|s| - 1] != '/' then s + "/" else s;
            t != "" && LeadIt(t) == Slashed(Core(s)) + "/"
  {
    CoreParts(s);
    var c, t := Core(s), if s == "" || s[|s| - 1] != '/' then s + "/" else s;
    assert t == (if Leads(s) then "/" else "") + c + "/";
  }

  lemma EditTopic(s: string)
    requires IsValidTopic(s)
    ensures UntrailIt(s) == if Leads(s) then Slashed(Core(s)) else Core(s)
    ensures Core(s) != "" && !Leads(Core(s))
  {
    CoreParts(s);
  }

  // TopicUtils::GetFullyQualifiedName, editing its three local strings step by step.
  method GetFullyQualifiedName(partition0: string, ns0: string, topic0: string, name0: string)
    returns (ok: bool, name: string)
    ensures ok <==> FullName(partition0, ns0, topic0).Some?
    ensures name == if ok then FullName(partition0, ns0, topic0).value else name0
  {
    name := name0;
    if !IsValidNamespace(partition0) || !IsValidNamespace(ns0) || !IsValidTopic(topic0) {
      return false, name;
    }
    EditPartition(partition0);
    EditNamespace(ns0);
    EditTopic(topic0);
    var partition, ns, topic := partition0, ns0, topic0;
    if partition != "" && partition[0] != '/' {
      partition := "/" + partition;
    }
    assert partition == LeadIt(partition0);
    if partition != "" && partition[|partition| - 1] == '/' {
      partition := partition[..|partition| - 1];
    }
    assert partition == Slashed(Core(partition0));
    if ns == "" || ns[|ns| - 1] != '/' {
      ns := ns + "/";
    }
    if ns == "" || ns[0] != '/' {
      ns := "/" + ns;
    }
    assert ns == Slashed(Core(ns0)) + "/";
    if topic != "" && topic[|topic| - 1] == '/' {
      topic := topic[..|topic| - 1];
    }
    if topic != "" && topic[0] == '/' {
      name := topic;
    } else {
      name := ns + topic;
    }
    NameBuilt(partition0, ns0, topic0, ns, topic);
    name := "@" + partition + "@" + name;
    return true, name;
  }

  lemma NameBuilt(partition0: string, ns0: string, topic0: string, ns: string, topic: string)
    requires IsValidNamespace(partition0) && IsValidNamespace(ns0) && IsValidTopic(topic0)
    requires ns == Slashed(Core(ns0)) + "/"
    requires topic == if Leads(topic0) then Slashed(Core(topic0)) else Core(topic0)
    ensures (if Leads(topic) then topic else ns + topic) == AbsoluteName(ns0, topic0)
  {
    EditTopic(topic0);
    if !Leads(topic0) {
      assert (Slashed(Core(ns0)) + "/") + topic == Slashed(Core(ns0)) + ("/" + topic);
    }
  }

  // ---- What is accepted, and the name it gives, by the characters alone ----

  // No '~', no space, no '@', no two slashes in a row, and not "/"; a slash at either end is fine.
  predicate Plain(s: string) {
    && s != "/" && (forall i | 0 <= i < |s| :: s[i] != '~' && s[i] != ' ' && s[i] != '@')
    && (forall i | 0 < i < |s| :: s[i] == '/' ==> s[i - 1] != '/')
  }

  lemma AcceptedIff(partition: string, ns: string, topic: string)
    ensures FullName(partition, ns, topic).Some? <==> Plain(partition) && Plain(ns) && Plain(topic) && topic != ""
  {
    ValidIsPlain(partition);
    ValidIsPlain(ns);
    ValidIsPlain(topic);
  }

  lemma ValidIsPlain(s: string)
    ensures IsValidNamespace(s) <==> Plain(s)
  {
    if IsValidNamespace(s) {
      forall i | 0 < i < |s| && s[i] == '/' ensures s[i - 1] != '/' {
        assert !PairAt(s, i - 1);
      }
    }
  }

  // Plain, with no slash at either end.
  predicate Bare(c: string) {
    Plain(c) && (c != "" ==> c[0] != '/' && c[|c| - 1] != '/')
  }

  // With a slash in front, behind, both or neither.
  function Around(c: string, lead: bool, trail: bool): string {
    if c == "" then "" else (if lead then "/" else "") + c + (if trail then "/" else "")
  }

  lemma AroundCore(c: string, lead: bool, trail: bool)
    requires Bare(c) && c != ""
    ensures Core(Around(c, lead, trail)) == c && (Leads(Around(c, lead, trail)) <==> lead)
  {
    var s := Around(c, lead, trail);
    var a := if lead then s[1..] else s;
    assert a == c + (if trail then "/" else "");
    assert trail ==> a[..|a| - 1] == c;
  }

  // s is c with at most one slash on either side, n in front.
  ghost predicate Framed(s: string, c: string, n: nat) {
    && n <= 1 && n + |c| <= |s| <= n + |c| + 1
    && forall i | 0 <= i < |s| :: s[i] == if n <= i < n + |c| then c[i - n] else '/'
  }

  lemma AroundFramed(c: string, lead: bool, trail: bool)
    requires c != ""
    ensures Framed(Around(c, lead, trail), c, if lead then 1 else 0)
  {
  }

  lemma FramedPlain(s: string, c: string, n: nat)
    requires Bare(c) && c != "" && Framed(s, c, n)
    ensures Plain(s)
  {
    assert s[n] == c[0];
    forall i | 0 < i < |s| && s[i] == '/' ensures s[i - 1] != '/' {
      assert s[i - 1] == if n <= i - 1 < n + |c| then c[i - 1 - n] else '/';
    }
  }

  lemma AroundPlain(c: string, lead: bool, trail: bool)
    requires Bare(c)
    ensures Plain(Around(c, lead, trail)) && Core(Around(c, lead, trail)) == c
    ensures c != "" ==> (Leads(Around(c, lead, trail)) <==> lead)
  {
    if c != "" {
      AroundCore(c, lead, trail);
      AroundFramed(c, lead, trail);
      FramedPlain(Around(c, lead, trail), c, if lead then 1 else 0);
    }
  }

  lemma NameOfCores(partition: string, ns: string, topic: string)
    requires FullName(partition, ns, topic).Some?
    ensures var p, n, t := Core(partition), Core(ns), Core(topic);
            FullName(partition, ns, topic).value
            == "@" + (if p == "" then "" else "/" + p) + "@"
               + ((if Leads(topic) || n == "" then "" else "/" + n) + ("/" + t))
  {
    EditTopic(topic);
    assert "" + Slashed(Core(topic)) == Slashed(Core(topic));
  }

  // Slashes around partition and namespace make no difference, one behind the topic neither; one in front of it
  // makes it absolute.
  lemma NameOfBare(p: string, n: string, t: string, lp: bool, tp: bool, ln: bool, tn: bool, lt: bool, tt: bool)
    requires Bare(p) && Bare(n) && Bare(t) && t != ""
    ensures FullName(Around(p, lp, tp), Around(n, ln, tn), Around(t, lt, tt))
         == Some("@" + (if p == "" then "" else "/" + p) + "@" + ((if lt || n == "" then "" else "/" + n) + ("/" + t)))
  {
    AroundPlain(p, lp, tp);
    AroundPlain(n, ln, tn);
    AroundPlain(t, lt, tt);
    AcceptedIff(Around(p, lp, tp), Around(n, ln, tn), Around(t, lt, tt));
    NameOfCores(Around(p, lp, tp), Around(n, ln, tn), Around(t, lt, tt));
  }

  // ---- Taking a name apart (src/Node.cc:393-403) ----

  // find_last_of("@"); None is npos.
  function LastAt(s: string): (r: Option<nat>)
    ensures r.None? <==> '@' !in s
    ensures r.Some? ==> r.value < |s| && s[r.value] == '@' && forall i | r.value < i < |s| :: s[i] != '@'
  {
    if s == "" then None
    else if s[|s| - 1] == '@' then Some(|s| - 1)
    else LastAt(s[..|s| - 1])
  }

  // topic.erase(0, topic.find_last_of("@") + 1); npos + 1 is 0.
  function Stripped(s: string): string {
    match LastAt(s)
    case None => s
    case Some(i) => s[i + 1..]
  }

  // topic.substr(1, topic.find_last_of("@") - 1), for the names the library makes.
  function PartitionOf(s: string): string {
    match LastAt(s)
    case None => if s == "" then "" else s[1..]
    case Some(i) => if i == 0 then s[1..] else s[1..i]
  }

  // A partition inside a full name: empty, or led by a slash and not ended by one.
  predicate GoodPartition(p: string) {
    (p == "" || Leads(p)) && !Trails(p) && Clean(p)
  }

  predicate GoodName(n: string) {
    Leads(n) && !Trails(n) && Clean(n)
  }

  lemma CoreWithin(s: string) returns (at: nat)
    ensures at + |Core(s)| <= |s| && forall i | 0 <= i < |Core(s)| :: Core(s)[i] == s[at + i]
  {
    at := if Leads(s) then 1 else 0;
  }

  predicate Clean(s: string) {
    !DoubleSlash(s) && '@' !in s && '~' !in s && ' ' !in s
  }

  lemma CoreClean(s: string)
    requires IsValidNamespace(s)
    ensures Clean(Core(s))
  {
    var at := CoreWithin(s);
    var c := Core(s);
    forall i | 0 <= i < |c| - 1 ensures !PairAt(c, i) {
      assert !PairAt(s, at + i);
    }
  }

  lemma LedClean(c: string)
    requires c != "" && Clean(c) && !Leads(c)
    ensures Clean("/" + c)
  {
    var p := "/" + c;
    forall i | 0 <= i < |p| - 1 ensures !PairAt(p, i) {
      if i > 0 {
        assert !PairAt(c, i - 1);
      }
    }
  }

  lemma SlashedGood(s: string)
    requires IsValidNamespace(s)
    ensures GoodPartition(Slashed(Core(s))) && (s != "" ==> GoodName(Slashed(Core(s))))
  {
    CoreParts(s);
    CoreClean(s);
    if Core(s) != "" {
      LedClean(Core(s));
    }
  }

  lemma ConcatGood(p: string, n: string)
    requires GoodPartition(p) && GoodName(n)
    ensures GoodName(p + n)
  {
    var s := p + n;
    forall i | 0 <= i < |s| - 1 ensures !PairAt(s, i) {
      if i < |p| - 1 {
        assert !PairAt(p, i);
      } else if i >= |p| {
        assert !PairAt(n, i - |p|);
      }
    }
  }

  lemma JoinAts(p: string, a: string)
    requires '@' !in p && '@' !in a
    ensures var n := Join(p, a);
            forall i | 0 <= i < |n| :: n[i] == '@' <==> i == 0 || i == 1 + |p|
  {
  }

  // Every accepted triple gives @P@N with exactly two '@'.
  lemma NameShape(partition: string, ns: string, topic: string)
    requires FullName(partition, ns, topic).Some?
    ensures var n := FullName(partition, ns, topic).value;
            var p, a := Slashed(Core(partition)), AbsoluteName(ns, topic);
            && n == "@" + p + "@" + a && GoodPartition(p) && GoodName(a)
            && forall i | 0 <= i < |n| :: n[i] == '@' <==> i == 0 || i == 1 + |p|
  {
    SlashedGood(partition);
    SlashedGood(ns);
    SlashedGood(topic);
    if !Leads(topic) {
      ConcatGood(Slashed(Core(ns)), Slashed(Core(topic)));
    }
    JoinAts(Slashed(Core(partition)), AbsoluteName(ns, topic));
  }

  // Splitting at the last '@' recovers partition and name.
  lemma SplitJoin(p: string, a: string)
    requires '@' !in p && '@' !in a
    ensures Stripped(Join(p, a)) == a && PartitionOf(Join(p, a)) == p
  {
    var n := Join(p, a);
    assert n[1 + |p|] == '@';
    var i := LastAt(n).value;
    assert n[2 + |p|..] == a;
    assert forall k | 2 + |p| <= k < |n| :: n[k] == a[k - 2 - |p|];
    assert i == 1 + |p|;
    assert n[i + 1..] == a && n[1..i] == p;
  }

  // Two names are equal exactly when partition, up to the slashes at its ends, and absolute name are.
  lemma NamesEqual(p1: string, ns1: string, t1: string, p2: string, ns2: string, t2: string)
    requires FullName(p1, ns1, t1).Some? && FullName(p2, ns2, t2).Some?
    ensures FullName(p1, ns1, t1) == FullName(p2, ns2, t2)
       <==> Core(p1) == Core(p2) && AbsoluteName(ns1, t1) == AbsoluteName(ns2, t2)
  {
    NameShape(p1, ns1, t1);
    NameShape(p2, ns2, t2);
    SplitJoin(Slashed(Core(p1)), AbsoluteName(ns1, t1));
    SplitJoin(Slashed(Core(p2)), AbsoluteName(ns2, t2));
    if Slashed(Core(p1)) == Slashed(Core(p2)) {
      assert Core(p1) == (if Core(p1) == "" then "" else Slashed(Core(p1))[1..]);
      assert Core(p2) == (if Core(p2) == "" then "" else Slashed(Core(p2))[1..]);
    }
  }

  lemma CoreOfSlashed(a: string)
    requires GoodName(a)
    ensures IsValidTopic(a) && Slashed(Core(a)) == a
  {
  }

  // A stripped name, qualified again by the same partition and any namespace, is the full name it
  // was stripped from.
  lemma Requalify(partition: string, ns: string, topic: string, ns': string)
    requires FullName(partition, ns, topic).Some? && IsValidNamespace(ns')
    ensures FullName(partition, ns', Stripped(FullName(partition, ns, topic).value)) == FullName(partition, ns, topic)
  {
    NameShape(partition, ns, topic);
    SplitJoin(Slashed(Core(partition)), AbsoluteName(ns, topic));
    CoreOfSlashed(AbsoluteName(ns, topic));
  }

  // A relative topic means the absolute topic that spells its namespace out.
  lemma RelativeIsAbsolute(partition: string, ns: string, topic: string, ns': string)
    requires FullName(partition, ns, topic).Some? && IsValidNamespace(ns')
    ensures FullName(partition, ns', AbsoluteName(ns, topic)) == FullName(partition, ns, topic)
  {
    NameShape(partition, ns, topic);
    CoreOfSlashed(AbsoluteName(ns, topic));
  }

  // ---- Listings (src/Node.cc:382-435) ----

  // The test of GetTopicList: the partition of the name without its front slash against the node's
  // partition as it was given.
  predicate Listed(partition: string, name: string) {
    var p := PartitionOf(name);
    (if p == "" then "" else p[1..]) == partition
  }

  // Of the names made with partition q, a node with partition p lists those with q equal to p up to
  // the slashes at q's ends, provided p itself has none: a node whose partition was given with a
  // slash at either end lists nothing, not even its own topics.
  lemma ListedIff(p: string, q: string, ns: string, topic: string)
    requires IsValidNamespace(p) && FullName(q, ns, topic).Some?
    ensures Listed(p, FullName(q, ns, topic).value) <==> !Leads(p) && !Trails(p) && Core(q) == Core(p)
  {
    NameShape(q, ns, topic);
    SplitJoin(Slashed(Core(q)), AbsoluteName(ns, topic));
    CoreParts(p);
    CoreParts(q);
    assert Core(q) != "" ==> Slashed(Core(q))[1..] == Core(q);
    assert p == Core(p) <==> !Leads(p) && !Trails(p);
  }

  lemma OwnTopicNotListed()
    ensures FullName("/p", "", "t") == Some("@/p@/t") && !Listed("/p", "@/p@/t")
  {
    assert Core("/p") == "p" && Core("t") == "t" && Core("") == "";
    assert AbsoluteName("", "t") == "/t" && Slashed("p") == "/p";
    assert Join("/p", "/t") == "@/p@/t";
    assert !DoubleSlash("/p") && !DoubleSlash("") && !DoubleSlash("t");
    assert IsValidNamespace("/p") && IsValidNamespace("") && IsValidTopic("t");
    ListedIff("/p", "/p", "", "t");
  }
}
