// The iteration order of std::map<std::string, ...>: keys in lexicographic order.
module Ordering {

  // std::string's operator<.
  predicate Less(a: string, b: string) {
    b != [] && (a == [] || a[0] < b[0] || (a[0] == b[0] && Less(a[1..], b[1..])))
  }

  lemma {:induction false} LessTrichotomy(a: string, b: string)
    ensures Less(a, b) || a == b || Less(b, a)
    ensures !(Less(a, b) && Less(b, a))
    ensures !Less(a, a)
  {
    if a != [] && b != [] {
      LessTrichotomy(a[1..], b[1..]);
      LessTrichotomy(a[1..], a[1..]);
      if a[0] == b[0] && a[1..] == b[1..] {
        assert a == [a[0]] + a[1..] == [b[0]] + b[1..] == b;
      }
    } else if a != [] {
      LessTrichotomy(a[1..], a[1..]);
    }
  }

  lemma {:induction false} LessTransitive(a: string, b: string, c: string)
    requires Less(a, b) && Less(b, c)
    ensures Less(a, c)
  {
    if a != [] && a[0] == b[0] && b[0] == c[0] {
      LessTransitive(a[1..], b[1..], c[1..]);
    }
  }

  // a is a proper prefix of b, or has the smaller char at the first place where they differ.
  lemma {:induction false} LessIs(a: string, b: string)
    ensures Less(a, b) <==>
            a < b || exists i :: 0 <= i < |a| && i < |b| && a[..i] == b[..i] && a[i] < b[i]
  {
    if a != [] && b != [] && a[0] == b[0] {
      LessIs(a[1..], b[1..]);
      if i :| 0 <= i < |a[1..]| && i < |b[1..]| && a[1..][..i] == b[1..][..i] && a[1..][i] < b[1..][i] {
        assert a[..i + 1] == [a[0]] + a[1..][..i] && b[..i + 1] == [b[0]] + b[1..][..i];
      }
      if i :| 0 <= i < |a| && i < |b| && a[..i] == b[..i] && a[i] < b[i] {
        assert a[1..][..i - 1] == a[..i][1..] && b[1..][..i - 1] == b[..i][1..];
      }
      assert a < b <==> a[1..] < b[1..];
    }
  }

  predicate IsLeast(k: string, s: set<string>) {
    k in s && forall x | x in s :: x == k || Less(k, x)
  }

  lemma LeastExists(s: set<string>)
    requires s != {}
    ensures exists k :: IsLeast(k, s)
  {
    var x :| x in s;
    if s == {x} {
      assert IsLeast(x, s);
    } else {
      LeastExists(s - {x});
      var k :| IsLeast(k, s - {x});
      LessTrichotomy(x, k);
      if Less(x, k) {
        forall y | y in s ensures y == x || Less(x, y) {
          if y != x && y != k { LessTransitive(x, k, y); }
        }
        assert IsLeast(x, s);
      } else {
        assert IsLeast(k, s);
      }
    }
  }

  lemma LeastUnique(s: set<string>)
    ensures forall j, k | IsLeast(j, s) && IsLeast(k, s) :: j == k
  {
    forall j, k | IsLeast(j, s) && IsLeast(k, s) ensures j == k {
      LessTrichotomy(j, k);
    }
  }

  // *begin() of a non-empty ordered set of keys.
  function Least(s: set<string>): (k: string)
    requires s != {}
    ensures IsLeast(k, s)
  {
    LeastExists(s);
    LeastUnique(s);
    var k :| IsLeast(k, s);
    k
  }

  ghost predicate Increasing(ks: seq<string>) {
    forall i, j | 0 <= i < j < |ks| :: Less(ks[i], ks[j])
  }

  // The keys in the order begin() .. end() visits them.
  function Keys(s: set<string>): (ks: seq<string>)
    ensures forall k :: k in ks <==> k in s
    ensures |ks| == |s|
    ensures Increasing(ks)
    decreases |s|
  {
    if s == {} then [] else
      var k := Least(s);
      [k] + Keys(s - {k})
  }

  lemma IncreasingDistinct(ks: seq<string>)
    requires Increasing(ks)
    ensures forall i, j | 0 <= i < j < |ks| :: ks[i] != ks[j]
  {
    forall i, j | 0 <= i < j < |ks| ensures ks[i] != ks[j] {
      LessTrichotomy(ks[i], ks[j]);
    }
  }

  // An ordered listing of a set is unique, so Keys is the only possible iteration order.
  lemma {:induction false} IncreasingUnique(xs: seq<string>, ys: seq<string>)
    requires Increasing(xs) && Increasing(ys)
    requires forall k :: k in xs <==> k in ys
    ensures xs == ys
  {
    assert |xs| > 0 ==> xs[0] in ys;
    assert |ys| > 0 ==> ys[0] in xs;
    if xs != [] {
      LessTrichotomy(xs[0], ys[0]);
      assert xs[0] == ys[0];
      IncreasingDistinct(xs);
      IncreasingDistinct(ys);
      forall k ensures k in xs[1..] <==> k in ys[1..] {
        if k in xs[1..] { assert k in xs && k != xs[0]; }
        if k in ys[1..] { assert k in ys && k != ys[0]; }
      }
      IncreasingUnique(xs[1..], ys[1..]);
      assert xs == [xs[0]] + xs[1..];
    }
  }

  // The keys an iteration has already visited after i steps.
  ghost function Visited(ks: seq<string>, i: nat): set<string>
    requires i <= |ks|
  {
    set k | k in ks[..i]
  }

  lemma VisitNext(ks: seq<string>, i: nat)
    requires Increasing(ks) && i < |ks|
    ensures ks[i] !in Visited(ks, i)
    ensures Visited(ks, i + 1) == Visited(ks, i) + {ks[i]}
  {
    IncreasingDistinct(ks);
    assert ks[..i + 1] == ks[..i] + [ks[i]];
  }

  lemma VisitedAll(s: set<string>)
    ensures Visited(Keys(s), 0) == {}
    ensures Visited(Keys(s), |s|) == s
  {
  }
}
