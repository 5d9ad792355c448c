/**
 * Java's natural `String` order (`compareTo`): the first differing character decides, and a
 * proper prefix comes first. `TreeMap<String, _>` keeps its keys in this order.
 */
module Lexicographic {

  /** `a.compareTo(b) < 0`. */
  predicate Less(a: string, b: string)
    decreases |a|
  {
    if |a| == 0 then |b| > 0
    else |b| > 0 && (a[0] < b[0] || (a[0] == b[0] && Less(a[1..], b[1..])))
  }

  lemma {:induction false} LessIrreflexive(a: string)
    ensures !Less(a, a)
    decreases |a|
  {
    if |a| > 0 {
      LessIrreflexive(a[1..]);
    }
  }

  lemma {:induction false} LessTransitive(a: string, b: string, c: string)
    requires Less(a, b) && Less(b, c)
    ensures Less(a, c)
    decreases |a|
  {
    if |a| > 0 && a[0] == b[0] && b[0] == c[0] {
      LessTransitive(a[1..], b[1..], c[1..]);
    }
  }

  lemma {:induction false} LessTotal(a: string, b: string)
    requires a != b
    ensures Less(a, b) || Less(b, a)
    decreases |a|
  {
    if |a| > 0 && |b| > 0 && a[0] == b[0] {
      assert a == [a[0]] + a[1..] && b == [b[0]] + b[1..];
      LessTotal(a[1..], b[1..]);
    }
  }

  lemma LessAsymmetric(a: string, b: string)
    requires Less(a, b)
    ensures !Less(b, a) && a != b
  {
    LessIrreflexive(a);
    if Less(b, a) {
      LessTransitive(a, b, a);
    }
  }

  /** Comparing two strings that start with prefixes of the same length: the prefixes decide, and on a tie the rests do. */
  lemma {:induction false} LessAppend(a: string, b: string, c: string, d: string)
    requires |a| == |c|
    ensures Less(a + b, c + d) <==> Less(a, c) || (a == c && Less(b, d))
    decreases |a|
  {
    if |a| == 0 {
      assert a + b == b && c + d == d;
    } else {
      assert (a + b)[0] == a[0] && (c + d)[0] == c[0];
      assert (a + b)[1..] == a[1..] + b && (c + d)[1..] == c[1..] + d;
      assert a == [a[0]] + a[1..] && c == [c[0]] + c[1..];
      LessAppend(a[1..], b, c[1..], d);
    }
  }

  /** Strictly increasing in `Less`, so also free of repetitions. */
  predicate StrictlySorted(s: seq<string>)
  {
    forall i, j :: 0 <= i < j < |s| ==> Less(s[i], s[j])
  }

  lemma SortedHeadBelowAll(s: seq<string>, k: string)
    requires StrictlySorted(s) && |s| > 0 && (k == s[0] || Less(k, s[0]))
    ensures forall j :: 0 < j < |s| ==> Less(k, s[j])
  {
    forall j | 0 < j < |s|
      ensures Less(k, s[j])
    {
      if k != s[0] {
        LessTransitive(k, s[0], s[j]);
      }
    }
  }

  lemma SortedCons(h: string, t: seq<string>)
    requires StrictlySorted(t) && forall x :: x in t ==> Less(h, x)
    ensures StrictlySorted([h] + t)
  {
    var s := [h] + t;
    forall i, j | 0 <= i < j < |s|
      ensures Less(s[i], s[j])
    {
      if i > 0 {
        assert s[i] == t[i - 1] && s[j] == t[j - 1];
      } else {
        assert s[j] in t;
      }
    }
  }

  /** `TreeMap.put` of a key: the key joins the sorted key sequence at its place (a key already there stays once). */
  function {:induction false} Insert(s: seq<string>, k: string): (r: seq<string>)
    requires StrictlySorted(s)
    ensures StrictlySorted(r)
    ensures forall x :: x in r <==> x in s || x == k
    decreases |s|
  {
    if s == [] then [k]
    else if k == s[0] then s
    else if Less(k, s[0]) then
      SortedHeadBelowAll(s, k);
      assert s == [s[0]] + s[1..];
      SortedCons(k, s);
      [k] + s
    else
      LessTotal(k, s[0]);
      var rest := Insert(s[1..], k);
      SortedHeadBelowAll(s, s[0]);
      assert forall x :: x in rest ==> Less(s[0], x) by {
        forall x | x in rest
          ensures Less(s[0], x)
        {
          if x != k {
            var j :| 0 <= j < |s[1..]| && s[1..][j] == x;
            assert s[j + 1] == x;
          }
        }
      }
      SortedCons(s[0], rest);
      [s[0]] + rest
  }

  /** Two strictly sorted sequences with the same elements are the same sequence. */
  lemma {:induction false} SortedUnique(a: seq<string>, b: seq<string>)
    requires StrictlySorted(a) && StrictlySorted(b)
    requires forall x :: x in a <==> x in b
    ensures a == b
    decreases |a|
  {
    if b != [] {
      assert b[0] in a;
    }
    if a != [] {
      assert a[0] in b;
      assert b != [];
      assert b[0] in a;
      if a[0] != b[0] {
        var i :| 0 <= i < |a| && a[i] == b[0];
        var j :| 0 <= j < |b| && b[j] == a[0];
        assert Less(a[0], b[0]);
        assert Less(b[0], a[0]);
        LessAsymmetric(a[0], b[0]);
      }
      forall x
        ensures x in a[1..] <==> x in b[1..]
      {
        if x in a[1..] {
          var i :| 1 <= i < |a| && a[i] == x;
          LessAsymmetric(a[0], a[i]);
          assert x in b;
          var j :| 0 <= j < |b| && b[j] == x;
          assert j != 0;
        }
        if x in b[1..] {
          var j :| 1 <= j < |b| && b[j] == x;
          LessAsymmetric(b[0], b[j]);
          assert x in a;
          var i :| 0 <= i < |a| && a[i] == x;
          assert i != 0;
        }
      }
      SortedUnique(a[1..], b[1..]);
      assert a == [a[0]] + a[1..] && b == [b[0]] + b[1..];
    }
  }

  /** Some strictly sorted sequence holds exactly the given keys. */
  lemma {:induction false} SortedExists(keys: set<string>)
    ensures exists s :: StrictlySorted(s) && forall x :: x in s <==> x in keys
    decreases keys
  {
    if keys == {} {
      assert StrictlySorted([]);
    } else {
      var k :| k in keys;
      SortedExists(keys - {k});
      var s :| StrictlySorted(s) && forall x :: x in s <==> x in keys - {k};
      var r := Insert(s, k);
      assert forall x :: x in r <==> x in keys;
    }
  }

  /** The keys in ascending `compareTo` order: the iteration order of a `TreeMap` over them. */
  ghost function SortedKeys(keys: set<string>): (s: seq<string>)
    ensures StrictlySorted(s)
    ensures forall x :: x in s <==> x in keys
  {
    SortedExists(keys);
    var s :| StrictlySorted(s) && forall x :: x in s <==> x in keys;
    s
  }
}
