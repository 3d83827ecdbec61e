/**
 Lists of ids in which an id is searched and erased: worker vectors, the clients of an object, the
 list of released objects, and the vectors of waiting requests.
 */
module IdLists {

  predicate NoRepeat(s: seq<nat>) {
    forall i, j :: 0 <= i < j < |s| ==> s[i] != s[j]
  }

  function Find(s: seq<nat>, x: nat): (i: nat)
    requires x in s
    ensures i < |s| && s[i] == x
  {
    if s[0] == x then 0 else 1 + Find(s[1..], x)
  }

  /** The list without the first occurrence of `x`. */
  function Without(s: seq<nat>, x: nat): seq<nat> {
    if x in s then s[..Find(s, x)] + s[Find(s, x) + 1..] else s
  }

  lemma ErasedAt(s: seq<nat>, k: nat, r: seq<nat>)
    requires NoRepeat(s) && k < |s| && r == s[..k] + s[k + 1..]
    ensures NoRepeat(r) && forall y :: y in r <==> y in s && y != s[k]
  {
    forall i | 0 <= i < |r| ensures r[i] == s[if i < k then i else i + 1] {}
    forall y | y in s && y != s[k] ensures y in r {
      var i :| 0 <= i < |s| && s[i] == y;
      assert r[if i < k then i else i - 1] == y;
    }
  }

  lemma WithoutRemoves(s: seq<nat>, x: nat)
    requires NoRepeat(s)
    ensures NoRepeat(Without(s, x))
    ensures forall y :: y in Without(s, x) <==> y in s && y != x
  {
    if x in s {
      ErasedAt(s, Find(s, x), Without(s, x));
    }
  }

  lemma WithoutLast(s: seq<nat>, x: nat)
    requires x !in s
    ensures Without(s + [x], x) == s && Without(s, x) == s
  {
    FindFirst(s + [x], x, |s|);
    assert (s + [x])[..|s|] + (s + [x])[|s| + 1..] == s;
  }

  lemma WithoutMiddle(a: seq<nat>, x: nat, b: seq<nat>)
    requires x !in a
    ensures Without(a + ([x] + b), x) == a + b
  {
    var s := a + ([x] + b);
    assert s[|a|] == x && forall i :: 0 <= i < |a| ==> s[i] == a[i];
    FindFirst(s, x, |a|);
    assert s[..|a|] == a && s[|a| + 1..] == b;
  }

  lemma {:induction false} FindFirst(s: seq<nat>, x: nat, k: nat)
    requires k < |s| && s[k] == x && forall i :: 0 <= i < k ==> s[i] != x
    ensures Find(s, x) == k
  {
    if k > 0 {
      FindFirst(s[1..], x, k - 1);
    }
  }

  lemma WithoutAt(s: seq<nat>, k: nat)
    requires k < |s| && s[k] !in s[..k]
    ensures |Without(s, s[k])| == |s| - 1 && Without(s, s[k])[k..] == s[k + 1..]
  {
    assert forall i :: 0 <= i < k ==> s[i] == s[..k][i];
    FindFirst(s, s[k], k);
  }

  /** The list without the first `n` occurrences of `x`. */
  function Strip(s: seq<nat>, x: nat, n: nat): seq<nat> {
    if n == 0 then s else Without(Strip(s, x, n - 1), x)
  }

  function Copies(x: nat, n: nat): (r: seq<nat>)
    ensures |r| == n
  {
    seq(n, _ => x)
  }

  lemma {:induction false} CopiesCount(x: nat, n: nat, y: nat)
    ensures multiset(Copies(x, n))[y] == if y == x then n else 0
  {
    if n > 0 {
      assert Copies(x, n) == [x] + Copies(x, n - 1);
      CopiesCount(x, n - 1, y);
    } else {
      assert Copies(x, n) == [];
    }
  }

  /** Stripping a list in which the copies of `x` stand together. */
  lemma {:induction false} StripMiddle(a: seq<nat>, x: nat, k: nat, b: seq<nat>, n: nat)
    requires x !in a && x !in b
    ensures Strip(a + (Copies(x, k) + b), x, n) == a + (Copies(x, if n <= k then k - n else 0) + b)
  {
    if n > 0 {
      StripMiddle(a, x, k, b, n - 1);
      var left := if n - 1 <= k then k - (n - 1) else 0;
      if left > 0 {
        assert Copies(x, left) + b == [x] + (Copies(x, left - 1) + b);
        WithoutMiddle(a, x, Copies(x, left - 1) + b);
      } else {
        assert Copies(x, 0) + b == b;
        assert x !in a + b;
      }
    }
  }

  lemma {:induction false} StripShrinks(s: seq<nat>, x: nat, n: nat)
    ensures |Strip(s, x, n)| <= |s| && forall y :: y in Strip(s, x, n) ==> y in s
    ensures x in s && n > 0 ==> |Strip(s, x, n)| < |s|
  {
    if n > 0 {
      StripShrinks(s, x, n - 1);
      var t := Strip(s, x, n - 1);
      forall y | y in Without(t, x) ensures y in s {
        assert y in t;
      }
    }
  }

  /** The ids as a set. */
  function AsSet(s: seq<nat>): set<nat> {
    set x | x in s
  }

  /** A list has as many different ids as positions exactly when no id repeats. */
  lemma {:induction false} DistinctIff(s: seq<nat>)
    ensures |AsSet(s)| <= |s|
    ensures |AsSet(s)| == |s| <==> NoRepeat(s)
  {
    if s != [] {
      var front, x := s[..|s| - 1], s[|s| - 1];
      assert s == front + [x];
      DistinctIff(front);
      assert AsSet(s) == AsSet(front) + {x};
      if x in front {
        var i :| 0 <= i < |front| && front[i] == x;
        assert s[i] == s[|s| - 1];
      } else {
        assert forall i :: 0 <= i < |front| ==> front[i] == s[i];
      }
    }
  }

  lemma {:induction false} DistinctOccursOnce(s: seq<nat>, x: nat)
    requires NoRepeat(s)
    ensures multiset(s)[x] == if x in s then 1 else 0
  {
    if s != [] {
      assert s == [s[0]] + s[1..];
      DistinctOccursOnce(s[1..], x);
    }
  }

  lemma Regroup(u: seq<nat>, v: seq<nat>, w: seq<nat>)
    ensures u + (v + w) == (u + v) + w
  {
  }
}
