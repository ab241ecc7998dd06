/** Perm / perm (day07): visit every ordering of an array by swapping
    elements in place, calling a callback on each ordering, and restore the
    array on the way out. The model returns the orderings the callback
    would see, in the order it would see them. */
module Permutations {

  function Swap(s: seq<int>, i: nat, j: nat): (r: seq<int>)
    requires i < |s| && j < |s|
    ensures |r| == |s| && r[i] == s[j] && r[j] == s[i]
    ensures forall k :: 0 <= k < |s| && k != i && k != j ==> r[k] == s[k]
  {
    s[i := s[j]][j := s[i]]
  }

  /** The orderings perm(a, f, i) passes to f: first those with a[i] kept,
      then, for j = i+1 .. |a|-1, those of a with a[i] and a[j] swapped.
      The recursion bottoms out one level below |a| (the source tests
      `i > len(a)`), which calls f once there, as `i >= len(a)` would. */
  function Perms(a: seq<int>, i: nat): seq<seq<int>>
    decreases |a| + 1 - i, 1, 0
  {
    if i > |a| then [a]
    else Perms(a, i + 1) + Swaps(a, i, i + 1)
  }

  /** The orderings visited by the loop of perm(a, f, i) from j on. */
  function Swaps(a: seq<int>, i: nat, j: nat): seq<seq<int>>
    requires i <= |a| && i < j
    decreases |a| + 1 - i, 0, |a| - j
  {
    if j >= |a| then [] else Perms(Swap(a, i, j), i + 1) + Swaps(a, i, j + 1)
  }

  /** No ordering appears twice. */
  predicate Distinct<T(==)>(s: seq<T>) {
    forall x, y :: 0 <= x < y < |s| ==> s[x] != s[y]
  }

  /** b is an ordering of a that keeps a's first i elements in place. */
  predicate Reorders(a: seq<int>, i: nat, b: seq<int>) {
    |b| == |a| && i <= |a| && b[..i] == a[..i] && multiset(b) == multiset(a)
  }

  lemma SwapReorders(a: seq<int>, i: nat, j: nat)
    requires i < j < |a|
    ensures Reorders(a, i, Swap(a, i, j)) && Swap(a, i, j)[..i] == a[..i]
  {
    var b := Swap(a, i, j);
    assert b == a[..i] + [a[j]] + a[i + 1..j] + [a[i]] + a[j + 1..];
    assert a == a[..i] + [a[i]] + a[i + 1..j] + [a[j]] + a[j + 1..];
  }

  lemma ReordersTrans(a: seq<int>, b: seq<int>, c: seq<int>, i: nat, k: nat)
    requires Reorders(a, i, b) && Reorders(b, k, c) && i <= k
    ensures Reorders(a, i, c)
  {
    assert c[..i] == c[..k][..i];
    assert b[..i] == b[..k][..i];
  }

  /** Soundness: every ordering visited is an ordering of a that leaves the
      first i elements alone. */
  lemma {:induction false} PermsReorder(a: seq<int>, i: nat)
    requires i <= |a| + 1
    ensures forall p :: p in Perms(a, i) ==> Reorders(a, if i <= |a| then i else |a|, p)
    decreases |a| + 1 - i, 1, 0
  {
    if i <= |a| {
      PermsReorder(a, i + 1);
      forall p | p in Perms(a, i + 1)
        ensures Reorders(a, i, p)
      {
        var k := if i + 1 <= |a| then i + 1 else |a|;
        assert p[..i] == p[..k][..i];
      }
      SwapsReorder(a, i, i + 1);
    }
  }

  lemma {:induction false} SwapsReorder(a: seq<int>, i: nat, j: nat)
    requires i <= |a| && i < j
    ensures forall p :: p in Swaps(a, i, j) ==> Reorders(a, i, p)
    decreases |a| + 1 - i, 0, |a| - j
  {
    if j < |a| {
      var b := Swap(a, i, j);
      SwapReorders(a, i, j);
      PermsReorder(b, i + 1);
      forall p | p in Perms(b, i + 1)
        ensures Reorders(a, i, p)
      {
        ReordersTrans(a, b, p, i, i + 1);
      }
      SwapsReorder(a, i, j + 1);
    }
  }

  /** Every visited ordering of a has b's element at index i when it comes
      from Perms(b, i + 1). */
  lemma HeadAt(b: seq<int>, i: nat, p: seq<int>)
    requires i < |b| && p in Perms(b, i + 1)
    ensures i < |p| && p[i] == b[i]
  {
    PermsReorder(b, i + 1);
    assert p[..i + 1][i] == b[..i + 1][i];
  }

  /** The element at index i of every ordering in Swaps(a, i, j) is one of
      a[j..]. */
  lemma {:induction false} SwapsHead(a: seq<int>, i: nat, j: nat)
    requires i < j <= |a|
    ensures forall k :: 0 <= k < |Swaps(a, i, j)| ==> i < |Swaps(a, i, j)[k]| && Swaps(a, i, j)[k][i] in a[j..]
    decreases |a| - j
  {
    if j < |a| {
      var b := Swap(a, i, j);
      var x, y := Perms(b, i + 1), Swaps(a, i, j + 1);
      SwapsHead(a, i, j + 1);
      forall k | 0 <= k < |x + y|
        ensures i < |(x + y)[k]| && (x + y)[k][i] in a[j..]
      {
        if k < |x| {
          HeadAt(b, i, x[k]);
          assert a[j..][0] == a[j];
        } else {
          assert (x + y)[k] == y[k - |x|];
          assert a[j + 1..] == a[j..][1..];
        }
      }
    }
  }

  /** No element of x occurs in y. */
  predicate Apart<T(==)>(x: seq<T>, y: seq<T>) {
    forall u, v :: 0 <= u < |x| && 0 <= v < |y| ==> x[u] != y[v]
  }

  lemma DistinctConcat<T>(x: seq<T>, y: seq<T>)
    requires Distinct(x) && Distinct(y) && Apart(x, y)
    ensures Distinct(x + y)
  {
    forall u, v | 0 <= u < v < |x + y|
      ensures (x + y)[u] != (x + y)[v]
    {
      if v < |x| {
      } else if u >= |x| {
        assert (x + y)[u] == y[u - |x|] && (x + y)[v] == y[v - |x|];
      } else {
        assert (x + y)[u] == x[u] && (x + y)[v] == y[v - |x|];
      }
    }
  }

  lemma SwapDistinct(a: seq<int>, i: nat, j: nat)
    requires Distinct(a) && i < j < |a|
    ensures Distinct(Swap(a, i, j))
  {
  }

  /** In a sequence of distinct elements, a[m] does not occur after index
      j > m. */
  lemma NotLater(a: seq<int>, m: nat, j: nat)
    requires Distinct(a) && m < j <= |a|
    ensures a[m] !in a[j..]
  {
    forall k | 0 <= k < |a[j..]|
      ensures a[j..][k] != a[m]
    {
      assert a[j..][k] == a[j + k];
    }
  }

  /** The orderings of b that keep b[i] at index i share nothing with
      Swaps(a, i, j) when b[i] does not occur in a[j..]. */
  lemma Disjoint(b: seq<int>, a: seq<int>, i: nat, j: nat)
    requires i < |b| && i < j <= |a| && b[i] !in a[j..]
    ensures Apart(Perms(b, i + 1), Swaps(a, i, j))
  {
    var x, y := Perms(b, i + 1), Swaps(a, i, j);
    SwapsHead(a, i, j);
    forall u, v | 0 <= u < |x| && 0 <= v < |y|
      ensures x[u] != y[v]
    {
      HeadAt(b, i, x[u]);
    }
  }

  /** For distinct elements, no ordering is visited twice. */
  lemma {:induction false} PermsDistinct(a: seq<int>, i: nat)
    requires Distinct(a) && i <= |a| + 1
    ensures Distinct(Perms(a, i))
    decreases |a| + 1 - i, 1, 0
  {
    if i <= |a| {
      PermsDistinct(a, i + 1);
      SwapsDistinct(a, i, i + 1);
      if i < |a| {
        NotLater(a, i, i + 1);
        Disjoint(a, a, i, i + 1);
      } else {
        assert Swaps(a, i, i + 1) == [];
      }
      DistinctConcat(Perms(a, i + 1), Swaps(a, i, i + 1));
    }
  }

  lemma {:induction false} SwapsDistinct(a: seq<int>, i: nat, j: nat)
    requires Distinct(a) && i <= |a| && i < j
    ensures Distinct(Swaps(a, i, j))
    decreases |a| + 1 - i, 0, |a| - j
  {
    if j < |a| {
      var b := Swap(a, i, j);
      SwapDistinct(a, i, j);
      PermsDistinct(b, i + 1);
      SwapsDistinct(a, i, j + 1);
      NotLater(a, j, j + 1);
      Disjoint(b, a, i, j + 1);
      DistinctConcat(Perms(b, i + 1), Swaps(a, i, j + 1));
    }
  }

  /** Completeness: every ordering of a that keeps its first i elements is
      visited. */
  lemma {:induction false} PermsComplete(a: seq<int>, i: nat, p: seq<int>)
    requires Reorders(a, i, p)
    ensures p in Perms(a, i)
    decreases |a| - i
  {
    if i == |a| {
      assert p == p[..i] && a == a[..i];
      assert Perms(a, i + 1) == [a];
    } else {
      var j := SourceOfHead(a, i, p);
      assert p[..i + 1] == p[..i] + [p[i]];
      if j == i {
        assert a[..i + 1] == a[..i] + [a[i]];
        PermsComplete(a, i + 1, p);
      } else {
        var b := Swap(a, i, j);
        SwapReorders(a, i, j);
        assert b[..i + 1] == b[..i] + [b[i]];
        PermsComplete(b, i + 1, p);
        SwapsContain(a, i, i + 1, j, p);
      }
    }
  }

  /** The element an ordering places at index i comes from a[i..]. */
  lemma SourceOfHead(a: seq<int>, i: nat, p: seq<int>) returns (j: nat)
    requires Reorders(a, i, p) && i < |a|
    ensures i <= j < |a| && a[j] == p[i]
  {
    assert multiset(p) == multiset(p[..i]) + multiset(p[i..]) by { assert p == p[..i] + p[i..]; }
    assert multiset(a) == multiset(a[..i]) + multiset(a[i..]) by { assert a == a[..i] + a[i..]; }
    assert multiset(p[..i]) == multiset(a[..i]);
    assert multiset(p[i..]) == multiset(a[i..]) by {
      assert multiset(p[i..]) == multiset(p) - multiset(p[..i]);
      assert multiset(a[i..]) == multiset(a) - multiset(a[..i]);
    }
    assert p[i] in multiset(a[i..]) by { assert p[i] == p[i..][0]; }
    var k :| 0 <= k < |a[i..]| && a[i..][k] == p[i];
    j := i + k;
  }

  lemma {:induction false} SwapsContain(a: seq<int>, i: nat, k: nat, j: nat, p: seq<int>)
    requires i < k <= j < |a| && p in Perms(Swap(a, i, j), i + 1)
    ensures p in Swaps(a, i, k)
    decreases j - k
  {
    if k < j {
      SwapsContain(a, i, k + 1, j, p);
    }
  }

  /** perm: visit the orderings of a[i..], restoring a before returning. */
  method PermFrom(a: array<int>, i: nat) returns (calls: seq<seq<int>>)
    modifies a
    ensures a[..] == old(a[..])
    ensures calls == Perms(old(a[..]), i)
    decreases a.Length + 1 - i, 1
  {
    if i > a.Length {
      return [a[..]];
    }
    calls := PermFrom(a, i + 1);
    ghost var orig := a[..];
    var j := i + 1;
    while j < a.Length
      invariant i + 1 <= j && (j <= a.Length || j == i + 1)
      invariant a[..] == orig
      invariant calls + Swaps(orig, i, j) == Perms(orig, i)
      decreases a.Length - j
    {
      var c := VisitSwapped(a, i, j);
      assert Swaps(orig, i, j) == c + Swaps(orig, i, j + 1);
      assert calls + Swaps(orig, i, j) == (calls + c) + Swaps(orig, i, j + 1);
      calls := calls + c;
      j := j + 1;
    }
  }

  /** One pass of perm's loop: swap a[i] and a[j], visit the orderings of
      the rest, and swap back. */
  method VisitSwapped(a: array<int>, i: nat, j: nat) returns (c: seq<seq<int>>)
    requires i < j < a.Length
    modifies a
    ensures a[..] == old(a[..])
    ensures c == Perms(Swap(old(a[..]), i, j), i + 1)
    decreases a.Length + 1 - i, 0
  {
    ghost var orig := a[..];
    a[i], a[j] := a[j], a[i];
    assert a[..] == Swap(orig, i, j);
    c := PermFrom(a, i + 1);
    a[i], a[j] := a[j], a[i];
    assert a[..] == orig;
  }

  /** Perm: with distinct elements, the callback sees every ordering of a
      exactly once, and a is back in its original order afterwards. */
  method Perm(a: array<int>) returns (calls: seq<seq<int>>)
    modifies a
    ensures a[..] == old(a[..])
    ensures forall p :: p in calls <==> |p| == a.Length && multiset(p) == multiset(a[..])
    ensures Distinct(a[..]) ==> Distinct(calls)
  {
    calls := PermFrom(a, 0);
    PermsEveryOrdering(a[..]);
  }

  /** The visited orderings are exactly the orderings of a, and no ordering
      repeats when a's elements are distinct. */
  lemma PermsEveryOrdering(a: seq<int>)
    ensures forall p :: p in Perms(a, 0) <==> |p| == |a| && multiset(p) == multiset(a)
    ensures Distinct(a) ==> Distinct(Perms(a, 0))
  {
    PermsReorder(a, 0);
    forall p | |p| == |a| && multiset(p) == multiset(a)
      ensures p in Perms(a, 0)
    {
      PermsComplete(a, 0, p);
    }
    if Distinct(a) {
      PermsDistinct(a, 0);
    }
  }
}
