/** Day 6: the orbit map records, for each body, the set of bodies that
    orbit it directly. The checksum adds up every body's depth below the
    root; the path search walks down from one body to another. Child sets
    are kept as duplicate-free sequences in insertion order. */
module Orbits {
  import opened Num

  type Graph = map<string, seq<string>>

  predicate NoDups(s: seq<string>) {
    forall i, j :: 0 <= i < j < |s| ==> s[i] != s[j]
  }

  /** Every child set holds each body at most once, as a set does. */
  predicate SetLike(m: Graph) {
    forall a :: a in m ==> NoDups(m[a])
  }

  // ---------------------------------------------------------------------
  // Adding an orbit

  /** The map after recording that b orbits a: a's set is created when
      absent, and b is put into it. */
  function Added(m: Graph, a: string, b: string): Graph {
    if a !in m then m[a := [b]]
    else if b in m[a] then m
    else m[a := m[a] + [b]]
  }

  /** Adding puts b among a's children, keeps every earlier child, touches
      no other entry and keeps the sets duplicate-free. */
  lemma AddedMeaning(m: Graph, a: string, b: string)
    ensures a in Added(m, a, b)
    ensures forall c :: c in Added(m, a, b)[a] <==> c == b || (a in m && c in m[a])
    ensures forall k :: k != a ==> (k in Added(m, a, b) <==> k in m)
    ensures forall k :: k != a && k in m ==> Added(m, a, b)[k] == m[k]
    ensures SetLike(m) ==> SetLike(Added(m, a, b))
  {
  }

  /** Adding the same orbit twice is the same as adding it once. */
  lemma AddedIdempotent(m: Graph, a: string, b: string)
    ensures Added(Added(m, a, b), a, b) == Added(m, a, b)
  {
    AddedMeaning(m, a, b);
  }

  // ---------------------------------------------------------------------
  // Acyclic maps

  /** A ranking witnesses that the map has no cycle: every child that has
      an entry of its own is ranked below its parent. */
  ghost predicate Ranked(m: Graph, rank: map<string, nat>) {
    forall a :: a in m ==> a in rank && forall c :: c in m[a] && c in m ==> c in rank && rank[c] < rank[a]
  }

  /** The termination measure of the recursive walks: bodies with no entry
      are leaves. */
  function Height(m: Graph, rank: map<string, nat>, a: string): nat {
    if a in m && a in rank then rank[a] + 1 else 0
  }

  lemma HeightDecreases(m: Graph, rank: map<string, nat>, a: string, i: nat)
    requires Ranked(m, rank) && a in m && i < |m[a]|
    ensures Height(m, rank, m[a][i]) < Height(m, rank, a)
  {
  }

  // ---------------------------------------------------------------------
  // Checksum

  /** The checksum of the subtree below a that sits at the given depth:
      its own depth plus the checksums of its children one level deeper;
      a body with no entry contributes just its depth. */
  function Checksum(m: Graph, ghost rank: map<string, nat>, a: string, depth: int): (c: int)
    requires Ranked(m, rank)
    ensures depth >= 0 ==> c >= depth
    ensures (a !in m || m[a] == []) ==> c == depth
    decreases Height(m, rank, a), 1
  {
    if a in m then depth + SumKids(m, rank, a, |m[a]|, depth + 1) else depth
  }

  /** The sum of the checksums of a's first i children. */
  function SumKids(m: Graph, ghost rank: map<string, nat>, a: string, i: nat, depth: int): (s: int)
    requires Ranked(m, rank) && a in m && i <= |m[a]|
    ensures depth >= 0 ==> s >= 0
    decreases Height(m, rank, a), 0, i
  {
    if i == 0 then 0
    else
      HeightDecreases(m, rank, a, i - 1);
      SumKids(m, rank, a, i - 1, depth) + Checksum(m, rank, m[a][i - 1], depth)
  }

  /** The number of bodies in the subtree below a, itself included. */
  function Count(m: Graph, ghost rank: map<string, nat>, a: string): (n: nat)
    requires Ranked(m, rank)
    ensures n >= 1
    decreases Height(m, rank, a), 1
  {
    if a in m then 1 + CountKids(m, rank, a, |m[a]|) else 1
  }

  function CountKids(m: Graph, ghost rank: map<string, nat>, a: string, i: nat): nat
    requires Ranked(m, rank) && a in m && i <= |m[a]|
    decreases Height(m, rank, a), 0, i
  {
    if i == 0 then 0
    else
      HeightDecreases(m, rank, a, i - 1);
      CountKids(m, rank, a, i - 1) + Count(m, rank, m[a][i - 1])
  }

  /** Starting one level deeper adds one to the depth of every body in the
      subtree: the checksum grows by the subtree's size. */
  lemma {:induction false} ChecksumShift(m: Graph, rank: map<string, nat>, a: string, depth: int)
    requires Ranked(m, rank)
    ensures Checksum(m, rank, a, depth + 1) == Checksum(m, rank, a, depth) + Count(m, rank, a)
    decreases Height(m, rank, a), 1
  {
    if a in m {
      SumKidsShift(m, rank, a, |m[a]|, depth + 1);
    }
  }

  lemma {:induction false} SumKidsShift(m: Graph, rank: map<string, nat>, a: string, i: nat, depth: int)
    requires Ranked(m, rank) && a in m && i <= |m[a]|
    ensures SumKids(m, rank, a, i, depth + 1) == SumKids(m, rank, a, i, depth) + CountKids(m, rank, a, i)
    decreases Height(m, rank, a), 0, i
  {
    if i > 0 {
      HeightDecreases(m, rank, a, i - 1);
      SumKidsShift(m, rank, a, i - 1, depth);
      ChecksumShift(m, rank, m[a][i - 1], depth);
    }
  }

  // ---------------------------------------------------------------------
  // Order of the children

  /** m2 holds the same bodies as m, each with the same children, possibly
      listed in another order: what a set with another iteration order
      would give. */
  predicate Reordered(m: Graph, m2: Graph) {
    m.Keys == m2.Keys && forall a :: a in m ==> multiset(m2[a]) == multiset(m[a])
  }

  /** The checksums of the bodies listed in s, all at the given depth. */
  function SumOf(m: Graph, ghost rank: map<string, nat>, s: seq<string>, depth: int): int
    requires Ranked(m, rank)
  {
    if s == [] then 0
    else SumOf(m, rank, s[..|s| - 1], depth) + Checksum(m, rank, s[|s| - 1], depth)
  }

  /** A reordered map admits the same ranking. */
  lemma ReorderedRanked(m: Graph, m2: Graph, rank: map<string, nat>)
    requires Ranked(m, rank) && Reordered(m, m2)
    ensures Ranked(m2, rank)
  {
    forall a, c | a in m2 && c in m2[a]
      ensures c in m[a]
    {
      assert c in multiset(m2[a]);
    }
  }

  /** The sum over the first i children is the sum over that prefix. */
  lemma {:induction false} SumKidsIsSumOf(m: Graph, rank: map<string, nat>, a: string, i: nat, depth: int)
    requires Ranked(m, rank) && a in m && i <= |m[a]|
    ensures SumKids(m, rank, a, i, depth) == SumOf(m, rank, m[a][..i], depth)
  {
    if i > 0 {
      SumKidsIsSumOf(m, rank, a, i - 1, depth);
      assert m[a][..i][..i - 1] == m[a][..i - 1];
    }
  }

  /** The sum over a concatenation is the sum of the sums. */
  lemma {:induction false} SumOfAppend(m: Graph, rank: map<string, nat>, s: seq<string>, t: seq<string>, depth: int)
    requires Ranked(m, rank)
    ensures SumOf(m, rank, s + t, depth) == SumOf(m, rank, s, depth) + SumOf(m, rank, t, depth)
    decreases |t|
  {
    if t == [] {
      assert s + t == s;
    } else {
      assert (s + t)[..|s + t| - 1] == s + t[..|t| - 1];
      SumOfAppend(m, rank, s, t[..|t| - 1], depth);
    }
  }

  /** Taking one body out of a list takes its checksum out of the sum. */
  lemma SumOfRemove(m: Graph, rank: map<string, nat>, t: seq<string>, k: nat, depth: int)
    requires Ranked(m, rank) && k < |t|
    ensures SumOf(m, rank, t, depth) == SumOf(m, rank, t[..k] + t[k + 1..], depth) + Checksum(m, rank, t[k], depth)
  {
    var front := t[..k] + [t[k]];
    assert t == front + t[k + 1..];
    assert front[..|front| - 1] == t[..k];
    SumOfAppend(m, rank, front, t[k + 1..], depth);
    SumOfAppend(m, rank, t[..k], t[k + 1..], depth);
  }

  /** Taking one body out of two lists with the same bodies leaves two
      lists with the same bodies. */
  lemma MultisetRemove(s: seq<string>, t: seq<string>, k: nat)
    requires s != [] && k < |t| && t[k] == s[|s| - 1] && multiset(s) == multiset(t)
    ensures multiset(s[..|s| - 1]) == multiset(t[..k] + t[k + 1..])
  {
    var x := t[k];
    assert s == s[..|s| - 1] + [x];
    assert t == t[..k] + [x] + t[k + 1..];
    assert multiset(t) == multiset(t[..k] + t[k + 1..]) + multiset{x};
    assert multiset(s) == multiset(s[..|s| - 1]) + multiset{x};
    assert multiset(s[..|s| - 1]) == multiset(s) - multiset{x};
  }

  /** The sum does not depend on the order of the bodies summed. */
  lemma {:induction false} SumOfPermuted(m: Graph, rank: map<string, nat>, s: seq<string>, t: seq<string>, depth: int)
    requires Ranked(m, rank) && multiset(s) == multiset(t)
    ensures SumOf(m, rank, s, depth) == SumOf(m, rank, t, depth)
    decreases |s|
  {
    if s == [] {
      assert |t| == |multiset(t)| == 0;
    } else {
      var x := s[|s| - 1];
      assert x in multiset(s);
      var k :| 0 <= k < |t| && t[k] == x;
      MultisetRemove(s, t, k);
      SumOfPermuted(m, rank, s[..|s| - 1], t[..k] + t[k + 1..], depth);
      SumOfRemove(m, rank, t, k, depth);
    }
  }

  /** Two maps that agree on the checksum of every body in s agree on the
      sum over s. */
  lemma {:induction false} SumOfAgree(m: Graph, m2: Graph, rank: map<string, nat>, s: seq<string>, depth: int)
    requires Ranked(m, rank) && Ranked(m2, rank)
    requires forall c :: c in s ==> Checksum(m2, rank, c, depth) == Checksum(m, rank, c, depth)
    ensures SumOf(m2, rank, s, depth) == SumOf(m, rank, s, depth)
    decreases |s|
  {
    if s != [] {
      SumOfAgree(m, m2, rank, s[..|s| - 1], depth);
    }
  }

  /** When every child's checksum is the same in both maps, so is the sum
      over the children, whatever order each map lists them in. */
  lemma KidsReordered(m: Graph, m2: Graph, rank: map<string, nat>, a: string, depth: int)
    requires Ranked(m, rank) && Ranked(m2, rank) && Reordered(m, m2) && a in m
    requires forall c :: c in m2[a] ==> Checksum(m2, rank, c, depth) == Checksum(m, rank, c, depth)
    ensures SumKids(m2, rank, a, |m2[a]|, depth) == SumKids(m, rank, a, |m[a]|, depth)
  {
    SumKidsIsSumOf(m, rank, a, |m[a]|, depth);
    SumKidsIsSumOf(m2, rank, a, |m2[a]|, depth);
    assert m[a][..|m[a]|] == m[a];
    assert m2[a][..|m2[a]|] == m2[a];
    SumOfAgree(m, m2, rank, m2[a], depth);
    SumOfPermuted(m, rank, m2[a], m[a], depth);
  }

  /** The checksum does not depend on the order in which any body's
      children are listed, so a set's iteration order cannot change it. */
  lemma {:induction false} ChecksumReordered(m: Graph, m2: Graph, rank: map<string, nat>, a: string, depth: int)
    requires Ranked(m, rank) && Reordered(m, m2)
    ensures Ranked(m2, rank)
    ensures Checksum(m2, rank, a, depth) == Checksum(m, rank, a, depth)
    decreases Height(m, rank, a)
  {
    ReorderedRanked(m, m2, rank);
    if a in m {
      forall c | c in m2[a]
        ensures Checksum(m2, rank, c, depth + 1) == Checksum(m, rank, c, depth + 1)
      {
        assert c in multiset(m2[a]);
        assert Height(m, rank, c) < Height(m, rank, a);
        ChecksumReordered(m, m2, rank, c, depth + 1);
      }
      KidsReordered(m, m2, rank, a, depth + 1);
    }
  }

  // ---------------------------------------------------------------------
  // Paths

  /** q lists bodies from q[0] downwards: each q[k + 1] orbits q[k], and
      `to` orbits the last of them. */
  ghost predicate Chain(m: Graph, q: seq<string>, to: string)
    decreases |q|
  {
    |q| > 0 && q[0] in m &&
    if |q| == 1 then to in m[q[0]] else q[1] in m[q[0]] && Chain(m, q[1..], to)
  }

  /** get_path (Rust): the empty path when from is to; none when from has
      no entry; [from] when to orbits from directly; otherwise from in
      front of the first path found below one of its children. */
  function Path(m: Graph, ghost rank: map<string, nat>, from: string, to: string): Option<seq<string>>
    requires Ranked(m, rank)
    decreases Height(m, rank, from), 1
  {
    if from == to then Some([])
    else if from !in m then None
    else if to in m[from] then Some([from])
    else match FirstPath(m, rank, from, 0, to)
      case None => None
      case Some(d) => Some([from] + d)
  }

  /** The result for the first child at index i or later whose search
      succeeds. */
  function FirstPath(m: Graph, ghost rank: map<string, nat>, from: string, i: nat, to: string): Option<seq<string>>
    requires Ranked(m, rank) && from in m && i <= |m[from]|
    decreases Height(m, rank, from), 0, |m[from]| - i
  {
    if i == |m[from]| then None
    else
      HeightDecreases(m, rank, from, i);
      match Path(m, rank, m[from][i], to)
      case Some(d) => Some(d)
      case None => FirstPath(m, rank, from, i + 1, to)
  }

  /** A path found is empty exactly when from is to, and otherwise starts
      at from and descends child by child to a parent of to. */
  lemma {:induction false} PathSound(m: Graph, rank: map<string, nat>, from: string, to: string)
    requires Ranked(m, rank)
    ensures Path(m, rank, from, to).Some? ==>
      var q := Path(m, rank, from, to).value;
      (q == [] <==> from == to) && (q != [] ==> q[0] == from && Chain(m, q, to))
    decreases Height(m, rank, from), 1
  {
    if from != to && from in m && to !in m[from] {
      FirstPathSound(m, rank, from, 0, to);
      var r := FirstPath(m, rank, from, 0, to);
      if r.Some? {
        assert ([from] + r.value)[1..] == r.value;
      }
    }
  }

  lemma {:induction false} FirstPathSound(m: Graph, rank: map<string, nat>, from: string, i: nat, to: string)
    requires Ranked(m, rank) && from in m && i <= |m[from]| && to !in m[from]
    ensures FirstPath(m, rank, from, i, to).Some? ==>
      var d := FirstPath(m, rank, from, i, to).value;
      d != [] && d[0] in m[from] && Chain(m, d, to)
    decreases Height(m, rank, from), 0, |m[from]| - i
  {
    if i < |m[from]| {
      HeightDecreases(m, rank, from, i);
      PathSound(m, rank, m[from][i], to);
      FirstPathSound(m, rank, from, i + 1, to);
    }
  }

  /** Whenever some chain leads from q[0] down to a parent of to, the
      search finds a path. */
  lemma {:induction false} PathComplete(m: Graph, rank: map<string, nat>, q: seq<string>, to: string)
    requires Ranked(m, rank) && Chain(m, q, to)
    ensures Path(m, rank, q[0], to).Some?
    decreases |q|
  {
    var from := q[0];
    if from != to && to !in m[from] {
      PathComplete(m, rank, q[1..], to);
      var k :| 0 <= k < |m[from]| && m[from][k] == q[1];
      FirstPathFinds(m, rank, from, 0, k, to);
    }
  }

  lemma {:induction false} FirstPathFinds(m: Graph, rank: map<string, nat>, from: string, i: nat, k: nat, to: string)
    requires Ranked(m, rank) && from in m && i <= k < |m[from]|
    requires Path(m, rank, m[from][k], to).Some?
    ensures FirstPath(m, rank, from, i, to).Some?
    decreases k - i
  {
    HeightDecreases(m, rank, from, i);
    if i < k {
      FirstPathFinds(m, rank, from, i + 1, k, to);
    }
  }

  /** GetPath (Go): like get_path, but the result lists the bodies upwards
      (from appended after the path found below it), and there is no
      special case for from == to. */
  function GoPath(m: Graph, ghost rank: map<string, nat>, from: string, to: string): Option<seq<string>>
    requires Ranked(m, rank)
    decreases Height(m, rank, from), 1
  {
    if from !in m then None
    else if to in m[from] then Some([from])
    else match GoFirst(m, rank, from, 0, to)
      case None => None
      case Some(k) => Some(k + [from])
  }

  function GoFirst(m: Graph, ghost rank: map<string, nat>, from: string, i: nat, to: string): Option<seq<string>>
    requires Ranked(m, rank) && from in m && i <= |m[from]|
    decreases Height(m, rank, from), 0, |m[from]| - i
  {
    if i == |m[from]| then None
    else
      HeightDecreases(m, rank, from, i);
      match GoPath(m, rank, m[from][i], to)
      case Some(k) => Some(k)
      case None => GoFirst(m, rank, from, i + 1, to)
  }

  function Reverse<T>(s: seq<T>): (r: seq<T>)
    ensures |r| == |s| && forall k :: 0 <= k < |s| ==> r[k] == s[|s| - 1 - k]
    decreases |s|
  {
    if s == [] then [] else [s[|s| - 1]] + Reverse(s[..|s| - 1])
  }

  lemma ReverseTwice<T>(s: seq<T>)
    ensures Reverse(Reverse(s)) == s
  {
  }

  lemma ReverseCons<T>(x: T, s: seq<T>)
    ensures Reverse([x] + s) == Reverse(s) + [x]
  {
  }

  function ReverseOpt(p: Option<seq<string>>): Option<seq<string>> {
    if p.Some? then Some(Reverse(p.value)) else None
  }

  /** For distinct endpoints the Go and Rust searches find the same path,
      the Go one listing it upwards. */
  lemma {:induction false} GoPathReversed(m: Graph, rank: map<string, nat>, from: string, to: string)
    requires Ranked(m, rank) && from != to
    ensures GoPath(m, rank, from, to) == ReverseOpt(Path(m, rank, from, to))
    decreases Height(m, rank, from), 1
  {
    if from in m && to in m[from] {
      assert Reverse([from]) == [from];
    } else if from in m {
      GoFirstReversed(m, rank, from, 0, to);
      var r := FirstPath(m, rank, from, 0, to);
      if r.Some? {
        ReverseCons(from, r.value);
      }
    }
  }

  lemma {:induction false} GoFirstReversed(m: Graph, rank: map<string, nat>, from: string, i: nat, to: string)
    requires Ranked(m, rank) && from in m && i <= |m[from]| && to !in m[from]
    ensures GoFirst(m, rank, from, i, to) == ReverseOpt(FirstPath(m, rank, from, i, to))
    decreases Height(m, rank, from), 0, |m[from]| - i
  {
    if i < |m[from]| {
      HeightDecreases(m, rank, from, i);
      GoPathReversed(m, rank, m[from][i], to);
      GoFirstReversed(m, rank, from, i + 1, to);
    }
  }

  // ---------------------------------------------------------------------
  // The map object (Go OrbitsMap, Rust Orbits)

  class OrbitsMap {
    var orbits: Graph

    predicate Valid()
      reads this
    {
      SetLike(orbits)
    }

    constructor ()
      ensures orbits == map[] && Valid()
    {
      orbits := map[];
    }

    /** Add / add: records that b orbits a. */
    method Add(a: string, b: string)
      requires Valid()
      modifies this
      ensures orbits == Added(old(orbits), a, b) && Valid()
    {
      AddedMeaning(orbits, a, b);
      if a !in orbits {
        orbits := orbits[a := [b]];
      } else if b !in orbits[a] {
        orbits := orbits[a := orbits[a] + [b]];
      }
    }

    /** Traverse: depth plus the traversals of the children one level
        deeper, summed in a loop. */
    method Traverse(a: string, depth: int, ghost rank: map<string, nat>) returns (c: int)
      requires Ranked(orbits, rank)
      ensures c == Checksum(orbits, rank, a, depth)
      decreases Height(orbits, rank, a)
    {
      c := depth;
      if a in orbits {
        var kids := orbits[a];
        var i := 0;
        while i < |kids|
          invariant 0 <= i <= |kids|
          invariant c == depth + SumKids(orbits, rank, a, i, depth + 1)
        {
          HeightDecreases(orbits, rank, a, i);
          var k := Traverse(kids[i], depth + 1, rank);
          c := c + k;
          i := i + 1;
        }
      }
    }

    /** GetPath: None when from has no entry, [from] when to orbits it
        directly, else the first path found below a child with from
        appended. */
    method GetPath(from: string, to: string, ghost rank: map<string, nat>) returns (p: Option<seq<string>>)
      requires Ranked(orbits, rank)
      ensures p == GoPath(orbits, rank, from, to)
      decreases Height(orbits, rank, from)
    {
      if from !in orbits {
        return None;
      }
      var kids := orbits[from];
      if to in kids {
        return Some([from]);
      }
      var i := 0;
      while i < |kids|
        invariant 0 <= i <= |kids|
        invariant GoFirst(orbits, rank, from, 0, to) == GoFirst(orbits, rank, from, i, to)
      {
        HeightDecreases(orbits, rank, from, i);
        var k := GetPath(kids[i], to, rank);
        if k.Some? {
          return Some(k.value + [from]);
        }
        i := i + 1;
      }
      return None;
    }
  }

  /** ReverseSlice: swaps x[i] and x[len - 1 - i] for i below half the
      length, in place, and returns the same slice. */
  method ReverseSlice(x: array<string>) returns (r: array<string>)
    modifies x
    ensures r == x && x[..] == Reverse(old(x[..]))
  {
    var n := x.Length;
    var i := 0;
    while i < n / 2
      invariant 0 <= i <= n / 2
      invariant forall k :: 0 <= k < i ==> x[k] == old(x[n - 1 - k]) && x[n - 1 - k] == old(x[k])
      invariant forall k :: i <= k < n - i ==> x[k] == old(x[k])
    {
      x[i], x[n - i - 1] := x[n - i - 1], x[i];
      i := i + 1;
    }
    r := x;
  }
}
