/** Day 1: the fuel a module of a given mass needs is mass / 3 - 2 (integer
    division truncating toward zero); part two adds the fuel for that fuel,
    and so on while the amount stays positive. */
module Fuel {
  import opened Num

  /** num/3 - 2 with Go's and Rust's truncating division. */
  function FuelFor(mass: int): (f: int)
    ensures mass >= 0 ==> f == mass / 3 - 2
    ensures mass > 0 ==> f < mass
  {
    Quot(mass, 3) - 2
  }

  /** Part one: the sum of FuelFor over all masses. */
  function SumFuel(masses: seq<int>): int
    decreases |masses|
  {
    if masses == [] then 0 else SumFuel(masses[..|masses| - 1]) + FuelFor(masses[|masses| - 1])
  }

  /** The first loop of main (Go): k += num/3 - 2 for each line. */
  method TotalFuel(masses: seq<int>) returns (k: int)
    ensures k == SumFuel(masses)
  {
    k := 0;
    for n := 0 to |masses|
      invariant k == SumFuel(masses[..n])
    {
      assert masses[..n + 1][..n] == masses[..n];
      k := k + FuelFor(masses[n]);
    }
    assert masses[..|masses|] == masses;
  }

  /** The Rust part-one fold: fold(0, |k, i| k + i / 3 - 2), left to right. */
  function FoldFuel(k: int, masses: seq<int>): int
    decreases |masses|
  {
    if masses == [] then k else FoldFuel(k + FuelFor(masses[0]), masses[1..])
  }

  /** The Rust fold and the Go loop compute the same total. */
  lemma {:induction false} FoldFuelIsSum(k: int, masses: seq<int>)
    ensures FoldFuel(k, masses) == k + SumFuel(masses)
    decreases |masses|
  {
    if masses != [] {
      FoldFuelIsSum(k + FuelFor(masses[0]), masses[1..]);
      SumFirst(masses);
    }
  }

  lemma {:induction false} SumFirst(masses: seq<int>)
    requires masses != []
    ensures SumFuel(masses) == FuelFor(masses[0]) + SumFuel(masses[1..])
    decreases |masses|
  {
    if |masses| > 1 {
      assert masses[..|masses| - 1][1..] == masses[1..][..|masses[1..]| - 1];
      SumFirst(masses[..|masses| - 1]);
    } else {
      assert masses[..0] == [] && masses[1..] == [];
    }
  }

  /** Part two (Go): starting from j, the sum of j, FuelFor(j), ... for as
      long as the value is positive. */
  function Chain(j: int): (total: int)
    ensures total >= 0
    ensures j <= 0 ==> total == 0
    ensures j > 0 ==> total >= j
    decreases if j > 0 then j else 0
  {
    if j <= 0 then 0 else j + Chain(FuelFor(j))
  }

  /** The inner loop of the second part of main (Go): j := num/3 - 2, then
      k += j; j = j/3 - 2 while j > 0. */
  method ChainFuel(num: int) returns (k: int)
    ensures k == Chain(FuelFor(num))
    ensures k >= 0 && (FuelFor(num) <= 0 ==> k == 0)
  {
    k := 0;
    var j := FuelFor(num);
    while j > 0
      invariant k + Chain(j) == Chain(FuelFor(num))
      decreases if j > 0 then j else 0
    {
      k := k + j;
      j := FuelFor(j);
    }
  }

  /** The second loop of main (Go): the chain total summed over the masses. */
  function SumChains(masses: seq<int>): int
    decreases |masses|
  {
    if masses == [] then 0 else SumChains(masses[..|masses| - 1]) + Chain(FuelFor(masses[|masses| - 1]))
  }

  method TotalChainFuel(masses: seq<int>) returns (k: int)
    ensures k == SumChains(masses)
  {
    k := 0;
    for n := 0 to |masses|
      invariant k == SumChains(masses[..n])
    {
      assert masses[..n + 1][..n] == masses[..n];
      var c := ChainFuel(masses[n]);
      k := k + c;
    }
    assert masses[..|masses|] == masses;
  }

  /** Fuel (Rust): an iterator whose state i becomes i/3 - 2 on each call
      of next, which yields the new state and never ends. */
  class FuelIter {
    var i: int

    constructor (i: int)
      ensures this.i == i
    {
      this.i := i;
    }

    method Next() returns (r: Option<int>)
      modifies this
      ensures i == FuelFor(old(i)) && r == Some(i)
    {
      i := FuelFor(i);
      r := Some(i);
    }
  }

  /** Fuel::new(m).take_while(|&x| x / 3 - 2 > 0).sum(), where x runs over
      the values next yields: x is kept only while the value after it is
      still positive. */
  function TakeWhileSum(x: int): (total: int)
    ensures total >= 0
    decreases if x > 0 then x else 0
  {
    if FuelFor(x) > 0 then x + TakeWhileSum(FuelFor(x)) else 0
  }

  /** The Rust part-two contribution of one mass, as written. */
  function RustChain(mass: int): int {
    TakeWhileSum(FuelFor(mass))
  }

  /** The last positive value of the chain starting at j > 0. */
  function LastPositive(j: int): (l: int)
    requires j > 0
    ensures 0 < l <= j && FuelFor(l) <= 0
    decreases j
  {
    if FuelFor(j) > 0 then LastPositive(FuelFor(j)) else j
  }

  /** The Rust sum misses exactly the last positive term of the Go sum. */
  lemma {:induction false} RustDropsLastTerm(j: int)
    ensures j > 0 ==> TakeWhileSum(j) == Chain(j) - LastPositive(j)
    ensures j <= 0 ==> TakeWhileSum(j) == 0 == Chain(j)
    decreases if j > 0 then j else 0
  {
    if j > 0 && FuelFor(j) > 0 {
      RustDropsLastTerm(FuelFor(j));
    }
  }

  /** Mass 1969: the Go chain is 654 + 216 + 70 + 21 + 5 = 966; the Rust
      fold stops before 5 and gives 961. */
  lemma Mass1969()
    ensures Chain(FuelFor(1969)) == 966
    ensures RustChain(1969) == 961
  {
    assert FuelFor(1969) == 654 && FuelFor(654) == 216 && FuelFor(216) == 70;
    assert FuelFor(70) == 21 && FuelFor(21) == 5 && FuelFor(5) == -1;
  }

  /** The corrected Rust chain: take_while(|&x| x > 0), which keeps every
      positive value. */
  function TakeWhilePositiveSum(x: int): (total: int)
    ensures total >= 0
    decreases if x > 0 then x else 0
  {
    if x > 0 then x + TakeWhilePositiveSum(FuelFor(x)) else 0
  }

  /** With the corrected predicate the Rust iterator sum equals the Go
      loop for every mass. */
  lemma {:induction false} CorrectedChainAgrees(j: int)
    ensures TakeWhilePositiveSum(j) == Chain(j)
    decreases if j > 0 then j else 0
  {
    if j > 0 {
      CorrectedChainAgrees(FuelFor(j));
    }
  }
}
