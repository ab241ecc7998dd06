/** Day 14: the nanofactory. Every chemical but ORE is made by exactly one
    reaction that turns whole batches of inputs into a fixed number of
    units. Crafting an amount of a chemical first takes what a shared cache
    of leftovers already holds of each input and crafts the rest, and
    finally puts the whole batch output into the cache; the result is the
    amount of ORE that had to be mined. */
module Nanofactory {
  import opened Num

  datatype Quantity = Quantity(chem: string, count: int)

  datatype Reaction = Reaction(out: Quantity, inp: seq<Quantity>)

  const Ore := "ORE"

  // ---------------------------------------------------------------------
  // The cache of leftovers, as a value

  /** The amount the cache holds of chem: 0 when it has no entry. */
  function Get(m: map<string, int>, chem: string): int {
    if chem in m then m[chem] else 0
  }

  /** No entry is negative. */
  predicate NonNeg(m: map<string, int>) {
    forall c :: c in m ==> m[c] >= 0
  }

  /** The cache after adding amt of chem. */
  function AddTo(m: map<string, int>, chem: string, amt: int): map<string, int> {
    m[chem := Get(m, chem) + amt]
  }

  /** Adding amt of chem changes the amount of chem alone, by amt, and
      keeps a cache without negative entries so when amt is not
      negative. */
  lemma AddToMeaning(m: map<string, int>, chem: string, amt: int)
    ensures var m' := AddTo(m, chem, amt);
      chem in m' && Get(m', chem) == Get(m, chem) + amt &&
      (forall c :: c != chem ==> (c in m' <==> c in m) && Get(m', c) == Get(m, c)) &&
      (NonNeg(m) && amt >= 0 ==> NonNeg(m'))
  {
  }

  /** What removing amt of chem takes from the cache: at most what it
      holds, and nothing at all when it has no entry; and the cache
      afterwards. */
  function Take(m: map<string, int>, chem: string, amt: int): (int, map<string, int>) {
    if chem in m then
      var got := if m[chem] < amt then m[chem] else amt;
      (got, m[chem := m[chem] - got])
    else (0, m)
  }

  /** Removing a non-negative amount from a cache without negative
      entries takes between 0 and amt, leaves no entry negative, takes all
      of amt when the cache holds that much, and touches only chem; a
      chemical the cache has no entry for gives nothing. */
  lemma TakeMeaning(m: map<string, int>, chem: string, amt: int)
    requires NonNeg(m) && amt >= 0
    ensures var (got, m') := Take(m, chem, amt);
      0 <= got <= amt && NonNeg(m') &&
      (chem !in m ==> got == 0 && m' == m) &&
      Get(m', chem) == Get(m, chem) - got &&
      (Get(m, chem) >= amt ==> got == amt) &&
      forall c :: c != chem ==> Get(m', c) == Get(m, c)
  {
  }

  class Cache {
    var amounts: map<string, int>

    constructor ()
      ensures amounts == map[]
    {
      amounts := map[];
    }

    /** Add: the amount of chem grows by amt, the entry being created if it
        is missing. */
    method Add(chem: string, amt: int)
      modifies this
      ensures amounts == AddTo(old(amounts), chem, amt)
    {
      if chem in amounts {
        var v := amounts[chem];
        amounts := amounts[chem := v + amt];
      } else {
        amounts := amounts[chem := amt];
      }
    }

    /** Rm: takes at most amt of chem and reports how much it took; a
        missing chemical gives 0 and leaves the cache as it was. */
    method Rm(chem: string, amt: int) returns (got: int)
      modifies this
      ensures (got, amounts) == Take(old(amounts), chem, amt)
    {
      if chem in amounts {
        var v := amounts[chem];
        got := amt;
        if v < got {
          got := v;
        }
        amounts := amounts[chem := v - got];
        return got;
      }
      return 0;
    }
  }

  // ---------------------------------------------------------------------
  // Batches

  /** The number of batches of size count that make at least amt: amt /
      count rounded toward zero, plus one when that falls short. */
  function OutMul(amt: int, count: int): int
    requires count > 0
  {
    var m := Quot(amt, count);
    if m * count < amt then m + 1 else m
  }

  /** For a non-negative amount, the batches make at least amt and less
      than one batch more. */
  lemma OutMulBounds(amt: int, count: int)
    requires amt >= 0 && count > 0
    ensures OutMul(amt, count) >= 0
    ensures amt <= OutMul(amt, count) * count < amt + count
  {
    QuotRemNonNeg(amt, count);
    var q, r := amt / count, amt % count;
    assert amt == q * count + r;
    if r > 0 {
      assert (q + 1) * count == q * count + count;
    }
  }

  // ---------------------------------------------------------------------
  // Crafting, as a value

  /** Every reaction's output count is positive and its input counts are
      not negative, and every input of a reaction ranks below its output:
      the reactions form no cycle. */
  ghost predicate Ranked(rx: map<string, Reaction>, rank: map<string, nat>) {
    forall c :: c in rx ==>
      c in rank && rx[c].out.count > 0 &&
      forall j :: 0 <= j < |rx[c].inp| ==>
        rx[c].inp[j].chem in rank && rank[rx[c].inp[j].chem] < rank[c] && rx[c].inp[j].count >= 0
  }

  datatype Outcome = Fault | Done(ore: int, cache: map<string, int>)

  /** Crafting amt of chem with leftovers m: ORE is simply added to the
      cache; a chemical with no reaction is a fault; otherwise the inputs
      of enough batches are gathered in order and the whole output is added
      to the cache. */
  ghost function Crafted(rx: map<string, Reaction>, chem: string, amt: int, m: map<string, int>,
                       rank: map<string, nat>): Outcome
    requires Ranked(rx, rank)
    decreases if chem in rank then rank[chem] else 0, 1
  {
    if chem == Ore then Done(amt, AddTo(m, Ore, amt))
    else if chem !in rx then Fault
    else
      var re := rx[chem];
      var outMul := OutMul(amt, re.out.count);
      match Gather(rx, re.inp, 0, outMul, m, 0, rank, rank[chem])
      case Fault => Fault
      case Done(ore, m') => Done(ore, AddTo(m', chem, outMul * re.out.count))
  }

  /** Gathering the inputs inp[k..] for outMul batches, one after the
      other. */
  ghost function Gather(rx: map<string, Reaction>, inp: seq<Quantity>, k: nat, outMul: int,
                        m: map<string, int>, ore: int, rank: map<string, nat>, bound: nat): Outcome
    requires Ranked(rx, rank) && k <= |inp|
    requires forall j :: 0 <= j < |inp| ==> inp[j].chem in rank && rank[inp[j].chem] < bound
    decreases bound, 0, |inp| - k
  {
    if k == |inp| then Done(ore, m)
    else
      match Obtain(rx, inp[k], outMul, m, rank)
      case Fault => Fault
      case Done(o, m') => Gather(rx, inp, k + 1, outMul, m', ore + o, rank, bound)
  }

  /** Obtaining input i for outMul batches: what the cache holds is taken
      first; any shortfall is crafted and then taken. The ORE is what the
      crafting mined. */
  ghost function Obtain(rx: map<string, Reaction>, i: Quantity, outMul: int, m: map<string, int>,
                        rank: map<string, nat>): Outcome
    requires Ranked(rx, rank) && i.chem in rank
    decreases rank[i.chem], 2
  {
    var total := i.count * outMul;
    var (got, m1) := Take(m, i.chem, total);
    if got < total then
      match Crafted(rx, i.chem, total - got, m1, rank)
      case Fault => Fault
      case Done(o, m2) => Done(o, Take(m2, i.chem, total - got).1)
    else Done(0, m1)
  }

  lemma NextMultiple(m: int, c: int)
    ensures (m + 1) * c == m * c + c
  {
  }

  lemma ProductNonNeg(a: int, b: int)
    requires a >= 0 && b >= 0
    ensures a * b >= 0
  {
  }

  /** From a cache with no negative entry and a non-negative amount, a
      successful craft mines a non-negative amount of ORE, leaves no entry
      negative, and leaves at least amt more of chem in the cache than
      before: for a chemical with a reaction, exactly its whole batch
      output more. Only chemicals ranked below chem change besides chem
      itself. */
  lemma {:induction false} CraftMeaning(rx: map<string, Reaction>, chem: string, amt: int,
                                        m: map<string, int>, rank: map<string, nat>)
    requires Ranked(rx, rank) && NonNeg(m) && amt >= 0
    ensures var r := Crafted(rx, chem, amt, m, rank);
      r.Done? ==>
        r.ore >= 0 && NonNeg(r.cache) && Get(r.cache, chem) >= Get(m, chem) + amt &&
        (chem != Ore ==> Get(r.cache, chem) == Get(m, chem) + OutMul(amt, rx[chem].out.count) * rx[chem].out.count) &&
        (chem in rank ==> forall c :: c != chem && c in rank && rank[c] >= rank[chem] ==> Get(r.cache, c) == Get(m, c))
    decreases if chem in rank then rank[chem] else 0, 1
  {
    if chem == Ore {
      AddToMeaning(m, Ore, amt);
    } else if chem in rx {
      var re := rx[chem];
      var outMul := OutMul(amt, re.out.count);
      OutMulBounds(amt, re.out.count);
      GatherMeaning(rx, re.inp, 0, outMul, m, 0, rank, rank[chem]);
      var g := Gather(rx, re.inp, 0, outMul, m, 0, rank, rank[chem]);
      if g.Done? {
        AddToMeaning(g.cache, chem, outMul * re.out.count);
      }
    }
  }

  /** Gathering keeps the cache free of negative entries, never lowers the
      ORE count, and touches only chemicals ranked below bound. */
  lemma {:induction false} GatherMeaning(rx: map<string, Reaction>, inp: seq<Quantity>, k: nat, outMul: int,
                                         m: map<string, int>, ore: int, rank: map<string, nat>, bound: nat)
    requires Ranked(rx, rank) && k <= |inp| && NonNeg(m) && outMul >= 0
    requires forall j :: 0 <= j < |inp| ==> inp[j].chem in rank && rank[inp[j].chem] < bound && inp[j].count >= 0
    ensures var r := Gather(rx, inp, k, outMul, m, ore, rank, bound);
      r.Done? ==>
        r.ore >= ore && NonNeg(r.cache) &&
        forall c :: c in rank && rank[c] >= bound ==> Get(r.cache, c) == Get(m, c)
    decreases bound, 0, |inp| - k
  {
    if k < |inp| {
      ObtainMeaning(rx, inp[k], outMul, m, rank);
      var r := Obtain(rx, inp[k], outMul, m, rank);
      if r.Done? {
        GatherMeaning(rx, inp, k + 1, outMul, r.cache, ore + r.ore, rank, bound);
      }
    }
  }

  /** Obtaining an input mines a non-negative amount of ORE, keeps the
      cache free of negative entries and touches only the input and
      chemicals ranked below it. */
  lemma {:induction false} ObtainMeaning(rx: map<string, Reaction>, i: Quantity, outMul: int,
                                         m: map<string, int>, rank: map<string, nat>)
    requires Ranked(rx, rank) && i.chem in rank && NonNeg(m) && outMul >= 0 && i.count >= 0
    ensures var r := Obtain(rx, i, outMul, m, rank);
      r.Done? ==>
        r.ore >= 0 && NonNeg(r.cache) &&
        forall c :: c in rank && rank[c] > rank[i.chem] ==> Get(r.cache, c) == Get(m, c)
    decreases rank[i.chem], 2
  {
    var total := i.count * outMul;
    ProductNonNeg(i.count, outMul);
    TakeMeaning(m, i.chem, total);
    var (got, m1) := Take(m, i.chem, total);
    if got < total {
      CraftMeaning(rx, i.chem, total - got, m1, rank);
      var r := Crafted(rx, i.chem, total - got, m1, rank);
      if r.Done? {
        TakeMeaning(r.cache, i.chem, total - got);
      }
    }
  }

  // ---------------------------------------------------------------------
  // The reactions

  class Reactions {
    var reactions: map<string, Reaction>

    constructor ()
      ensures reactions == map[]
    {
      reactions := map[];
    }

    /** Add: the reaction is recorded under its output chemical, replacing
        any earlier one. */
    method Add(re: Reaction)
      modifies this
      ensures reactions == old(reactions)[re.out.chem := re]
    {
      reactions := reactions[re.out.chem := re];
    }

    /** Craft: the ORE needed for amt of chem, leaving the whole batch
        output in the cache; a chemical with no reaction stops the program,
        which the model reports as None. */
    method Craft(chem: string, amt: int, cache: Cache, ghost rank: map<string, nat>) returns (ore: Option<int>)
      requires Ranked(reactions, rank)
      modifies cache
      ensures ore.None? <==> Crafted(reactions, chem, amt, old(cache.amounts), rank).Fault?
      ensures ore.Some? ==> Crafted(reactions, chem, amt, old(cache.amounts), rank) == Done(ore.value, cache.amounts)
      decreases if chem in rank then rank[chem] else 0, 1
    {
      if chem == Ore {
        cache.Add(Ore, amt);
        return Some(amt);
      }
      if chem !in reactions {
        return None;
      }
      var re := reactions[chem];
      var outMul := Quot(amt, re.out.count);
      var totalOut := outMul * re.out.count;
      if totalOut < amt {
        outMul := outMul + 1;
        totalOut := totalOut + re.out.count;
        NextMultiple(outMul - 1, re.out.count);
      }
      assert outMul == OutMul(amt, re.out.count) && totalOut == outMul * re.out.count;
      var r := GatherInputs(re.inp, outMul, cache, rank, rank[chem]);
      if r.None? {
        return None;
      }
      cache.Add(chem, totalOut);
      ore := r;
    }

    /** The loop of Craft over the inputs of its reaction: what the cache
        holds of each input is taken first, and any shortfall is crafted
        and then taken. */
    method GatherInputs(inp: seq<Quantity>, outMul: int, cache: Cache, ghost rank: map<string, nat>, ghost bound: nat)
      returns (ore: Option<int>)
      requires Ranked(reactions, rank)
      requires forall j :: 0 <= j < |inp| ==> inp[j].chem in rank && rank[inp[j].chem] < bound
      modifies cache
      ensures ore.None? <==> Gather(reactions, inp, 0, outMul, old(cache.amounts), 0, rank, bound).Fault?
      ensures ore.Some? ==> Gather(reactions, inp, 0, outMul, old(cache.amounts), 0, rank, bound) == Done(ore.value, cache.amounts)
      decreases bound, 0
    {
      ghost var goal := Gather(reactions, inp, 0, outMul, cache.amounts, 0, rank, bound);
      var oreCount := 0;
      var k := 0;
      while k < |inp|
        invariant 0 <= k <= |inp|
        invariant Gather(reactions, inp, k, outMul, cache.amounts, oreCount, rank, bound) == goal
      {
        var o := ObtainInput(inp[k], outMul, cache, rank);
        if o.None? {
          return None;
        }
        oreCount := oreCount + o.value;
        k := k + 1;
      }
      ore := Some(oreCount);
    }

    /** One turn of the loop over the inputs: what the cache holds of input
        i is taken first, and any shortfall is crafted and then taken. */
    method ObtainInput(i: Quantity, outMul: int, cache: Cache, ghost rank: map<string, nat>) returns (ore: Option<int>)
      requires Ranked(reactions, rank) && i.chem in rank
      modifies cache
      ensures ore.None? <==> Obtain(reactions, i, outMul, old(cache.amounts), rank).Fault?
      ensures ore.Some? ==> Obtain(reactions, i, outMul, old(cache.amounts), rank) == Done(ore.value, cache.amounts)
      decreases rank[i.chem], 2
    {
      var total := i.count * outMul;
      var obtained := cache.Rm(i.chem, total);
      if obtained < total {
        var r := Craft(i.chem, total - obtained, cache, rank);
        if r.None? {
          return None;
        }
        var rest := cache.Rm(i.chem, total - obtained);
        return r;
      }
      return Some(0);
    }
  }

  // ---------------------------------------------------------------------
  // Reading reactions

  /** strings.Split: the pieces of s between the occurrences of sep, found
      from the left without overlap; always at least one piece. */
  function Split(s: string, sep: string): (parts: seq<string>)
    requires |sep| > 0
    ensures |parts| >= 1
    decreases |s|
  {
    if |s| < |sep| then [s]
    else if s[..|sep|] == sep then [""] + Split(s[|sep|..], sep)
    else
      var rest := Split(s[1..], sep);
      [[s[0]] + rest[0]] + rest[1..]
  }

  /** The pieces with sep between neighbours. */
  function Join(parts: seq<string>, sep: string): string
    requires |parts| >= 1
    decreases |parts|
  {
    if |parts| == 1 then parts[0] else parts[0] + sep + Join(parts[1..], sep)
  }

  /** sep occurs in s at index i. */
  predicate StartsAt(s: string, i: nat, sep: string) {
    i + |sep| <= |s| && s[i..i + |sep|] == sep
  }

  /** sep does not start anywhere inside p, even running on into a
      following sep. */
  predicate NoMatch(p: string, sep: string) {
    forall i :: 0 <= i < |p| ==> !StartsAt(p + sep, i, sep)
  }

  /** Dropping the first character of p keeps sep from starting inside the
      rest. */
  lemma NoMatchTail(p: string, sep: string)
    requires |p| > 0 && NoMatch(p, sep)
    ensures NoMatch(p[1..], sep)
  {
    var s := p + sep;
    assert p[1..] + sep == s[1..];
    forall i | 0 <= i < |p[1..]|
      ensures !StartsAt(p[1..] + sep, i, sep)
    {
      assert !StartsAt(s, i + 1, sep);
      if i + |sep| <= |s[1..]| {
        assert s[1..][i..i + |sep|] == s[i + 1..i + 1 + |sep|];
      }
    }
  }

  /** A piece without an occurrence of sep, followed by sep, splits off
      as the first piece. */
  lemma {:induction false} SplitFirst(p: string, sep: string, rest: string)
    requires |sep| > 0 && NoMatch(p, sep)
    ensures Split(p + sep + rest, sep) == [p] + Split(rest, sep)
    decreases |p|
  {
    var s := p + sep + rest;
    if p == [] {
      assert s == sep + rest;
      assert s[..|sep|] == sep;
      assert s[|sep|..] == rest;
    } else {
      assert !StartsAt(p + sep, 0, sep);
      assert s[..|sep|] == (p + sep)[0..|sep|];
      NoMatchTail(p, sep);
      SplitFirst(p[1..], sep, rest);
      assert s[1..] == p[1..] + sep + rest;
      assert [s[0]] + p[1..] == p;
    }
  }

  /** A piece without an occurrence of sep is not split at all. */
  lemma {:induction false} SplitWhole(p: string, sep: string)
    requires |sep| > 0 && NoMatch(p, sep)
    ensures Split(p, sep) == [p]
    decreases |p|
  {
    if |p| >= |sep| {
      assert !StartsAt(p + sep, 0, sep);
      assert p[..|sep|] == (p + sep)[0..|sep|];
      NoMatchTail(p, sep);
      SplitWhole(p[1..], sep);
      assert [p[0]] + p[1..] == p;
    }
  }

  /** Splitting what Join wrote gives back the pieces. */
  lemma {:induction false} SplitJoin(parts: seq<string>, sep: string)
    requires |sep| > 0 && |parts| >= 1
    requires forall j :: 0 <= j < |parts| ==> NoMatch(parts[j], sep)
    ensures Split(Join(parts, sep), sep) == parts
    decreases |parts|
  {
    if |parts| == 1 {
      SplitWhole(parts[0], sep);
    } else {
      SplitJoin(parts[1..], sep);
      SplitFirst(parts[0], sep, Join(parts[1..], sep));
    }
  }

  /** When some character of sep occurs neither in p nor earlier in sep,
      sep cannot start inside p. */
  lemma NoMatchByChar(p: string, sep: string, j: nat)
    requires j < |sep| && sep[j] !in p && sep[j] !in sep[..j]
    ensures NoMatch(p, sep)
  {
    forall i | 0 <= i < |p|
      ensures !StartsAt(p + sep, i, sep)
    {
      if i + j < |p| {
        assert (p + sep)[i..i + |sep|][j] == p[i + j];
      } else {
        assert (p + sep)[i..i + |sep|][j] == sep[i + j - |p|];
        assert sep[..j][i + j - |p|] == sep[i + j - |p|];
      }
    }
  }

  /** parseQuantity: "count chem"; a count that is not a number stops the
      program, as does a line without a space (None here). Anything after
      a second space is ignored. */
  function ParseQuantity(line: string): Option<Quantity> {
    var l := Split(line, " ");
    if |l| < 2 then None
    else match Atoi(l[0])
      case None => None
      case Some(n) => Some(Quantity(l[1], n))
  }

  /** parseReaction: "inputs => output", the inputs separated by ", ". */
  function ParseReaction(line: string): Option<Reaction> {
    var l := Split(line, " => ");
    if |l| < 2 then None
    else
      match (ParseAll(Split(l[0], ", ")), ParseQuantity(l[1]))
      case (Some(inp), Some(out)) => Some(Reaction(out, inp))
      case _ => None
  }

  function ParseAll(items: seq<string>): Option<seq<Quantity>>
    decreases |items|
  {
    if items == [] then Some([])
    else match (ParseQuantity(items[0]), ParseAll(items[1..]))
      case (Some(q), Some(qs)) => Some([q] + qs)
      case _ => None
  }

  /** A chemical's name: no space, comma or '='. */
  predicate ChemName(c: string) {
    ' ' !in c && ',' !in c && '=' !in c
  }

  function FormatQuantity(q: Quantity): string {
    Itoa(q.count) + " " + q.chem
  }

  function FormatAll(qs: seq<Quantity>): (items: seq<string>)
    ensures |items| == |qs| && forall j :: 0 <= j < |qs| ==> items[j] == FormatQuantity(qs[j])
  {
    seq(|qs|, j requires 0 <= j < |qs| => FormatQuantity(qs[j]))
  }

  /** The puzzle's text form of a reaction. */
  function FormatReaction(r: Reaction): string
    requires r.inp != []
  {
    Join(FormatAll(r.inp), ", ") + " => " + FormatQuantity(r.out)
  }

  /** The characters of a formatted quantity: those of the number, the
      space and those of the name. */
  lemma FormatChars(q: Quantity, c: char)
    requires c in FormatQuantity(q)
    ensures IsDigit(c) || c == '-' || c == ' ' || c in q.chem
  {
    ItoaShape(q.count);
    var s := FormatQuantity(q);
    var k :| 0 <= k < |s| && s[k] == c;
    if k < |Itoa(q.count)| {
      assert s[k] == Itoa(q.count)[k];
    } else if k > |Itoa(q.count)| {
      assert s[k] == q.chem[k - |Itoa(q.count)| - 1];
    }
  }

  /** Reading back a formatted quantity. */
  lemma ParseFormatQuantity(q: Quantity)
    requires ChemName(q.chem)
    ensures ParseQuantity(FormatQuantity(q)) == Some(q)
  {
    ItoaShape(q.count);
    NoMatchByChar(Itoa(q.count), " ", 0);
    NoMatchByChar(q.chem, " ", 0);
    SplitFirst(Itoa(q.count), " ", q.chem);
    SplitWhole(q.chem, " ");
    AtoiItoa(q.count);
  }

  lemma {:induction false} ParseFormatAll(qs: seq<Quantity>)
    requires forall j :: 0 <= j < |qs| ==> ChemName(qs[j].chem)
    ensures ParseAll(FormatAll(qs)) == Some(qs)
    decreases |qs|
  {
    if qs != [] {
      var items := FormatAll(qs);
      ParseFormatQuantity(qs[0]);
      ParseFormatAll(qs[1..]);
      assert items[1..] == FormatAll(qs[1..]);
      assert ParseQuantity(items[0]) == Some(qs[0]);
      assert [qs[0]] + qs[1..] == qs;
    }
  }

  /** A formatted quantity contains no comma and no '='. */
  lemma FormatNoMatch(q: Quantity)
    requires ChemName(q.chem)
    ensures ',' !in FormatQuantity(q) && '=' !in FormatQuantity(q)
  {
    if ',' in FormatQuantity(q) {
      FormatChars(q, ',');
    }
    if '=' in FormatQuantity(q) {
      FormatChars(q, '=');
    }
  }

  /** Joined pieces without '=' contain no '='. */
  lemma {:induction false} JoinNoEquals(parts: seq<string>)
    requires |parts| >= 1 && forall j :: 0 <= j < |parts| ==> '=' !in parts[j]
    ensures '=' !in Join(parts, ", ")
    decreases |parts|
  {
    if |parts| > 1 {
      JoinNoEquals(parts[1..]);
    }
  }

  /** Reading back a formatted reaction gives the reaction. */
  lemma ParseFormatReaction(r: Reaction)
    requires r.inp != [] && ChemName(r.out.chem)
    requires forall j :: 0 <= j < |r.inp| ==> ChemName(r.inp[j].chem)
    ensures ParseReaction(FormatReaction(r)) == Some(r)
  {
    var items := FormatAll(r.inp);
    forall j | 0 <= j < |items|
      ensures NoMatch(items[j], ", ") && '=' !in items[j]
    {
      FormatNoMatch(r.inp[j]);
      NoMatchByChar(items[j], ", ", 0);
    }
    var lhs := Join(items, ", ");
    JoinNoEquals(items);
    NoMatchByChar(lhs, " => ", 1);
    FormatNoMatch(r.out);
    NoMatchByChar(FormatQuantity(r.out), " => ", 1);
    SplitFirst(lhs, " => ", FormatQuantity(r.out));
    SplitWhole(FormatQuantity(r.out), " => ");
    SplitJoin(items, ", ");
    ParseFormatAll(r.inp);
    ParseFormatQuantity(r.out);
  }
}
