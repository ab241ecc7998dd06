/** Euclid's algorithm as both puzzle programs write it (gcd in day 10,
    GCD in day 12): while b is not zero, (a, b) becomes (b, a % b) with
    Go's truncating remainder. The least common multiple of day 12 is
    built on it. */
module Euclid {
  import opened Num

  /** d is a positive divisor of n. */
  predicate Divides(d: int, n: int) {
    d > 0 && n % d == 0
  }

  /** The value the loop ends with. */
  function GcdOf(a: int, b: int): int
    decreases Abs(b)
  {
    if b == 0 then a
    else
      RemAbs(a, b);
      GcdOf(b, Rem(a, b))
  }

  /** gcd / GCD: the loop itself. */
  method Gcd(a: int, b: int) returns (r: int)
    ensures r == GcdOf(a, b)
    ensures b == 0 ==> r == a
  {
    var x, y := a, b;
    while y != 0
      invariant GcdOf(x, y) == GcdOf(a, b)
      decreases Abs(y)
    {
      RemAbs(x, y);
      var t := y;
      y := Rem(x, y);
      x := t;
    }
    r := x;
  }

  lemma DividesItself(d: int)
    requires d > 0
    ensures Divides(d, d) && Divides(d, 0)
  {
    DivModUnique(d, d, 1, 0);
    DivModUnique(0, d, 0, 0);
  }

  /** Divisibility by d survives adding or taking away multiples of a
      multiple of d. */
  lemma DividesCombo(d: int, x: int, y: int, k: int)
    requires Divides(d, x) && Divides(d, y)
    ensures Divides(d, x + y * k) && Divides(d, x - y * k)
  {
    var p, q := x / d, y / d;
    assert x == d * p && y == d * q;
    assert y * k == d * (q * k);
    DivModUnique(x + y * k, d, p + q * k, 0);
    DivModUnique(x - y * k, d, p - q * k, 0);
  }

  /** A step of the loop keeps the common divisors: they are the same for
      (a, b) and (b, a % b). */
  lemma StepKeepsDivisors(d: int, a: nat, b: nat)
    requires b > 0 && d > 0
    ensures Divides(d, a) && Divides(d, b) <==> Divides(d, b) && Divides(d, a % b)
  {
    assert a == a % b + b * (a / b);
    if Divides(d, a) && Divides(d, b) {
      DividesCombo(d, a, b, a / b);
    }
    if Divides(d, b) && Divides(d, a % b) {
      DividesCombo(d, a % b, b, a / b);
    }
  }

  /** On non-negative inputs, not both zero, the loop yields a positive
      common divisor that every common divisor divides: the greatest
      common divisor. */
  lemma {:induction false} GcdIsGreatest(a: nat, b: nat)
    requires a > 0 || b > 0
    ensures GcdOf(a, b) > 0 && Divides(GcdOf(a, b), a) && Divides(GcdOf(a, b), b)
    ensures forall d :: Divides(d, a) && Divides(d, b) ==> Divides(d, GcdOf(a, b))
    decreases b
  {
    if b == 0 {
      DividesItself(a);
    } else {
      QuotRemNonNeg(a, b);
      GcdIsGreatest(b, a % b);
      var g := GcdOf(a, b);
      StepKeepsDivisors(g, a, b);
      forall d | Divides(d, a) && Divides(d, b)
        ensures Divides(d, g)
      {
        StepKeepsDivisors(d, a, b);
      }
    }
  }

  lemma GcdPositive(a: nat, b: nat)
    requires a > 0 || b > 0
    ensures GcdOf(a, b) > 0
  {
    GcdIsGreatest(a, b);
  }

  /** A divisor is at most the positive number it divides. */
  lemma DivisorBound(d: int, n: int)
    requires Divides(d, n) && n > 0
    ensures d <= n
  {
    var q := n / d;
    assert n == d * q;
    if q >= 1 {
      MulAtLeast(q, d);
    }
  }

  /** Scaling both inputs by k > 0 scales the result by k. */
  lemma {:induction false} GcdScale(k: int, a: nat, b: nat)
    requires k > 0
    ensures GcdOf(k * a, k * b) == k * GcdOf(a, b)
    decreases b
  {
    if b == 0 {
      assert k * b == 0;
    } else {
      QuotRemNonNeg(a, b);
      var q, r := a / b, a % b;
      assert a == q * b + r;
      assert k * a == q * (k * b) + k * r;
      assert k * r < k * b;
      assert k * b > 0 && k * a >= 0;
      DivModUnique(k * a, k * b, q, k * r);
      QuotRemNonNeg(k * a, k * b);
      GcdScale(k, b, r);
    }
  }

  lemma MultipleDivides(d: int, q: int)
    requires d > 0
    ensures Divides(d, d * q) && Divides(d, q * d)
  {
    DivModUnique(d * q, d, q, 0);
  }

  lemma Cofactor(d: int, n: int)
    requires Divides(d, n)
    ensures n == d * (n / d)
  {
  }

  /** LCM(a, b) with no further arguments: a * b / GCD(a, b), or nothing
      when the division by zero would panic. */
  function LcmOf(a: int, b: int): Option<int> {
    var g := GcdOf(a, b);
    if g == 0 then None else Some(Quot(a * b, g))
  }

  /** The further arguments folded in, left to right. */
  function FoldLcm(acc: Option<int>, integers: seq<int>): Option<int>
    decreases |integers|
  {
    if acc.None? || integers == [] then acc
    else FoldLcm(LcmOf(acc.value, integers[0]), integers[1..])
  }

  function LcmAll(a: int, b: int, integers: seq<int>): Option<int> {
    FoldLcm(LcmOf(a, b), integers)
  }

  /** LCM: the pair's value, then a loop folding in each further
      argument by a call with none. */
  method Lcm(a: int, b: int, integers: seq<int>) returns (r: Option<int>)
    ensures r == LcmAll(a, b, integers)
    decreases |integers|
  {
    var g := Gcd(a, b);
    if g == 0 {
      return None;
    }
    var result := Quot(a * b, g);
    var i := 0;
    while i < |integers|
      invariant 0 <= i <= |integers|
      invariant FoldLcm(Some(result), integers[i..]) == LcmAll(a, b, integers)
    {
      var next := Lcm(result, integers[i], []);
      assert integers[i..][1..] == integers[i + 1..];
      if next.None? {
        return None;
      }
      result := next.value;
      i := i + 1;
    }
    return Some(result);
  }

  /** For positive a and b the result is their least common multiple: a
      positive multiple of both that divides every positive common
      multiple. */
  lemma LcmIsLeast(a: int, b: int)
    requires a > 0 && b > 0
    ensures LcmOf(a, b).Some?
    ensures var l := LcmOf(a, b).value;
      l > 0 && Divides(a, l) && Divides(b, l) &&
      forall m :: m > 0 && Divides(a, m) && Divides(b, m) ==> Divides(l, m)
  {
    GcdIsGreatest(a, b);
    var g := GcdOf(a, b);
    var a1, b1 := a / g, b / g;
    Cofactor(g, a);
    Cofactor(g, b);
    assert a1 > 0 && b1 > 0;
    var l := a1 * b;
    assert a * b == l * g;
    DivModUnique(a * b, g, l, 0);
    assert Quot(a * b, g) == l;
    assert l == a * b1;
    MultipleDivides(a, b1);
    MultipleDivides(b, a1);
    GcdScale(g, a1, b1);
    assert GcdOf(a1, b1) == 1;
    forall m | m > 0 && Divides(a, m) && Divides(b, m)
      ensures Divides(l, m)
    {
      LeastStep(a1, b1, g, m);
    }
  }

  /** Euclid's lemma: a divisor of a1 * s that is coprime to a1 divides
      s. */
  lemma CoprimeDivides(a1: int, b1: int, s: int)
    requires a1 > 0 && b1 > 0 && s > 0 && GcdOf(a1, b1) == 1
    requires Divides(b1, s * a1)
    ensures Divides(b1, s)
  {
    MultipleDivides(b1, s);
    GcdIsGreatest(s * a1, s * b1);
    GcdScale(s, a1, b1);
  }

  /** The heart of LcmIsLeast: with a = g * a1, b = g * b1 and a1, b1
      coprime, a positive multiple of a and b is a multiple of
      a1 * (g * b1). */
  lemma LeastStep(a1: int, b1: int, g: int, m: int)
    requires a1 > 0 && b1 > 0 && g > 0 && GcdOf(a1, b1) == 1
    requires m > 0 && Divides(g * a1, m) && Divides(g * b1, m)
    ensures Divides(a1 * (g * b1), m)
  {
    var s, t := m / (g * a1), m / (g * b1);
    Cofactor(g * a1, m);
    Cofactor(g * b1, m);
    SameMultiple(a1, b1, g, s, t);
    LeastFinish(a1, b1, g, m, s, t);
  }

  /** The second half of LeastStep: m = (g * a1) * s with s * a1 = b1 * t
      makes b1 divide s, and then a1 * (g * b1) divides m. */
  lemma LeastFinish(a1: int, b1: int, g: int, m: int, s: int, t: int)
    requires a1 > 0 && b1 > 0 && g > 0 && GcdOf(a1, b1) == 1
    requires s > 0 && s * a1 == b1 * t && m == (g * a1) * s
    ensures Divides(a1 * (g * b1), m)
  {
    MultipleDivides(b1, t);
    CoprimeDivides(a1, b1, s);
    var u := s / b1;
    Cofactor(b1, s);
    Regroup(a1, b1, g, u);
    MultipleDivides(a1 * (g * b1), u);
  }

  lemma SameMultiple(a1: int, b1: int, g: int, s: int, t: int)
    requires a1 > 0 && g > 0 && (g * a1) * s > 0 && (g * a1) * s == (g * b1) * t
    ensures s > 0 && s * a1 == b1 * t
  {
    assert g * (a1 * s) == g * (b1 * t);
  }

  lemma Regroup(a1: int, b1: int, g: int, u: int)
    ensures (g * a1) * (b1 * u) == (a1 * (g * b1)) * u
  {
  }

  lemma DividesTrans(x: int, y: int, z: int)
    requires Divides(x, y) && Divides(y, z)
    ensures Divides(x, z)
  {
    Cofactor(x, y);
    Cofactor(y, z);
    assert z == x * ((y / x) * (z / y));
    MultipleDivides(x, (y / x) * (z / y));
  }

  /** m is a multiple of every number in xs. */
  predicate MultipleOfAll(m: int, xs: seq<int>) {
    forall i :: 0 <= i < |xs| ==> Divides(xs[i], m)
  }

  /** l is the least positive common multiple of xs. */
  ghost predicate IsLcm(l: int, xs: seq<int>) {
    l > 0 && MultipleOfAll(l, xs) &&
    forall m :: m > 0 && MultipleOfAll(m, xs) ==> Divides(l, m)
  }

  /** Taking the least common multiple with one more positive number x
      extends the list by x. */
  lemma ExtendLcm(r: int, seen: seq<int>, x: int)
    requires IsLcm(r, seen) && x > 0
    ensures LcmOf(r, x).Some? && IsLcm(LcmOf(r, x).value, seen + [x])
  {
    LcmIsLeast(r, x);
    var l := LcmOf(r, x).value;
    var seen2 := seen + [x];
    forall i | 0 <= i < |seen2|
      ensures Divides(seen2[i], l)
    {
      if i < |seen| {
        DividesTrans(seen[i], r, l);
      }
    }
    forall m | m > 0 && MultipleOfAll(m, seen2)
      ensures Divides(l, m)
    {
      assert MultipleOfAll(m, seen) by {
        forall i | 0 <= i < |seen|
          ensures Divides(seen[i], m)
        {
          assert seen[i] == seen2[i];
        }
      }
      assert Divides(seen2[|seen|], m);
    }
  }

  /** Folding positive numbers into the least common multiple of the
      numbers seen so far gives the least common multiple of them all. */
  lemma {:induction false} FoldIsLcm(r: int, seen: seq<int>, xs: seq<int>)
    requires IsLcm(r, seen)
    requires forall i :: 0 <= i < |xs| ==> xs[i] > 0
    ensures FoldLcm(Some(r), xs).Some? && IsLcm(FoldLcm(Some(r), xs).value, seen + xs)
    decreases |xs|
  {
    if xs == [] {
      assert seen + xs == seen;
    } else {
      ExtendLcm(r, seen, xs[0]);
      FoldIsLcm(LcmOf(r, xs[0]).value, seen + [xs[0]], xs[1..]);
      assert seen + [xs[0]] + xs[1..] == seen + xs;
    }
  }

  /** LCM(a, b, integers...) of positive numbers is the least common
      multiple of all of them. */
  lemma LcmAllIsLcm(a: int, b: int, integers: seq<int>)
    requires a > 0 && b > 0
    requires forall i :: 0 <= i < |integers| ==> integers[i] > 0
    ensures LcmAll(a, b, integers).Some? && IsLcm(LcmAll(a, b, integers).value, [a, b] + integers)
  {
    LcmIsLeast(a, b);
    var l := LcmOf(a, b).value;
    assert IsLcm(l, [a, b]) by {
      forall m | m > 0 && MultipleOfAll(m, [a, b])
        ensures Divides(l, m)
      {
        assert Divides([a, b][0], m) && Divides([a, b][1], m);
      }
    }
    FoldIsLcm(l, [a, b], integers);
  }
}
