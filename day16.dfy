/** Day 16: the flawed frequency transmission. A phase replaces every
    digit of a signal by the last digit of the absolute value of a sum of
    products with a repeating pattern; the second half of the signal, from
    an offset on, is computed in place as running suffix sums. */
module Fft {
  import opened Num

  /** Ith: the pattern value for index i when every pattern element is
      repeated `repeat` times and the pattern cycles. */
  function Ith(v: seq<int>, i: int, repeat: int): int
    requires |v| > 0 && i >= 0 && repeat > 0
  {
    v[(i / repeat) % |v|]
  }

  /** The index i of block b (b * repeat <= i < (b + 1) * repeat) reads
      pattern element b modulo the pattern length, and the whole
      stretched pattern repeats every repeat * |v| indices. */
  lemma IthBlock(v: seq<int>, i: int, repeat: int, b: nat)
    requires |v| > 0 && repeat > 0 && b * repeat <= i < b * repeat + repeat
    ensures Ith(v, i, repeat) == v[b % |v|]
    ensures Ith(v, i + repeat * |v|, repeat) == Ith(v, i, repeat)
  {
    DivModUnique(i, repeat, b, i - b * repeat);
    var j := i + repeat * |v|;
    assert j == (b + |v|) * repeat + (i - b * repeat);
    DivModUnique(j, repeat, b + |v|, i - b * repeat);
    DivModUnique(b + |v|, |v|, b / |v| + 1, b % |v|);
  }

  /** The sum of v[k] * Ith(pattern, k + offset, repeat) for k < n. */
  function Dot(v: seq<int>, pattern: seq<int>, offset: nat, repeat: int, n: nat): int
    requires n <= |v| && |pattern| > 0 && repeat > 0
  {
    if n == 0 then 0
    else Dot(v, pattern, offset, repeat, n - 1) + v[n - 1] * Ith(pattern, n - 1 + offset, repeat)
  }

  /** The last digit of the absolute value of the whole sum. */
  function Digit(v: seq<int>, pattern: seq<int>, offset: nat, repeat: int): (d: int)
    requires |pattern| > 0 && repeat > 0
    ensures 0 <= d <= 9
  {
    Abs(Dot(v, pattern, offset, repeat, |v|)) % 10
  }

  /** PhaseInner: the sum of products, accumulated over the signal. */
  method PhaseInner(v: seq<int>, pattern: seq<int>, offset: nat, repeat: int) returns (d: int)
    requires |pattern| > 0 && repeat > 0
    ensures d == Digit(v, pattern, offset, repeat) && 0 <= d <= 9
  {
    var sum := 0;
    var n := 0;
    while n < |v|
      invariant 0 <= n <= |v| && sum == Dot(v, pattern, offset, repeat, n)
    {
      sum := sum + v[n] * Ith(pattern, n + offset, repeat);
      n := n + 1;
    }
    d := Abs(sum) % 10;
  }

  /** Phase: digit n of the next signal uses offset 1 and repeat n + 1;
      the length is kept. */
  method Phase(v: seq<int>, pattern: seq<int>) returns (next: seq<int>)
    requires |pattern| > 0
    ensures |next| == |v|
    ensures forall n :: 0 <= n < |v| ==> next[n] == Digit(v, pattern, 1, n + 1)
  {
    next := [];
    var n := 0;
    while n < |v|
      invariant 0 <= n <= |v| && |next| == n
      invariant forall k :: 0 <= k < n ==> next[k] == Digit(v, pattern, 1, k + 1)
    {
      var d := PhaseInner(v, pattern, 1, n + 1);
      next := next + [d];
      n := n + 1;
    }
  }

  /** The first n + 1 positions of row n (the pattern 0, 1, 0, -1 with
      offset 1 and repeat n + 1) read the pattern's first element, so an
      element of the next signal never depends on the digits before it. */
  lemma UpperTriangular(pattern: seq<int>, n: nat, k: nat)
    requires |pattern| > 0 && k < n
    ensures Ith(pattern, k + 1, n + 1) == pattern[0]
  {
    IthBlock(pattern, k + 1, n + 1, 0);
  }

  // ---------------------------------------------------------------------
  // SliceToNum

  /** The number the digits spell, most significant first. */
  function Spelled(nums: seq<int>): int
    decreases |nums|
  {
    if nums == [] then 0 else Spelled(nums[..|nums| - 1]) * 10 + nums[|nums| - 1]
  }

  /** SliceToNum: -1 for no digits, otherwise the number they spell. */
  method SliceToNum(nums: seq<int>) returns (r: int)
    ensures r == if nums == [] then -1 else Spelled(nums)
  {
    if |nums| == 0 {
      return -1;
    }
    var sum := 0;
    var n := 0;
    while n < |nums|
      invariant 0 <= n <= |nums| && sum == Spelled(nums[..n])
    {
      assert nums[..n + 1][..n] == nums[..n];
      sum := sum * 10;
      sum := sum + nums[n];
      n := n + 1;
    }
    assert nums[..n] == nums;
    r := sum;
  }

  /** The digit values of a decimal text. */
  function Values(s: seq<char>): (v: seq<int>)
    requires AllDigits(s)
    ensures |v| == |s| && forall k :: 0 <= k < |s| ==> v[k] == DigitValue(s[k])
  {
    seq(|s|, k requires 0 <= k < |s| => DigitValue(s[k]) as int)
  }

  lemma {:induction false} SpelledValues(s: seq<char>)
    requires AllDigits(s)
    ensures Spelled(Values(s)) == DigitsValue(s)
    decreases |s|
  {
    if s != [] {
      var f := s[..|s| - 1];
      SpelledValues(f);
      assert Values(s)[..|s| - 1] == Values(f);
    }
  }

  /** The digits of a number, as the signal holds them, spell that
      number. */
  lemma SpelledDigits(n: nat)
    ensures Spelled(Values(NatDigits(n))) == n
  {
    SpelledValues(NatDigits(n));
    DigitsRoundTrip(n);
  }

  // ---------------------------------------------------------------------
  // Phase2

  /** The running value Phase2 stores at index i: the partial sum from the
      end, reduced by Go's remainder after every addition. */
  function Tail(s: seq<int>, i: nat): int
    requires i <= |s|
    decreases |s| - i
  {
    if i == |s| then 0 else Rem(Tail(s, i + 1) + s[i], 10)
  }

  /** The sum of s[i..]. */
  function SumFrom(s: seq<int>, i: nat): int
    requires i <= |s|
    decreases |s| - i
  {
    if i == |s| then 0 else s[i] + SumFrom(s, i + 1)
  }

  /** On non-negative digits the running value is the last digit of the
      suffix sum. */
  lemma {:induction false} TailIsSuffixSum(s: seq<int>, i: nat)
    requires i <= |s| && forall k :: 0 <= k < |s| ==> s[k] >= 0
    ensures SumFrom(s, i) >= 0 && Tail(s, i) == SumFrom(s, i) % 10
    decreases |s| - i
  {
    if i < |s| {
      TailIsSuffixSum(s, i + 1);
      LastDigitOfSum(SumFrom(s, i + 1), s[i]);
    }
  }

  /** Adding d to the last digit of t and keeping the last digit gives the
      last digit of t + d. */
  lemma LastDigitOfSum(t: int, d: int)
    requires t >= 0 && d >= 0
    ensures Rem(t % 10 + d, 10) == (t + d) % 10
  {
    QuotRemNonNeg(t % 10 + d, 10);
    DivModUnique(t + d, 10, t / 10 + (t % 10 + d) / 10, (t % 10 + d) % 10);
  }

  /** Phase2: from the end down to offset, every element is replaced by the
      running value; the elements below offset are kept. The same array is
      returned. */
  method Phase2(v: array<int>, pattern: seq<int>, offset: nat) returns (r: array<int>)
    modifies v
    ensures r == v
    ensures forall i :: offset <= i < v.Length ==> v[i] == Tail(old(v[..]), i)
    ensures forall i :: 0 <= i < v.Length && i < offset ==> v[i] == old(v[i])
  {
    var l := v.Length;
    var partial := 0;
    var i := l - 1;
    while i >= offset
      invariant offset - 1 <= i < l || (i == l - 1 && l <= offset)
      invariant i >= -1
      invariant partial == Tail(old(v[..]), i + 1)
      invariant forall k :: i < k < l ==> v[k] == Tail(old(v[..]), k)
      invariant forall k :: 0 <= k <= i ==> v[k] == old(v[k])
    {
      partial := Rem(partial + v[i], 10);
      v[i] := partial;
      i := i - 1;
    }
    return v;
  }
}
