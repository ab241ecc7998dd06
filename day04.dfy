/** Day 4: a password is a number whose decimal digits never decrease and
    that has two equal adjacent digits; part two further asks that some
    maximal run of equal digits has length exactly two. The Go version
    walks the digits with early exit; the Rust version folds over them. */
module Passwords {
  import opened Num

  // ---------------------------------------------------------------------
  // Reference definitions on the decimal text

  predicate NonDecreasing(s: seq<char>) {
    forall i :: 0 < i < |s| ==> s[i - 1] <= s[i]
  }

  predicate HasDouble(s: seq<char>) {
    exists i :: 0 < i < |s| && s[i - 1] == s[i]
  }

  /** The length of the run of equal characters that ends at index i. */
  function RunLength(s: seq<char>, i: nat): (n: nat)
    requires i < |s|
    ensures 1 <= n <= i + 1
    decreases i
  {
    if i > 0 && s[i - 1] == s[i] then RunLength(s, i - 1) + 1 else 1
  }

  /** The run ending at index j is maximal (the next character differs or
      the text ends there) and has length exactly 2. */
  predicate PairEndsAt(s: seq<char>, j: nat)
    requires j < |s|
  {
    RunLength(s, j) == 2 && (j + 1 == |s| || s[j + 1] != s[j])
  }

  predicate HasPair(s: seq<char>) {
    exists j :: 0 <= j < |s| && PairEndsAt(s, j)
  }

  predicate ValidText(s: seq<char>) {
    NonDecreasing(s) && HasDouble(s)
  }

  predicate Valid(pass: int) {
    ValidText(Itoa(pass))
  }

  predicate Valid2(pass: int) {
    Valid(pass) && HasPair(Itoa(pass))
  }

  /** The pair condition read off the end of a scan: a closed pair seen
      before, or the final run being a pair. */
  lemma PairAtEnd(s: seq<char>, hasRun2: bool)
    requires |s| >= 1
    requires hasRun2 <==> exists j :: 0 <= j < |s| - 1 && PairEndsAt(s, j)
    ensures (hasRun2 || RunLength(s, |s| - 1) == 2) <==> HasPair(s)
  {
    if RunLength(s, |s| - 1) == 2 {
      assert PairEndsAt(s, |s| - 1);
    }
    if HasPair(s) && !hasRun2 {
      var j :| 0 <= j < |s| && PairEndsAt(s, j);
      assert j == |s| - 1;
    }
  }

  /** Moving past index i: a pair ends at i - 1 exactly when the run there
      has length 2 and s[i] differs. */
  lemma PairStep(s: seq<char>, i: nat, hasRun2: bool)
    requires 1 <= i < |s|
    requires hasRun2 <==> exists j :: 0 <= j < i - 1 && PairEndsAt(s, j)
    ensures (hasRun2 || (s[i] != s[i - 1] && RunLength(s, i - 1) == 2))
      <==> exists j :: 0 <= j < i && PairEndsAt(s, j)
  {
    if s[i] != s[i - 1] && RunLength(s, i - 1) == 2 {
      assert PairEndsAt(s, i - 1);
    }
    if (exists j :: 0 <= j < i && PairEndsAt(s, j)) && !hasRun2 {
      var j :| 0 <= j < i && PairEndsAt(s, j);
      assert j == i - 1;
    }
  }

  /** A pair is in particular a double, so part two implies part one's
      double condition. */
  lemma PairIsDouble(s: seq<char>)
    requires HasPair(s)
    ensures HasDouble(s)
  {
    var j :| 0 <= j < |s| && PairEndsAt(s, j);
    assert s[j - 1] == s[j];
  }

  // ---------------------------------------------------------------------
  // Go

  /** isValidPass: walk the digits after the first, remembering the last
      one; a smaller digit rejects at once. */
  method IsValidPass(pass: int) returns (ok: bool)
    ensures ok <==> Valid(pass)
  {
    ItoaShape(pass);
    ok := ScanValid(Itoa(pass));
  }

  method ScanValid(s: seq<char>) returns (ok: bool)
    requires |s| >= 1
    ensures ok <==> ValidText(s)
  {
    var hasDouble := false;
    var k := s[0];
    var i := 1;
    while i < |s|
      invariant 1 <= i <= |s| && k == s[i - 1]
      invariant NonDecreasing(s[..i])
      invariant hasDouble <==> HasDouble(s[..i])
    {
      if s[i] == k {
        hasDouble := true;
      }
      if s[i] < k {
        assert !NonDecreasing(s) by { assert s[i - 1] > s[i]; }
        return false;
      }
      DoubleStep(s, i);
      k := s[i];
      i := i + 1;
    }
    assert s[..i] == s;
    return hasDouble;
  }

  lemma DoubleStep(s: seq<char>, i: nat)
    requires 1 <= i < |s|
    ensures HasDouble(s[..i + 1]) <==> HasDouble(s[..i]) || s[i] == s[i - 1]
    ensures NonDecreasing(s[..i + 1]) <==> NonDecreasing(s[..i]) && s[i - 1] <= s[i]
  {
    var t := s[..i + 1];
    assert s[..i] == t[..i];
    if HasDouble(t) && s[i] != s[i - 1] {
      var u :| 0 < u < |t| && t[u - 1] == t[u];
      assert u < i;
    }
    if s[i] == s[i - 1] {
      assert t[i - 1] == t[i];
    }
    if HasDouble(s[..i]) {
      var u :| 0 < u < i && s[..i][u - 1] == s[..i][u];
      assert t[u - 1] == t[u];
    }
  }

  /** isValidPass2: isValidPass, then track the length of the current run;
      a run of 2 that ends, or the final run being 2, qualifies. */
  method IsValidPass2(pass: int) returns (ok: bool)
    ensures ok <==> Valid2(pass)
  {
    var v := IsValidPass(pass);
    if !v {
      return false;
    }
    ItoaShape(pass);
    ok := ScanPairs(Itoa(pass));
  }

  method ScanPairs(s: seq<char>) returns (ok: bool)
    requires |s| >= 1
    ensures ok <==> HasPair(s)
  {
    var hasRun2 := false;
    var run := 1;
    var k := s[0];
    var i := 1;
    while i < |s|
      invariant 1 <= i <= |s| && k == s[i - 1]
      invariant run == RunLength(s, i - 1)
      invariant hasRun2 <==> exists j :: 0 <= j < i - 1 && PairEndsAt(s, j)
    {
      PairStep(s, i, hasRun2);
      if s[i] == k {
        run := run + 1;
      } else {
        if run == 2 {
          hasRun2 := true;
        }
        run := 1;
      }
      k := s[i];
      i := i + 1;
    }
    PairAtEnd(s, hasRun2);
    ok := hasRun2 || run == 2;
  }

  // ---------------------------------------------------------------------
  // Rust

  /** The fold of is_valid_pass from index i on, with state (prev,
      has_double, decr); the first character sets neither flag. */
  function FoldValid(s: seq<char>, i: nat, prev: Option<char>, double: bool, decr: bool): (bool, bool)
    requires i <= |s|
    decreases |s| - i
  {
    if i == |s| then (double, decr)
    else match prev
      case None => FoldValid(s, i + 1, Some(s[i]), double, decr)
      case Some(p) => FoldValid(s, i + 1, Some(s[i]), double || s[i] == p, decr || s[i] < p)
  }

  /** is_valid_pass: double && !decr. */
  predicate RustValid(pass: int) {
    var r := FoldValid(Itoa(pass), 0, None, false, false);
    r.0 && !r.1
  }

  lemma {:induction false} FoldValidSound(s: seq<char>, i: nat)
    requires 1 <= i <= |s|
    ensures FoldValid(s, i, Some(s[i - 1]), HasDouble(s[..i]), !NonDecreasing(s[..i]))
      == (HasDouble(s), !NonDecreasing(s))
    decreases |s| - i
  {
    if i == |s| {
      assert s[..i] == s;
    } else {
      DoubleStep(s, i);
      FoldValidSound(s, i + 1);
    }
  }

  /** The Rust fold accepts exactly the passwords the Go loop accepts. */
  lemma RustValidAgrees(pass: int)
    ensures RustValid(pass) <==> Valid(pass)
  {
    var s := Itoa(pass);
    ItoaShape(pass);
    assert !HasDouble(s[..1]) && NonDecreasing(s[..1]);
    FoldValidSound(s, 1);
  }

  /** The fold of is_valid_pass2 from index i on, with state (prev, run,
      has_run2). */
  function FoldRuns(s: seq<char>, i: nat, prev: Option<char>, run: nat, hasRun2: bool): (nat, bool)
    requires i <= |s|
    decreases |s| - i
  {
    if i == |s| then (run, hasRun2)
    else match prev
      case None => FoldRuns(s, i + 1, Some(s[i]), 1, hasRun2)
      case Some(p) =>
        if s[i] == p then FoldRuns(s, i + 1, Some(s[i]), run + 1, hasRun2)
        else FoldRuns(s, i + 1, Some(s[i]), 1, hasRun2 || run == 2)
  }

  /** is_valid_pass2: (has_run2 || run == 2) && is_valid_pass. */
  predicate RustValid2(pass: int) {
    var r := FoldRuns(Itoa(pass), 0, None, 0, false);
    (r.1 || r.0 == 2) && RustValid(pass)
  }

  lemma {:induction false} FoldRunsSound(s: seq<char>, i: nat, hasRun2: bool)
    requires 1 <= i <= |s|
    requires hasRun2 <==> exists j :: 0 <= j < i - 1 && PairEndsAt(s, j)
    ensures var r := FoldRuns(s, i, Some(s[i - 1]), RunLength(s, i - 1), hasRun2);
      (r.1 || r.0 == 2) <==> HasPair(s)
    decreases |s| - i
  {
    if i == |s| {
      PairAtEnd(s, hasRun2);
    } else {
      PairStep(s, i, hasRun2);
      if s[i] == s[i - 1] {
        FoldRunsSound(s, i + 1, hasRun2);
      } else {
        FoldRunsSound(s, i + 1, hasRun2 || RunLength(s, i - 1) == 2);
      }
    }
  }

  /** The Rust part-two fold accepts exactly what the Go loop accepts. */
  lemma RustValid2Agrees(pass: int)
    ensures RustValid2(pass) <==> Valid2(pass)
  {
    var s := Itoa(pass);
    ItoaShape(pass);
    RustValidAgrees(pass);
    FoldRunsSound(s, 1, false);
  }

  // ---------------------------------------------------------------------
  // Counting (main)

  /** How many numbers in the half-open range [lo, end) pass. */
  function CountValid(lo: int, end: int, part2: bool): (n: nat)
    ensures n <= if end >= lo then end - lo else 0
    decreases if end >= lo then end - lo else 0
  {
    if end <= lo then 0
    else CountValid(lo, end - 1, part2) + (if (if part2 then Valid2(end - 1) else Valid(end - 1)) then 1 else 0)
  }

  /** The counting loop of main over [puzzleInputMin, puzzleInputMax]. */
  method Count(lo: int, hi: int) returns (count: nat, count2: nat)
    ensures count == CountValid(lo, hi + 1, false)
    ensures count2 == CountValid(lo, hi + 1, true)
  {
    count, count2 := 0, 0;
    var i := lo;
    ghost var end := if hi >= lo then hi + 1 else lo;
    while i <= hi
      invariant lo <= i <= end
      invariant count == CountValid(lo, i, false)
      invariant count2 == CountValid(lo, i, true)
      decreases hi - i
    {
      count, count2 := Tally(lo, i, count, count2);
      i := i + 1;
    }
    assert i == end;
    if hi < lo {
      assert CountValid(lo, hi + 1, false) == 0 && CountValid(lo, hi + 1, true) == 0;
    }
  }

  /** The body of the counting loop: test one number for both parts. */
  method Tally(lo: int, i: int, count: nat, count2: nat) returns (count': nat, count2': nat)
    requires lo <= i && count == CountValid(lo, i, false) && count2 == CountValid(lo, i, true)
    ensures count' == CountValid(lo, i + 1, false) && count2' == CountValid(lo, i + 1, true)
  {
    count', count2' := count, count2;
    var v := IsValidPass(i);
    if v {
      count' := count' + 1;
    }
    var v2 := IsValidPass2(i);
    if v2 {
      count2' := count2' + 1;
    }
  }

  /** Every part-two password is a part-one password, so the second count
      never exceeds the first. */
  lemma {:induction false} CountsOrdered(lo: int, end: int)
    ensures CountValid(lo, end, true) <= CountValid(lo, end, false)
    decreases if end >= lo then end - lo else 0
  {
    if end > lo {
      CountsOrdered(lo, end - 1);
    }
  }

  /** Examples from the puzzle text, on the digit strings. */
  lemma Examples()
    ensures NonDecreasing("111111") && HasDouble("111111")
    ensures !NonDecreasing("223450")
    ensures !HasDouble("123789")
    ensures HasPair("112233") && HasPair("111122") && !HasPair("123444")
  {
    assert "111111"[0] == "111111"[1];
    assert "223450"[4] > "223450"[5];
    assert PairEndsAt("112233", 1);
    assert PairEndsAt("111122", 5);
    assert RunLength("123444", 5) == 3;
    assert RunLength("123444", 4) == 2;
    assert RunLength("123444", 3) == 1;
    forall j | 0 <= j < 6
      ensures !PairEndsAt("123444", j)
    {
      if j < 3 {
        assert RunLength("123444", j) == 1;
      }
    }
  }
}
