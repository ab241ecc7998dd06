/** Integer helpers shared by the puzzle programs: the truncating division
    and remainder of Go and Rust, absolute value, and the decimal text form
    of integers produced by strconv.Itoa / to_string and read back by
    strconv.Atoi / parse. */
module Num {

  datatype Option<T> = None | Some(value: T)

  /** Absolute value. */
  function Abs(a: int): (r: int)
    ensures r >= 0
    ensures r == a || r == -a
  {
    if a < 0 then -a else a
  }

  /** Go's and Rust's `a / b`: the quotient rounded toward zero. */
  function Quot(a: int, b: int): (q: int)
    requires b != 0
  {
    if (a >= 0) == (b > 0) then Abs(a) / Abs(b) else -(Abs(a) / Abs(b))
  }

  /** Go's and Rust's `a % b`: the remainder that takes the sign of `a`. */
  function Rem(a: int, b: int): (r: int)
    requires b != 0
  {
    a - b * Quot(a, b)
  }

  lemma QuotRemNonNeg(a: int, b: int)
    requires a >= 0 && b > 0
    ensures Quot(a, b) == a / b && Rem(a, b) == a % b
  {
  }

  /** With a positive divisor the remainder lies strictly between -b and
      b and takes the sign of the dividend. */
  lemma RemBounds(a: int, b: int)
    requires b > 0
    ensures -b < Rem(a, b) < b
    ensures a >= 0 ==> Rem(a, b) >= 0
    ensures a <= 0 ==> Rem(a, b) <= 0
    ensures a == b * Quot(a, b) + Rem(a, b)
  {
    if a < 0 {
      var m := RemOfAbs(-a, b);
      assert Quot(a, b) == -((-a) / b);
      RemFlip(b, (-a) / b);
      assert Rem(a, b) == -m;
    }
  }

  lemma RemOfAbs(x: int, y: int) returns (m: int)
    requires x >= 0 && y > 0
    ensures m == x - y * (x / y) && 0 <= m < y
  {
    m := x % y;
  }

  lemma RemFlip(u: int, v: int)
    ensures u * -v == -(u * v)
  {
  }

  /** With a positive divisor and a negative dividend the truncating
      remainder is the negated Euclidean remainder of the magnitude. */
  lemma RemNeg(a: int, b: int)
    requires a < 0 && b > 0
    ensures Rem(a, b) == -((-a) % b)
  {
    var m := RemOfAbs(-a, b);
    assert Quot(a, b) == -((-a) / b);
    RemFlip(b, (-a) / b);
  }

  /** A truncating quotient by a positive divisor is the Euclidean one for
      a non-negative dividend and rounds toward zero for a negative one. */
  lemma QuotNeg(a: int, b: int)
    requires a < 0 && b > 0
    ensures Quot(a, b) == -((-a) / b)
  {
  }

  lemma MulAtLeast(d: int, w: int)
    requires d >= 1 && w > 0
    ensures d * w >= w
  {
  }

  /** Euclidean division is determined by its defining equation: a
      remainder in [0, w) fixes the quotient. */
  lemma DivModUnique(n: int, w: int, q: int, r: int)
    requires w > 0 && 0 <= r < w && n == q * w + r
    ensures n / w == q && n % w == r
  {
    var q2, r2 := n / w, n % w;
    assert n == q2 * w + r2 && 0 <= r2 < w;
    assert (q - q2) * w == r2 - r;
    if q > q2 {
      MulAtLeast(q - q2, w);
    } else if q2 > q {
      MulAtLeast(q2 - q, w);
    }
  }

  /** The magnitude of a truncating remainder is the remainder of the
      magnitudes, so it is below the divisor's magnitude. */
  lemma RemAbs(a: int, b: int)
    requires b != 0
    ensures Abs(Rem(a, b)) == Abs(a) % Abs(b) < Abs(b)
  {
    var q, r := Abs(a) / Abs(b), Abs(a) % Abs(b);
    assert Abs(a) == Abs(b) * q + r;
    var bq := b * q;
    if b < 0 {
      assert b == -Abs(b);
      RemFlip(q, Abs(b));
      assert bq == -(Abs(b) * q);
    } else {
      assert bq == Abs(b) * q;
    }
    if (a >= 0) == (b > 0) {
      assert Quot(a, b) == q;
    } else {
      assert Quot(a, b) == -q;
      RemFlip(b, q);
    }
    assert Rem(a, b) == if a >= 0 then r else -r;
  }

  // ---------------------------------------------------------------------
  // Decimal text

  predicate IsDigit(c: char) {
    '0' <= c <= '9'
  }

  function DigitChar(d: nat): (c: char)
    requires d < 10
    ensures IsDigit(c)
  {
    ('0' as int + d) as char
  }

  function DigitValue(c: char): (d: nat)
    requires IsDigit(c)
    ensures d < 10
  {
    (c as int - '0' as int) as nat
  }

  lemma DigitRoundTrip(d: nat)
    requires d < 10
    ensures DigitValue(DigitChar(d)) == d
  {
  }

  predicate AllDigits(s: seq<char>) {
    forall i :: 0 <= i < |s| ==> IsDigit(s[i])
  }

  /** The digits of a natural number, most significant first, without
      leading zeros ("0" for zero). */
  function NatDigits(n: nat): (s: seq<char>)
    ensures |s| >= 1 && AllDigits(s)
    ensures n < 10 <==> |s| == 1
    decreases n
  {
    if n < 10 then [DigitChar(n)] else NatDigits(n / 10) + [DigitChar(n % 10)]
  }

  /** The number a non-empty digit string spells. */
  function DigitsValue(s: seq<char>): (n: nat)
    requires AllDigits(s)
    decreases |s|
  {
    if s == [] then 0 else DigitsValue(s[..|s| - 1]) * 10 + DigitValue(s[|s| - 1])
  }

  lemma {:induction false} DigitsRoundTrip(n: nat)
    ensures DigitsValue(NatDigits(n)) == n
    decreases n
  {
    var s := NatDigits(n);
    if n < 10 {
      DigitRoundTrip(n);
      assert s[..0] == [];
    } else {
      DigitsRoundTrip(n / 10);
      DigitRoundTrip(n % 10);
      assert s[..|s| - 1] == NatDigits(n / 10);
    }
  }

  /** strconv.Itoa / to_string: an optional '-' and the digits of |n|. */
  function Itoa(n: int): (s: seq<char>)
  {
    if n < 0 then ['-'] + NatDigits(-n) else NatDigits(n)
  }

  /** strconv.Atoi / str::parse: an optional sign followed by one or more
      decimal digits; anything else is a parse error. */
  function Atoi(s: seq<char>): (r: Option<int>)
  {
    if |s| >= 2 && s[0] == '-' && AllDigits(s[1..]) then Some(-(DigitsValue(s[1..]) as int))
    else if |s| >= 2 && s[0] == '+' && AllDigits(s[1..]) then Some(DigitsValue(s[1..]))
    else if |s| >= 1 && AllDigits(s) then Some(DigitsValue(s))
    else None
  }

  lemma ItoaShape(n: int)
    ensures |Itoa(n)| >= 1
    ensures forall i :: 0 <= i < |Itoa(n)| ==> IsDigit(Itoa(n)[i]) || Itoa(n)[i] == '-'
  {
  }

  lemma AtoiSigned(d: seq<char>)
    requires |d| >= 1 && AllDigits(d)
    ensures Atoi(['-'] + d) == Some(-(DigitsValue(d) as int))
  {
    assert (['-'] + d)[1..] == d;
  }

  lemma AtoiUnsigned(d: seq<char>)
    requires |d| >= 1 && AllDigits(d)
    ensures Atoi(d) == Some(DigitsValue(d) as int)
  {
    assert IsDigit(d[0]);
  }

  /** Reading back what Itoa wrote gives the same number. */
  lemma AtoiItoa(n: int)
    ensures Atoi(Itoa(n)) == Some(n)
  {
    if n < 0 {
      var d := NatDigits(-n);
      assert DigitsValue(d) == -n by {
        DigitsRoundTrip(-n);
      }
      assert Atoi(['-'] + d) == Some(-(DigitsValue(d) as int)) by {
        AtoiSigned(d);
      }
    } else {
      var d := NatDigits(n);
      assert DigitsValue(d) == n by {
        DigitsRoundTrip(n);
      }
      assert Atoi(d) == Some(DigitsValue(d) as int) by {
        AtoiUnsigned(d);
      }
    }
  }

  /** Atoi rejects the empty string and a lone sign. */
  lemma AtoiRejects(s: seq<char>)
    requires |s| == 0 || (|s| == 1 && !IsDigit(s[0]))
    ensures Atoi(s) == None
  {
  }
}
