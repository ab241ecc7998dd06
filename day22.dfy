/** Day 22: slam shuffle. The deck is never laid out: the position of a card
    is an affine map p = a * x + b modulo the deck size, and each shuffle
    technique changes the two coefficients in place. All arithmetic uses
    Go's truncating remainder. */
module Shuffle {
  import opened Num

  /** The three techniques of the puzzle input. */
  datatype Technique = DealIntoNew | CutBy(n: int) | DealWithIncrement(n: int)

  /** Where the card at position p ends up, from the puzzle's own account
      of each technique: dealing into a new stack reverses the deck,
      cutting n moves the top n cards (or the bottom -n ones) to the other
      end, and dealing with increment n lays card p on position n * p,
      counting round the table. */
  function Moved(t: Technique, size: int, p: int): int
    requires size > 0
  {
    match t
    case DealIntoNew => size - 1 - p
    case CutBy(n) => (p - n) % size
    case DealWithIncrement(n) => (n * p) % size
  }

  /** The arguments the coefficient updates keep in range: a cut by less
      than the deck size and a non-negative increment. */
  predicate Allowed(t: Technique, size: int) {
    match t
    case DealIntoNew => true
    case CutBy(n) => -size < n < size
    case DealWithIncrement(n) => n >= 0
  }

  /** Where the card at position p ends up after the techniques in order. */
  function Follow(ts: seq<Technique>, size: int, p: int): int
    requires size > 0
    decreases |ts|
  {
    if ts == [] then p else Moved(ts[|ts| - 1], size, Follow(ts[..|ts| - 1], size, p))
  }

  /** A position on the deck stays on the deck. */
  lemma {:induction false} FollowInDeck(ts: seq<Technique>, size: int, p: int)
    requires size > 0 && 0 <= p < size
    ensures 0 <= Follow(ts, size, p) < size
    decreases |ts|
  {
    if ts != [] {
      FollowInDeck(ts[..|ts| - 1], size, p);
    }
  }

  // ---------------------------------------------------------------------
  // Congruences behind the coefficient updates

  /** Numbers that differ by a multiple of size leave the same remainder. */
  lemma ModShift(u: int, v: int, k: int, size: int)
    requires size > 0 && u == v + k * size
    ensures u % size == v % size
  {
    var q := v / size;
    assert v == q * size + v % size;
    assert u == (q + k) * size + v % size;
    DivModUnique(u, size, q + k, v % size);
  }

  lemma MulNonNeg(x: int, y: int)
    requires x >= 0 && y >= 0
    ensures x * y >= 0
  {
  }

  /** The position a * x + b of card x, for coefficients in range, is the
      Euclidean remainder and lies on the deck. */
  lemma PositionInDeck(a: int, b: int, size: int, x: int)
    requires size > 0 && 0 <= a < size && 0 <= b < size && x >= 0
    ensures x * a + b >= 0 && Rem(x * a + b, size) == (x * a + b) % size
    ensures 0 <= Rem(x * a + b, size) < size
  {
    MulNonNeg(x, a);
    QuotRemNonNeg(x * a + b, size);
  }

  lemma ReverseCore(a: int, b: int, size: int, x: int)
    requires 0 < a < size && 0 <= b < size && x >= 0
    ensures (x * (size - a) + (size - 1 - b)) % size == size - 1 - (x * a + b) % size
  {
    var m := x * a + b;
    var q, r := m / size, m % size;
    assert m == q * size + r;
    assert x * (size - a) == x * size - x * a;
    assert (x - q) * size == x * size - q * size;
    DivModUnique(x * (size - a) + (size - 1 - b), size, x - q, size - 1 - r);
  }

  /** Reverse negates both coefficients and subtracts one from b: every
      card moves from position p to size - 1 - p. */
  lemma ReversePosition(a: int, b: int, size: int, x: int)
    requires size > 0 && 0 <= a < size && 0 <= b < size && x >= 0
    ensures 0 <= Rem(a * -1 + size, size) < size && 0 <= Rem(b * -1 - 1 + size, size) < size
    ensures Rem(x * Rem(a * -1 + size, size) + Rem(b * -1 - 1 + size, size), size)
         == Moved(DealIntoNew, size, Rem(x * a + b, size))
  {
    ReverseCoefficients(a, b, size);
    var a', b' := Rem(a * -1 + size, size), Rem(b * -1 - 1 + size, size);
    PositionInDeck(a, b, size, x);
    PositionInDeck(a', b', size, x);
    if a == 0 {
      assert x * a' + b' == b';
      DivModUnique(b', size, 0, b');
      DivModUnique(b, size, 0, b);
    } else {
      ReverseCore(a, b, size, x);
    }
  }

  /** The coefficients Reverse computes: -a and -1 - b brought back on the
      deck. */
  lemma ReverseCoefficients(a: int, b: int, size: int)
    requires size > 0 && 0 <= a < size && 0 <= b < size
    ensures Rem(a * -1 + size, size) == if a == 0 then 0 else size - a
    ensures Rem(b * -1 - 1 + size, size) == size - 1 - b
  {
    QuotRemNonNeg(a * -1 + size, size);
    QuotRemNonNeg(b * -1 - 1 + size, size);
    DivModUnique(b * -1 - 1 + size, size, 0, size - 1 - b);
    if a == 0 {
      DivModUnique(size, size, 1, 0);
    } else {
      DivModUnique(size - a, size, 0, size - a);
    }
  }

  /** Cut changes only b, by -n: every card moves from p to p - n round the
      deck. */
  lemma CutPosition(a: int, b: int, size: int, n: int, x: int)
    requires size > 0 && 0 <= a < size && 0 <= b < size && -size < n < size && x >= 0
    ensures 0 <= Rem(b - n + size, size) < size
    ensures Rem(x * a + Rem(b - n + size, size), size) == Moved(CutBy(n), size, Rem(x * a + b, size))
  {
    QuotRemNonNeg(b - n + size, size);
    var b' := Rem(b - n + size, size);
    PositionInDeck(a, b, size, x);
    PositionInDeck(a, b', size, x);
    var m := x * a + b;
    var k := (b - n + size) / size;
    assert b' == b - n + size - k * size;
    ModShift(x * a + b', m - n, 1 - k, size);
    ModShift(m - n, m % size - n, m / size, size);
  }

  lemma DealCore(a: int, b: int, size: int, n: int, x: int)
    requires size > 0 && n >= 0
    ensures (x * ((a * n) % size) + (b * n) % size) % size == (n * ((x * a + b) % size)) % size
  {
    var m := x * a + b;
    var qa, qb, qm := (a * n) / size, (b * n) / size, m / size;
    var a', b' := (a * n) % size, (b * n) % size;
    assert a' == a * n - qa * size && b' == b * n - qb * size;
    assert m % size == m - qm * size;
    assert x * a' == x * a * n - x * qa * size;
    assert x * a' + b' == n * m - (x * qa + qb) * size;
    assert n * (m % size) == n * m - (n * qm) * size;
    ModShift(x * a' + b', n * (m % size), n * qm - x * qa - qb, size);
  }

  /** DealIncr multiplies both coefficients by n: every card moves from p
      to n * p round the deck. */
  lemma DealPosition(a: int, b: int, size: int, n: int, x: int)
    requires size > 0 && 0 <= a < size && 0 <= b < size && n >= 0 && x >= 0
    ensures 0 <= Rem(a * n, size) < size && 0 <= Rem(b * n, size) < size
    ensures Rem(x * Rem(a * n, size) + Rem(b * n, size), size)
         == Moved(DealWithIncrement(n), size, Rem(x * a + b, size))
  {
    MulNonNeg(a, n);
    MulNonNeg(b, n);
    QuotRemNonNeg(a * n, size);
    QuotRemNonNeg(b * n, size);
    PositionInDeck(a, b, size, x);
    PositionInDeck(Rem(a * n, size), Rem(b * n, size), size, x);
    DealCore(a, b, size, n, x);
  }

  // ---------------------------------------------------------------------
  // The deck

  class Card {
    var a: int
    var b: int
    const size: int

    /** Both coefficients lie on a non-empty deck. */
    predicate Valid()
      reads this
    {
      size > 0 && 0 <= a < size && 0 <= b < size
    }

    /** NewCard: the identity map, so card x lies at x % size. */
    constructor (size: int)
      ensures a == 1 && b == 0 && this.size == size
      ensures size > 1 ==> Valid()
      ensures size > 0 ==> forall x :: x >= 0 ==> FindCard(x) == x % size
    {
      a, b := 1, 0;
      this.size := size;
      new;
      forall x | x >= 0 && size > 0
        ensures FindCard(x) == x % size
      {
        QuotRemNonNeg(x, size);
      }
    }

    /** FindCard: the position of card n under the current map. */
    function FindCard(n: int): (r: int)
      reads this
      requires size != 0
      ensures Valid() && n >= 0 ==> 0 <= r < size
    {
      if Valid() && n >= 0 then PositionInDeck(a, b, size, n); Rem(n * a + b, size)
      else Rem(n * a + b, size)
    }

    /** Reverse: deal into a new stack. */
    method Reverse()
      requires Valid()
      modifies this
      ensures a == Rem(old(a) * -1 + size, size) && b == Rem(old(b) * -1 - 1 + size, size)
      ensures Valid()
      ensures forall x :: x >= 0 ==> FindCard(x) == Moved(DealIntoNew, size, old(FindCard(x)))
    {
      ghost var a0, b0 := a, b;
      a := (a * -1 + size);
      a := Rem(a, size);
      b := Rem(b * -1 - 1 + size, size);
      ReverseCoefficients(a0, b0, size);
      forall x | x >= 0
        ensures FindCard(x) == Moved(DealIntoNew, size, Rem(x * a0 + b0, size))
      {
        ReversePosition(a0, b0, size, x);
      }
    }

    /** Cut: cut n cards. */
    method Cut(n: int)
      requires Valid() && -size < n < size
      modifies this
      ensures a == old(a) && b == Rem(old(b) - n + size, size)
      ensures Valid()
      ensures forall x :: x >= 0 ==> FindCard(x) == Moved(CutBy(n), size, old(FindCard(x)))
    {
      ghost var b0 := b;
      b := Rem(b - n + size, size);
      CutPosition(a, b0, size, n, 0);
      forall x | x >= 0
        ensures FindCard(x) == Moved(CutBy(n), size, Rem(x * a + b0, size))
      {
        CutPosition(a, b0, size, n, x);
      }
    }

    /** DealIncr: deal with increment n. */
    method DealIncr(n: int)
      requires Valid() && n >= 0
      modifies this
      ensures a == Rem(old(a) * n, size) && b == Rem(old(b) * n, size)
      ensures Valid()
      ensures forall x :: x >= 0 ==> FindCard(x) == Moved(DealWithIncrement(n), size, old(FindCard(x)))
    {
      ghost var a0, b0 := a, b;
      a := Rem(a * n, size);
      b := Rem(b * n, size);
      DealPosition(a0, b0, size, n, 0);
      forall x | x >= 0
        ensures FindCard(x) == Moved(DealWithIncrement(n), size, Rem(x * a0 + b0, size))
      {
        DealPosition(a0, b0, size, n, x);
      }
    }

    /** The input loop: each technique updates the coefficients in turn,
        so every card lands where the techniques, followed one by one,
        put it. */
    method Shuffle(ts: seq<Technique>)
      requires Valid() && forall i :: 0 <= i < |ts| ==> Allowed(ts[i], size)
      modifies this
      ensures Valid()
      ensures forall x :: x >= 0 ==> FindCard(x) == Follow(ts, size, old(FindCard(x)))
    {
      var i := 0;
      while i < |ts|
        invariant 0 <= i <= |ts| && Valid()
        invariant forall x :: x >= 0 ==> FindCard(x) == Follow(ts[..i], size, old(FindCard(x)))
      {
        assert ts[..i + 1][..i] == ts[..i];
        match ts[i] {
          case DealIntoNew => Reverse();
          case CutBy(n) => Cut(n);
          case DealWithIncrement(n) => DealIncr(n);
        }
        i := i + 1;
      }
      assert ts[..i] == ts;
    }
  }

  /** The puzzle's answer: a fresh deck of the given size, shuffled, asked
      for the position of card x. */
  method PositionAfter(size: int, ts: seq<Technique>, x: int) returns (p: int)
    requires size > 1 && x >= 0 && forall i :: 0 <= i < |ts| ==> Allowed(ts[i], size)
    ensures p == Follow(ts, size, x % size) && 0 <= p < size
  {
    var deck := new Card(size);
    deck.Shuffle(ts);
    p := deck.FindCard(x);
  }
}
