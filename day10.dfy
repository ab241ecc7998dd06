/** Day 10: from a station, asteroids that lie on the same ray hide each
    other. NewAngle reduces the offset to an asteroid to a canonical
    direction by dividing out the gcd of its components; the number of
    visible asteroids is the number of distinct directions. */
module Asteroids {
  import opened Num
  import opened Euclid

  /** sign: -1 for a negative number, 1 otherwise (zero included). */
  function Sign(a: int): (s: int)
    ensures s == -1 || s == 1
    ensures s == -1 <==> a < 0
  {
    if a < 0 then -1 else 1
  }

  /** The sign and the magnitude rebuild the number; abs ignores the sign. */
  lemma SignAbs(a: int)
    ensures Sign(a) * Abs(a) == a
    ensures Abs(-a) == Abs(a)
  {
  }

  datatype Angle = Angle(dx: int, dy: int)

  /** The body of NewAngle on the offset (dx, dy): a unit step along an
      axis, or both components divided by gcd(|dx|, |dy|). */
  function Direction(dx: int, dy: int): Angle {
    if dx == 0 then Angle(0, Sign(dy))
    else if dy == 0 then Angle(Sign(dx), 0)
    else
      GcdPositive(Abs(dx), Abs(dy));
      var g := GcdOf(Abs(dx), Abs(dy));
      Angle(Quot(dx, g), Quot(dy, g))
  }

  /** NewAngle: the direction from (x1, y1) to (x2, y2). */
  function NewAngle(x2: int, y2: int, x1: int, y1: int): Angle {
    Direction(x2 - x1, y2 - y1)
  }

  /** A truncating quotient that divides exactly is the cofactor. */
  lemma QuotExact(n: int, d: int, q: int)
    requires d > 0 && n == q * d
    ensures Quot(n, d) == q
  {
    if n >= 0 {
      if q < 0 {
        MulAtLeast(-q, d);
      }
      DivModUnique(n, d, q, 0);
    } else {
      DivModUnique(-n, d, -q, 0);
    }
  }

  /** A non-zero offset is a positive multiple g of its direction; the
      factor is returned. */
  lemma DirectionFactor(dx: int, dy: int) returns (g: int)
    requires dx != 0 || dy != 0
    ensures g > 0 && Direction(dx, dy).dx * g == dx && Direction(dx, dy).dy * g == dy
    ensures dx != 0 && dy != 0 ==> g == GcdOf(Abs(dx), Abs(dy))
  {
    if dx == 0 {
      g := Abs(dy);
    } else if dy == 0 {
      g := Abs(dx);
    } else {
      g := GcdOf(Abs(dx), Abs(dy));
      assert Divides(g, Abs(dx)) && Divides(g, Abs(dy)) by {
        GcdIsGreatest(Abs(dx), Abs(dy));
      }
      QuotByDivisor(dx, g);
      QuotByDivisor(dy, g);
    }
  }

  /** Dividing a multiple of g by g with truncation loses nothing. */
  lemma QuotByDivisor(n: int, g: int)
    requires Divides(g, Abs(n))
    ensures Quot(n, g) * g == n
  {
    var c := Abs(n) / g;
    Cofactor(g, Abs(n));
    if n >= 0 {
      QuotExact(n, g, c);
    } else {
      QuotExact(n, g, -c);
    }
  }

  /** A non-zero offset lies on the ray of its direction. */
  lemma OnRay(dx: int, dy: int)
    requires dx != 0 || dy != 0
    ensures exists g :: g > 0 && Direction(dx, dy).dx * g == dx && Direction(dx, dy).dy * g == dy
  {
    var g := DirectionFactor(dx, dy);
  }

  /** The direction's components have no common divisor but 1. */
  lemma DirectionPrimitive(dx: int, dy: int)
    requires dx != 0 || dy != 0
    ensures forall d :: Divides(d, Direction(dx, dy).dx) && Divides(d, Direction(dx, dy).dy) ==> d == 1
  {
    var a := Direction(dx, dy);
    forall d | Divides(d, a.dx) && Divides(d, a.dy)
      ensures d == 1
    {
      if dx == 0 || dy == 0 {
        if a.dx == 0 {
          DivisorBound(d, Abs(a.dy));
          assert Abs(a.dy) == 1;
        } else {
          DivisorBound(d, Abs(a.dx));
          assert Abs(a.dx) == 1;
        }
      } else {
        PrimitiveStep(dx, dy, d);
      }
    }
  }

  lemma PrimitiveStep(dx: int, dy: int, d: int)
    requires dx != 0 && dy != 0
    requires Divides(d, Direction(dx, dy).dx) && Divides(d, Direction(dx, dy).dy)
    ensures d == 1
  {
    var g := DirectionFactor(dx, dy);
    PrimitiveCore(Direction(dx, dy).dx, Direction(dx, dy).dy, g, d);
  }

  /** Dividing out the gcd leaves no common divisor but 1. */
  lemma PrimitiveCore(ax: int, ay: int, g: int, d: int)
    requires (ax * g != 0 || ay * g != 0) && g > 0 && g == GcdOf(Abs(ax * g), Abs(ay * g))
    requires Divides(d, ax) && Divides(d, ay)
    ensures d == 1
  {
    var u, v := ax / d, ay / d;
    Cofactor(d, ax);
    Cofactor(d, ay);
    ScaledDivides(ax, g, d, u);
    ScaledDivides(ay, g, d, v);
    GcdIsGreatest(Abs(ax * g), Abs(ay * g));
    assert Divides(d * g, g);
    DivisorBound(d * g, g);
    assert d * g == (d - 1) * g + g;
    if d > 1 {
      MulAtLeast(d - 1, g);
    }
  }

  lemma ScaledDivides(a: int, g: int, d: int, u: int)
    requires g > 0 && d > 0 && a == d * u
    ensures Divides(d * g, Abs(a * g))
  {
    if a >= 0 {
      assert a * g == (d * g) * u;
      MultipleDivides(d * g, u);
    } else {
      assert -(a * g) == (d * g) * (-u);
      MultipleDivides(d * g, -u);
    }
  }

  /** Scaling the offset by a positive factor keeps the direction. */
  lemma DirectionScale(k: int, dx: int, dy: int)
    requires k > 0
    ensures Direction(k * dx, k * dy) == Direction(dx, dy)
  {
    if dx != 0 && dy != 0 {
      var g := GcdOf(Abs(dx), Abs(dy));
      var a := Direction(dx, dy);
      var f := DirectionFactor(dx, dy);
      AbsScale(k, dx);
      AbsScale(k, dy);
      GcdScale(k, Abs(dx), Abs(dy));
      assert GcdOf(Abs(k * dx), Abs(k * dy)) == k * g;
      ScaleQuot(k, a.dx, g, dx);
      ScaleQuot(k, a.dy, g, dy);
    } else if dx == 0 {
      assert k * dx == 0;
    } else {
      assert k * dy == 0;
    }
  }

  /** Scaling by k > 0 scales the magnitude and keeps a number non-zero. */
  lemma AbsScale(k: int, n: int)
    requires k > 0
    ensures Abs(k * n) == k * Abs(n) && (n != 0 ==> k * n != 0)
  {
    if n < 0 {
      assert k * n == -(k * -n);
    }
  }

  /** n = c * g scaled by k, divided by k * g, is still c. */
  lemma ScaleQuot(k: int, c: int, g: int, n: int)
    requires k > 0 && g > 0 && c * g == n
    ensures k * g > 0 && Quot(k * n, k * g) == c
  {
    assert k * n == c * (k * g);
    QuotExact(k * n, k * g, c);
  }

  /** The offset (dx, dy) scaled by k. */
  function Times(k: int, dx: int, dy: int): (int, int) {
    (k * dx, k * dy)
  }

  /** p times the first offset is q times the second, for positive p, q. */
  predicate Meet(p: int, q: int, ax: int, ay: int, bx: int, b2: int) {
    p > 0 && q > 0 && Times(p, ax, ay) == Times(q, bx, b2)
  }

  /** Seen from a station, two other points get the same angle exactly
      when they lie on the same ray: positive multiples of their offsets
      (ax, ay) and (bx, b2) from the station coincide. */
  lemma SameAngleIffSameRay(ax: int, ay: int, bx: int, b2: int)
    requires (ax, ay) != (0, 0) && (bx, b2) != (0, 0)
    ensures Direction(ax, ay) == Direction(bx, b2) <==>
      exists p, q {:trigger Meet(p, q, ax, ay, bx, b2)} :: Meet(p, q, ax, ay, bx, b2)
  {
    if Direction(ax, ay) == Direction(bx, b2) {
      var ga := DirectionFactor(ax, ay);
      var gb := DirectionFactor(bx, b2);
      CrossScale(Direction(ax, ay), ga, gb, ax, ay, bx, b2);
      assert Meet(gb, ga, ax, ay, bx, b2);
    }
    if exists p, q {:trigger Meet(p, q, ax, ay, bx, b2)} :: Meet(p, q, ax, ay, bx, b2) {
      var p, q :| Meet(p, q, ax, ay, bx, b2);
      DirectionScale(p, ax, ay);
      DirectionScale(q, bx, b2);
    }
  }

  /** Two positive multiples of one direction are positive multiples of
      each other. */
  lemma CrossScale(a: Angle, ga: int, gb: int, ax: int, ay: int, bx: int, b2: int)
    requires ga > 0 && gb > 0
    requires a.dx * ga == ax && a.dy * ga == ay && a.dx * gb == bx && a.dy * gb == b2
    ensures Times(gb, ax, ay) == Times(ga, bx, b2)
  {
    assert gb * (a.dx * ga) == ga * (a.dx * gb);
    assert gb * (a.dy * ga) == ga * (a.dy * gb);
    assert gb * ax == ga * bx && gb * ay == ga * b2;
  }

  /** The station's own cell gets the angle of the cell straight below. */
  lemma SelfAngle(x: int, y: int)
    ensures NewAngle(x, y, x, y) == Angle(0, 1) == NewAngle(x, y + 1, x, y)
  {
  }

  // ---------------------------------------------------------------------
  // Visibility

  type Grid = seq<seq<int>>

  /** The cell (x, y) holds an asteroid and is not the station. */
  predicate Other(g: Grid, x: int, y: int, px: int, py: int)
    requires 0 <= y < |g| && 0 <= x < |g[y]|
  {
    g[y][x] == 1 && !(x == px && y == py)
  }

  /** acc with the angles of the other asteroids among the first n cells
      of row y added. */
  function Collect(acc: set<Angle>, g: Grid, y: nat, n: nat, px: int, py: int): set<Angle>
    requires y < |g| && n <= |g[y]|
  {
    if n == 0 then acc
    else
      var s := Collect(acc, g, y, n - 1, px, py);
      if Other(g, n - 1, y, px, py) then s + {NewAngle(n - 1, y, px, py)} else s
  }

  /** The angles of the other asteroids in the first m rows. */
  function Angles(g: Grid, m: nat, px: int, py: int): set<Angle>
    requires m <= |g|
  {
    if m == 0 then {} else Collect(Angles(g, m - 1, px, py), g, m - 1, |g[m - 1]|, px, py)
  }

  function RowOthers(g: Grid, y: nat, n: nat, px: int, py: int): nat
    requires y < |g| && n <= |g[y]|
  {
    if n == 0 then 0 else RowOthers(g, y, n - 1, px, py) + (if Other(g, n - 1, y, px, py) then 1 else 0)
  }

  /** The number of other asteroids in the first m rows. */
  function Others(g: Grid, m: nat, px: int, py: int): nat
    requires m <= |g|
  {
    if m == 0 then 0 else Others(g, m - 1, px, py) + RowOthers(g, m - 1, |g[m - 1]|, px, py)
  }

  /** An angle is collected exactly when some other asteroid has it. */
  lemma {:induction false} AnglesMeaning(g: Grid, m: nat, px: int, py: int, a: Angle)
    requires m <= |g|
    ensures a in Angles(g, m, px, py) <==>
      exists y, x :: 0 <= y < m && 0 <= x < |g[y]| && Other(g, x, y, px, py) && NewAngle(x, y, px, py) == a
  {
    if m > 0 {
      AnglesMeaning(g, m - 1, px, py, a);
      CollectMeaning(Angles(g, m - 1, px, py), g, m - 1, |g[m - 1]|, px, py, a);
    }
  }

  lemma {:induction false} CollectMeaning(acc: set<Angle>, g: Grid, y: nat, n: nat, px: int, py: int, a: Angle)
    requires y < |g| && n <= |g[y]|
    ensures a in Collect(acc, g, y, n, px, py) <==>
      a in acc || exists x :: 0 <= x < n && Other(g, x, y, px, py) && NewAngle(x, y, px, py) == a
  {
    if n > 0 {
      CollectMeaning(acc, g, y, n - 1, px, py, a);
    }
  }

  /** Visible: counts the angles not yet in the set while walking the
      grid row by row, skipping empty cells and the station itself. */
  method Visible(g: Grid, px: int, py: int) returns (count: nat)
    ensures count == |Angles(g, |g|, px, py)|
    ensures count <= Others(g, |g|, px, py)
  {
    count := 0;
    var angles: set<Angle> := {};
    ghost var seen := 0;
    var y := 0;
    while y < |g|
      invariant 0 <= y <= |g|
      invariant angles == Angles(g, y, px, py) && count == |angles|
      invariant seen == Others(g, y, px, py) && count <= seen
    {
      angles, count, seen := ScanRow(g, y, px, py, angles, count, seen);
      y := y + 1;
    }
  }

  /** The inner loop of Visible over row y. */
  method ScanRow(g: Grid, y: nat, px: int, py: int, angles0: set<Angle>, count0: nat, ghost seen0: nat)
    returns (angles: set<Angle>, count: nat, ghost seen: nat)
    requires y < |g| && count0 == |angles0| && count0 <= seen0
    ensures angles == Collect(angles0, g, y, |g[y]|, px, py) && count == |angles|
    ensures seen == seen0 + RowOthers(g, y, |g[y]|, px, py) && count <= seen
  {
    angles, count, seen := angles0, count0, seen0;
    var row := g[y];
    var x := 0;
    while x < |row|
      invariant 0 <= x <= |row|
      invariant angles == Collect(angles0, g, y, x, px, py) && count == |angles|
      invariant seen == seen0 + RowOthers(g, y, x, px, py) && count <= seen
    {
      if row[x] == 1 && !(x == px && y == py) {
        var k := NewAngle(x, y, px, py);
        if k !in angles {
          angles := angles + {k};
          count := count + 1;
        }
        seen := seen + 1;
      }
      x := x + 1;
    }
  }
}
