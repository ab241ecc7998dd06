/** Day 12: moons in three dimensions. Every step, each moon's velocity is
    pulled by one unit per axis toward every other moon (gravity), then
    every moon moves by its velocity. A moon's energy is the product of the
    sums of the absolute values of its position and its velocity. */
module Moons {
  import opened Num

  datatype Vec = Vec(x: int, y: int, z: int)

  function Zero(): Vec {
    Vec(0, 0, 0)
  }

  function Plus(a: Vec, b: Vec): Vec {
    Vec(a.x + b.x, a.y + b.y, a.z + b.z)
  }

  /** gravity2: the change one coordinate x receives from another ox. */
  function Gravity2(x: int, ox: int): (d: int)
    ensures -1 <= d <= 1
    ensures d == 0 <==> x == ox
  {
    if x < ox then 1 else if x > ox then -1 else 0
  }

  /** The pull moves x toward ox: its sign is that of ox - x, and the two
      coordinates pull each other with opposite signs. */
  lemma Gravity2Meaning(x: int, ox: int)
    ensures Gravity2(x, ox) > 0 <==> x < ox
    ensures Gravity2(x, ox) < 0 <==> x > ox
    ensures Gravity2(x, ox) == -Gravity2(ox, x)
  {
  }

  /** The velocity change a moon at p receives from a moon at q. */
  function Pull(p: Vec, q: Vec): Vec {
    Vec(Gravity2(p.x, q.x), Gravity2(p.y, q.y), Gravity2(p.z, q.z))
  }

  /** Two moons pull each other by opposite amounts; a moon exerts no pull
      on a moon in the same place. */
  lemma PullAntisymmetric(p: Vec, q: Vec)
    ensures Plus(Pull(p, q), Pull(q, p)) == Zero()
    ensures Pull(p, p) == Zero()
  {
  }

  /** The sum of the absolute values of the coordinates. */
  function Norm(v: Vec): (n: int)
    ensures n >= 0
    ensures n == 0 <==> v == Zero()
  {
    Abs(v.x) + Abs(v.y) + Abs(v.z)
  }

  lemma ProductNonNeg(a: nat, b: nat)
    ensures a * b >= 0
  {
  }

  lemma ProductZero(a: nat, b: nat)
    ensures a * b >= 0 && (a * b == 0 <==> a == 0 || b == 0)
  {
  }

  class Moon {
    var pos: Vec
    var vel: Vec

    /** NewMoon: at rest at pos. */
    constructor (pos: Vec)
      ensures this.pos == pos && vel == Zero()
    {
      this.pos := pos;
      vel := Zero();
    }

    /** Gravity: only the velocity changes, each component by the pull of
        the matching coordinate of the other moon. */
    method Gravity(other: Moon)
      modifies this
      ensures vel == Plus(old(vel), Pull(old(pos), old(other.pos)))
      ensures pos == old(pos)
    {
      var d := Pull(pos, other.pos);
      vel := Plus(vel, d);
    }

    /** Velocity: the moon moves by its velocity, which stays the same. */
    method Velocity()
      modifies this
      ensures pos == Plus(old(pos), old(vel)) && vel == old(vel)
    {
      pos := Plus(pos, vel);
    }

    /** Energy: potential times kinetic energy, never negative. */
    function Energy(): (e: int)
      reads this
      ensures e >= 0
    {
      ProductNonNeg(Norm(pos), Norm(vel));
      Norm(pos) * Norm(vel)
    }
  }

  /** A moon has no energy exactly when it sits at the origin or is at
      rest. */
  lemma MoonEnergyZero(m: Moon)
    ensures m.Energy() == 0 <==> m.pos == Zero() || m.vel == Zero()
  {
    ProductZero(Norm(m.pos), Norm(m.vel));
  }

  // ---------------------------------------------------------------------
  // Sums over the moons, by index

  /** The total pull on moon k from the moons j < n other than itself. */
  function Row(ps: seq<Vec>, k: nat, n: nat): Vec
    requires k < |ps| && n <= |ps|
  {
    if n == 0 then Zero()
    else if n - 1 == k then Row(ps, k, n - 1)
    else Plus(Row(ps, k, n - 1), Pull(ps[k], ps[n - 1]))
  }

  /** The total pull moon k exerts on the moons j < n other than itself. */
  function Col(ps: seq<Vec>, k: nat, n: nat): Vec
    requires k < |ps| && n <= |ps|
  {
    if n == 0 then Zero()
    else if n - 1 == k then Col(ps, k, n - 1)
    else Plus(Col(ps, k, n - 1), Pull(ps[n - 1], ps[k]))
  }

  /** The total pull on the moons k < m from the moons j < n. */
  function Double(ps: seq<Vec>, m: nat, n: nat): Vec
    requires m <= |ps| && n <= |ps|
  {
    if m == 0 then Zero() else Plus(Double(ps, m - 1, n), Row(ps, m - 1, n))
  }

  /** The vector sum of vs[0 .. m]. */
  function SumTo(vs: seq<Vec>, m: nat): Vec
    requires m <= |vs|
  {
    if m == 0 then Zero() else Plus(SumTo(vs, m - 1), vs[m - 1])
  }

  /** What a moon receives from the others and what it gives them cancel
      out. */
  lemma {:induction false} RowColCancel(ps: seq<Vec>, k: nat, n: nat)
    requires k < |ps| && n <= |ps|
    ensures Plus(Row(ps, k, n), Col(ps, k, n)) == Zero()
  {
    if n > 0 {
      RowColCancel(ps, k, n - 1);
      PullAntisymmetric(ps[k], ps[n - 1]);
    }
  }

  /** Widening the range of pulling moons to n + 1 adds the pull of moon n
      on each of the moons k < m. */
  lemma {:induction false} DoubleExtend(ps: seq<Vec>, m: nat, n: nat)
    requires m <= |ps| && n < |ps|
    ensures Double(ps, m, n + 1) == Plus(Double(ps, m, n), Col(ps, n, m))
  {
    if m > 0 {
      DoubleExtend(ps, m - 1, n);
    }
  }

  /** Over all ordered pairs of distinct moons the pulls sum to zero. */
  lemma {:induction false} DoubleZero(ps: seq<Vec>, m: nat)
    requires m <= |ps|
    ensures Double(ps, m, m) == Zero()
  {
    if m > 0 {
      DoubleZero(ps, m - 1);
      DoubleExtend(ps, m - 1, m - 1);
      RowColCancel(ps, m - 1, m - 1);
    }
  }

  // ---------------------------------------------------------------------
  // One step on values

  /** The velocities after every moon has been pulled by every other. */
  function AfterGrav(ps: seq<Vec>, vs: seq<Vec>): (ws: seq<Vec>)
    requires |ps| == |vs|
    ensures |ws| == |vs|
  {
    seq(|vs|, k requires 0 <= k < |vs| => Plus(vs[k], Row(ps, k, |ps|)))
  }

  /** The positions after every moon has moved by its velocity. */
  function AfterVel(ps: seq<Vec>, vs: seq<Vec>): (qs: seq<Vec>)
    requires |ps| == |vs|
    ensures |qs| == |ps|
  {
    seq(|ps|, k requires 0 <= k < |ps| => Plus(ps[k], vs[k]))
  }

  lemma {:induction false} SumAfterGrav(ps: seq<Vec>, vs: seq<Vec>, m: nat)
    requires |ps| == |vs| && m <= |vs|
    ensures SumTo(AfterGrav(ps, vs), m) == Plus(SumTo(vs, m), Double(ps, m, |ps|))
  {
    if m > 0 {
      SumAfterGrav(ps, vs, m - 1);
      var ws := AfterGrav(ps, vs);
      assert ws[m - 1] == Plus(vs[m - 1], Row(ps, m - 1, |ps|));
      assert Plus(Plus(SumTo(vs, m - 1), Double(ps, m - 1, |ps|)), Plus(vs[m - 1], Row(ps, m - 1, |ps|)))
        == Plus(Plus(SumTo(vs, m - 1), vs[m - 1]), Plus(Double(ps, m - 1, |ps|), Row(ps, m - 1, |ps|)));
    }
  }

  /** Gravity conserves the total velocity along every axis. */
  lemma GravityConservesMomentum(ps: seq<Vec>, vs: seq<Vec>)
    requires |ps| == |vs|
    ensures SumTo(AfterGrav(ps, vs), |vs|) == SumTo(vs, |vs|)
  {
    SumAfterGrav(ps, vs, |vs|);
    DoubleZero(ps, |ps|);
  }

  /** Moving adds the total velocity to the sum of the positions. */
  lemma {:induction false} AfterVelSum(ps: seq<Vec>, vs: seq<Vec>, m: nat)
    requires |ps| == |vs| && m <= |ps|
    ensures SumTo(AfterVel(ps, vs), m) == Plus(SumTo(ps, m), SumTo(vs, m))
  {
    if m > 0 {
      AfterVelSum(ps, vs, m - 1);
    }
  }

  /** No two entries are the same moon. */
  predicate Distinct(ms: seq<Moon>) {
    forall i, j :: 0 <= i < j < |ms| ==> ms[i] != ms[j]
  }

  /** GravSystem: the moons of the system. */
  class GravSystem {
    const moons: seq<Moon>

    /** NewGravSystem. */
    constructor (moons: seq<Moon>)
      ensures this.moons == moons
    {
      this.moons := moons;
    }

    function Positions(): (ps: seq<Vec>)
      reads moons
      ensures |ps| == |moons| && forall k :: 0 <= k < |moons| ==> ps[k] == moons[k].pos
    {
      seq(|moons|, k reads moons requires 0 <= k < |moons| => moons[k].pos)
    }

    function Velocities(): (vs: seq<Vec>)
      reads moons
      ensures |vs| == |moons| && forall k :: 0 <= k < |moons| ==> vs[k] == moons[k].vel
    {
      seq(|moons|, k reads moons requires 0 <= k < |moons| => moons[k].vel)
    }

    /** stepGrav: every moon is pulled by every other moon; no moon
        moves. */
    method StepGrav()
      requires Distinct(moons)
      modifies moons
      ensures Positions() == old(Positions())
      ensures Velocities() == AfterGrav(old(Positions()), old(Velocities()))
    {
      ghost var ps, vs := Positions(), Velocities();
      var n := 0;
      while n < |moons|
        invariant 0 <= n <= |moons|
        invariant forall k :: 0 <= k < |moons| ==> moons[k].pos == ps[k]
        invariant forall k :: 0 <= k < n ==> moons[k].vel == Plus(vs[k], Row(ps, k, |ps|))
        invariant forall k :: n <= k < |moons| ==> moons[k].vel == vs[k]
      {
        Pulls(n, ps, vs);
        n := n + 1;
      }
    }

    /** The inner loop of stepGrav: moon n is pulled by every other moon in
        turn. */
    method Pulls(n: nat, ghost ps: seq<Vec>, ghost vs: seq<Vec>)
      requires Distinct(moons) && n < |moons| == |ps| == |vs|
      requires forall k :: 0 <= k < |moons| ==> moons[k].pos == ps[k]
      requires moons[n].vel == vs[n]
      modifies moons[n]
      ensures forall k :: 0 <= k < |moons| ==> moons[k].pos == ps[k]
      ensures moons[n].vel == Plus(vs[n], Row(ps, n, |ps|))
    {
      var i := moons[n];
      var n2 := 0;
      while n2 < |moons|
        invariant 0 <= n2 <= |moons|
        invariant forall k :: 0 <= k < |moons| ==> moons[k].pos == ps[k]
        invariant i.vel == Plus(vs[n], Row(ps, n, n2))
      {
        if n != n2 {
          i.Gravity(moons[n2]);
        }
        n2 := n2 + 1;
      }
    }

    /** stepVel: every moon moves by its velocity. */
    method StepVel()
      requires Distinct(moons)
      modifies moons
      ensures Velocities() == old(Velocities())
      ensures Positions() == AfterVel(old(Positions()), old(Velocities()))
    {
      ghost var ps, vs := Positions(), Velocities();
      var n := 0;
      while n < |moons|
        invariant 0 <= n <= |moons|
        invariant forall k :: 0 <= k < |moons| ==> moons[k].vel == vs[k]
        invariant forall k :: 0 <= k < n ==> moons[k].pos == Plus(ps[k], vs[k])
        invariant forall k :: n <= k < |moons| ==> moons[k].pos == ps[k]
      {
        moons[n].Velocity();
        n := n + 1;
      }
    }

    /** Step: gravity, then motion with the new velocities. */
    method Step()
      requires Distinct(moons)
      modifies moons
      ensures Velocities() == AfterGrav(old(Positions()), old(Velocities()))
      ensures Positions() == AfterVel(old(Positions()), Velocities())
    {
      StepGrav();
      StepVel();
    }

    /** The energy of the moons k < n. */
    function EnergyTo(n: nat): (e: int)
      requires n <= |moons|
      reads moons
      ensures e >= 0
    {
      if n == 0 then 0 else EnergyTo(n - 1) + moons[n - 1].Energy()
    }

    /** Energy: the sum of the moons' energies. */
    method Energy() returns (count: int)
      ensures count == EnergyTo(|moons|)
    {
      count := 0;
      var n := 0;
      while n < |moons|
        invariant 0 <= n <= |moons| && count == EnergyTo(n)
      {
        count := count + moons[n].Energy();
        n := n + 1;
      }
    }
  }

  /** The system's energy is zero exactly when every moon's energy is, that
      is when every moon is at the origin or at rest. */
  lemma {:induction false} EnergyZero(g: GravSystem, n: nat)
    requires n <= |g.moons|
    ensures g.EnergyTo(n) == 0 <==> forall k :: 0 <= k < n ==> g.moons[k].Energy() == 0
  {
    if n > 0 {
      EnergyZero(g, n - 1);
      var e, r := g.moons[n - 1].Energy(), g.EnergyTo(n - 1);
      assert g.EnergyTo(n) == r + e;
      if r + e == 0 {
        assert r == 0 && e == 0;
      }
    } else {
      assert g.EnergyTo(n) == 0;
    }
  }
}
