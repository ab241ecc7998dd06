/** Day 3: two wires are traced from the origin on a grid, one unit step at
    a time. Part one wants the crossing nearest the origin (Manhattan
    distance), part two the crossing with the fewest combined steps, where
    the first wire counts the steps of its latest visit to the point. */
module Wires {
  import opened Num

  datatype Point = Point(x: int, y: int)

  const Origin := Point(0, 0)

  /** Abs(a, b) of the Go program: the absolute difference. */
  function AbsDiff(a: int, b: int): (k: int)
    ensures k >= 0 && (k == a - b || k == b - a)
  {
    var k := a - b;
    if k < 0 then -k else k
  }

  /** Manhattan distance (Go Dist; the intended Rust Point::dist). */
  function Dist(t: Point, t2: Point): (d: int)
    ensures d >= 0
    ensures d == 0 <==> t == t2
  {
    AbsDiff(t.x, t2.x) + AbsDiff(t.y, t2.y)
  }

  lemma DistSymmetric(t: Point, t2: Point)
    ensures Dist(t, t2) == Dist(t2, t)
  {
  }

  /** One unit step of the Go switch: U and D move y by -1 and +1, R and L
      move x by +1 and -1, and any other letter leaves the point alone. */
  function Move(p: Point, c: char): (q: Point)
    ensures c in "UDRL" ==> Dist(p, q) == 1
    ensures c in "UD" ==> q.x == p.x
    ensures c in "RL" ==> q.y == p.y
    ensures c !in "UDRL" ==> q == p
  {
    match c
    case 'U' => Point(p.x, p.y - 1)
    case 'D' => Point(p.x, p.y + 1)
    case 'R' => Point(p.x + 1, p.y)
    case 'L' => Point(p.x - 1, p.y)
    case _ => p
  }

  // ---------------------------------------------------------------------
  // Reference definitions on the unit-step letters of a wire

  /** A parsed step of the Go program: its letter and its count, which may
      be negative (the counting loop then runs zero times). */
  datatype Segment = Segment(dir: char, len: int)

  function Steps(len: int): nat {
    if len > 0 then len else 0
  }

  function Repeat(c: char, k: nat): (u: seq<char>)
    ensures |u| == k && forall i :: 0 <= i < k ==> u[i] == c
  {
    seq(k, _ => c)
  }

  /** The letters of all unit steps of a wire, in order. */
  function Units(segs: seq<Segment>): (u: seq<char>)
    decreases |segs|
  {
    if segs == [] then []
    else Units(segs[..|segs| - 1]) + Repeat(segs[|segs| - 1].dir, Steps(segs[|segs| - 1].len))
  }

  /** Where the wire is after the unit steps u. */
  function Pos(u: seq<char>): Point
    decreases |u|
  {
    if u == [] then Origin else Move(Pos(u[..|u| - 1]), u[|u| - 1])
  }

  /** The map the first wire fills in: each point after step n is
      (over)written with n. */
  function Visits(u: seq<char>): map<Point, nat>
    decreases |u|
  {
    if u == [] then map[] else Visits(u[..|u| - 1])[Pos(u) := |u|]
  }

  /** One more unit step in a run of the letter c: the new position, the
      map insert and the running-minimum update. */
  lemma Walked(v: seq<char>, c: char, m: map<Point, nat>, d: int, part2: bool)
    ensures var v' := v + [c];
            && Pos(v') == Move(Pos(v), c)
            && Visits(v') == Visits(v)[Pos(v') := |v'|]
            && Best(m, v', d, part2) ==
                 if Pos(v') in m then Improve(Best(m, v, d, part2), Cost(m, Pos(v'), |v'|, part2))
                 else Best(m, v, d, part2)
  {
    assert (v + [c])[..|v|] == v;
  }

  /** The wire is at p after its k-th unit step. */
  predicate Visited(u: seq<char>, p: Point, k: nat) {
    1 <= k <= |u| && Pos(u[..k]) == p
  }

  /** The map holds exactly the visited points, each with the step count
      of its latest visit. */
  lemma {:induction false} VisitsLatest(u: seq<char>, p: Point)
    ensures p in Visits(u) <==> exists k :: Visited(u, p, k)
    ensures p in Visits(u) ==> Visited(u, p, Visits(u)[p])
    ensures p in Visits(u) ==> forall k :: Visited(u, p, k) ==> k <= Visits(u)[p]
    decreases |u|
  {
    if u != [] {
      var v := u[..|u| - 1];
      VisitsLatest(v, p);
      assert u[..|u|] == u;
      assert Visits(u) == Visits(v)[Pos(u) := |u|];
      if Pos(u) == p {
        assert Visited(u, p, |u|);
      } else {
        assert p in Visits(u) <==> p in Visits(v);
        if p in Visits(v) {
          assert Visits(u)[p] == Visits(v)[p];
          VisitedFront(u, p, Visits(v)[p]);
          forall k | Visited(u, p, k)
            ensures k <= Visits(u)[p]
          {
            VisitedFront(u, p, k);
          }
        }
        if exists k :: Visited(u, p, k) {
          var k :| Visited(u, p, k);
          VisitedFront(u, p, k);
        }
      }
    }
  }

  /** Before the last step, visiting in u is visiting in its front. */
  lemma VisitedFront(u: seq<char>, p: Point, k: nat)
    requires 1 <= k < |u|
    ensures Visited(u, p, k) <==> Visited(u[..|u| - 1], p, k)
  {
    assert u[..|u| - 1][..k] == u[..k];
  }

  /** The Go update of a running minimum kept as -1 while unset. */
  function Improve(d: int, k: int): (r: int)
    ensures r == d || r == k
    ensures k >= 0 ==> 0 <= r <= k
    ensures k >= 0 && d >= 0 ==> r <= d
  {
    if d < 0 || k < d then k else d
  }

  /** The wire meets the first wire (whose visits are m) after step k. */
  predicate CrossesAt(m: map<Point, nat>, u: seq<char>, k: nat) {
    1 <= k <= |u| && Pos(u[..k]) in m
  }

  /** What a crossing at p after k steps is worth: its distance to the
      origin (part one) or the two wires' step counts summed (part two). */
  function Cost(m: map<Point, nat>, p: Point, k: nat, part2: bool): (c: int)
    requires p in m
    ensures c >= 0
  {
    if part2 then m[p] + k else Dist(p, Origin)
  }

  function CostAt(m: map<Point, nat>, u: seq<char>, k: nat, part2: bool): int
    requires CrossesAt(m, u, k)
  {
    Cost(m, Pos(u[..k]), k, part2)
  }

  /** The running minimum d after walking the unit steps u. */
  function Best(m: map<Point, nat>, u: seq<char>, d: int, part2: bool): int
    decreases |u|
  {
    if u == [] then d
    else
      var r := Best(m, u[..|u| - 1], d, part2);
      if Pos(u) in m then Improve(r, Cost(m, Pos(u), |u|, part2)) else r
  }

  /** Best is the least cost over all crossings, or d when there is none
      (or d is smaller); it never increases a set minimum. */
  lemma {:induction false} BestIsMin(m: map<Point, nat>, u: seq<char>, d: int, part2: bool)
    ensures forall k :: CrossesAt(m, u, k) ==> 0 <= Best(m, u, d, part2) <= CostAt(m, u, k, part2)
    ensures d >= 0 ==> 0 <= Best(m, u, d, part2) <= d
    ensures Best(m, u, d, part2) == d ||
            exists k :: CrossesAt(m, u, k) && Best(m, u, d, part2) == CostAt(m, u, k, part2)
    decreases |u|
  {
    if u != [] {
      var v := u[..|u| - 1];
      BestIsMin(m, v, d, part2);
      assert u[..|u|] == u;
      var r := Best(m, u, d, part2);
      var r' := Best(m, v, d, part2);
      forall k | 1 <= k < |u|
        ensures CrossesAt(m, v, k) <==> CrossesAt(m, u, k)
        ensures CrossesAt(m, u, k) ==> CostAt(m, v, k, part2) == CostAt(m, u, k, part2)
      {
        assert v[..k] == u[..k];
      }
      if r != d && r != r' {
        assert CrossesAt(m, u, |u|) && r == CostAt(m, u, |u|, part2);
      } else if r != d {
        var k :| CrossesAt(m, v, k) && r' == CostAt(m, v, k, part2);
        assert CrossesAt(m, u, k) && r == CostAt(m, u, k, part2);
      }
    }
  }

  /** The running minima over the later lines, each walked from the origin. */
  function BestLines(m: map<Point, nat>, ls: seq<seq<Segment>>, d: int, part2: bool): int
    decreases |ls|
  {
    if ls == [] then d
    else Best(m, Units(ls[|ls| - 1]), BestLines(m, ls[..|ls| - 1], d, part2), part2)
  }

  predicate CrossesLine(m: map<Point, nat>, ls: seq<seq<Segment>>, j: int, k: nat) {
    0 <= j < |ls| && CrossesAt(m, Units(ls[j]), k)
  }

  lemma {:induction false} BestLinesIsMin(m: map<Point, nat>, ls: seq<seq<Segment>>, d: int, part2: bool)
    ensures forall j, k :: CrossesLine(m, ls, j, k) ==>
              0 <= BestLines(m, ls, d, part2) <= CostAt(m, Units(ls[j]), k, part2)
    ensures d >= 0 ==> 0 <= BestLines(m, ls, d, part2) <= d
    ensures BestLines(m, ls, d, part2) == d ||
            exists j, k :: CrossesLine(m, ls, j, k) && BestLines(m, ls, d, part2) == CostAt(m, Units(ls[j]), k, part2)
    decreases |ls|
  {
    if ls != [] {
      var front := ls[..|ls| - 1];
      var last := |ls| - 1;
      BestLinesIsMin(m, front, d, part2);
      var r' := BestLines(m, front, d, part2);
      BestIsMin(m, Units(ls[last]), r', part2);
      var r := BestLines(m, ls, d, part2);
      forall j, k | CrossesLine(m, ls, j, k)
        ensures 0 <= r <= CostAt(m, Units(ls[j]), k, part2)
      {
        if j < last {
          assert front[j] == ls[j];
          assert CrossesLine(m, front, j, k);
        }
      }
      if r != d && r == r' {
        var j, k :| CrossesLine(m, front, j, k) && r' == CostAt(m, Units(front[j]), k, part2);
        assert front[j] == ls[j];
        assert CrossesLine(m, ls, j, k);
      } else if r != d {
        var k :| CrossesAt(m, Units(ls[last]), k) && r == CostAt(m, Units(ls[last]), k, part2);
        assert CrossesLine(m, ls, last, k);
      }
    }
  }

  /** The walking state of main: position, step count, the first wire's
      map and the two running minima. */
  datatype Tracer = Tracer(p: Point, n: nat, wire1: map<Point, nat>, dist: int, dist2: int)

  /** One unit step of the inner loop: move, count the step, then record
      it (first line) or check it against the first wire (later lines). */
  function Advance(t: Tracer, c: char, first: bool): Tracer {
    var q := Move(t.p, c);
    var n := t.n + 1;
    if first then Tracer(q, n, t.wire1[q := n], t.dist, t.dist2)
    else if q in t.wire1 then
      Tracer(q, n, t.wire1, Improve(t.dist, Dist(q, Origin)), Improve(t.dist2, t.wire1[q] + n))
    else Tracer(q, n, t.wire1, t.dist, t.dist2)
  }

  /** k unit steps in the direction c. */
  function Run(t: Tracer, c: char, k: nat, first: bool): Tracer
    decreases k
  {
    if k == 0 then t else Advance(Run(t, c, k - 1, first), c, first)
  }

  /** A whole line of Go steps. */
  function Walk(t: Tracer, segs: seq<Segment>, first: bool): Tracer
    decreases |segs|
  {
    if segs == [] then t
    else
      var last := segs[|segs| - 1];
      Run(Walk(t, segs[..|segs| - 1], first), last.dir, Steps(last.len), first)
  }

  /** The state t is the one reached after the unit steps u: on the first
      line it has recorded their visits, on a later line it holds the
      running minima started at d and d2 against the first wire m. */
  predicate Tracks(t: Tracer, u: seq<char>, first: bool, m: map<Point, nat>, d: int, d2: int) {
    && t.p == Pos(u) && t.n == |u|
    && (first ==> t.wire1 == Visits(u) && t.dist == d && t.dist2 == d2)
    && (!first ==> t.wire1 == m && t.dist == Best(m, u, d, false) && t.dist2 == Best(m, u, d2, true))
  }

  lemma {:induction false} RunTracks(t: Tracer, u: seq<char>, c: char, k: nat, first: bool,
                                     m: map<Point, nat>, d: int, d2: int)
    requires Tracks(t, u, first, m, d, d2)
    ensures Tracks(Run(t, c, k, first), u + Repeat(c, k), first, m, d, d2)
    decreases k
  {
    if k == 0 {
      assert u + Repeat(c, 0) == u;
    } else {
      var v := u + Repeat(c, k - 1);
      RunTracks(t, u, c, k - 1, first, m, d, d2);
      AdvanceTracks(Run(t, c, k - 1, first), v, c, first, m, d, d2);
      assert u + Repeat(c, k) == v + [c];
      assert Run(t, c, k, first) == Advance(Run(t, c, k - 1, first), c, first);
    }
  }

  /** One Advance keeps Tracks for one more letter. */
  lemma AdvanceTracks(t: Tracer, v: seq<char>, c: char, first: bool, m: map<Point, nat>, d: int, d2: int)
    requires Tracks(t, v, first, m, d, d2)
    ensures Tracks(Advance(t, c, first), v + [c], first, m, d, d2)
  {
    var q := Move(t.p, c);
    assert q == Pos(v + [c]) by { Walked(v, c, m, d, false); }
    if first {
      assert Visits(v + [c]) == Visits(v)[q := |v| + 1] by { Walked(v, c, m, d, false); }
    } else {
      Walked(v, c, m, d, false);
      Walked(v, c, m, d2, true);
      if q in m {
        assert Cost(m, q, |v| + 1, false) == Dist(q, Origin);
        assert Cost(m, q, |v| + 1, true) == t.wire1[q] + (t.n + 1);
      }
    }
  }

  lemma {:induction false} WalkTracks(t: Tracer, segs: seq<Segment>, first: bool, m: map<Point, nat>, d: int, d2: int)
    requires Tracks(t, [], first, m, d, d2)
    ensures Tracks(Walk(t, segs, first), Units(segs), first, m, d, d2)
    decreases |segs|
  {
    if segs != [] {
      var front := segs[..|segs| - 1];
      var last := segs[|segs| - 1];
      WalkTracks(t, front, first, m, d, d2);
      RunTracks(Walk(t, front, first), Units(front), last.dir, Steps(last.len), first, m, d, d2);
    }
  }

  // ---------------------------------------------------------------------
  // Go

  /** One comma-separated step of the Go input: the letter step[0] and
      strconv.Atoi(step[1:]); an empty step or a bad number is fatal. */
  function ParseStep(tok: seq<char>): (r: Option<Segment>)
    ensures r.Some? ==> |tok| >= 1 && r.value.dir == tok[0] && Atoi(tok[1..]) == Some(r.value.len)
    ensures r.None? ==> tok == [] || Atoi(tok[1..]).None?
  {
    if |tok| == 0 then None
    else match Atoi(tok[1..])
      case None => None
      case Some(n) => Some(Segment(tok[0], n))
  }

  /** Writing a step as its letter and decimal count reads back the same. */
  lemma ParseStepFormat(s: Segment)
    ensures ParseStep([s.dir] + Itoa(s.len)) == Some(s)
  {
    var tok := [s.dir] + Itoa(s.len);
    assert tok[1..] == Itoa(s.len);
    AtoiItoa(s.len);
  }

  /** One of the two results of the Go main: -1 for no input; otherwise
      the first line fills wire1 and every later line is walked from the
      origin against it. */
  function GoPart(lines: seq<seq<Segment>>, part2: bool): int {
    if lines == [] then -1
    else BestLines(Visits(Units(lines[0])), lines[1..], -1, part2)
  }

  /** Some later line meets the first wire. */
  ghost predicate Crossed(m: map<Point, nat>, ls: seq<seq<Segment>>) {
    exists j, k :: CrossesLine(m, ls, j, k)
  }

  /** dist and dist2 stay -1 exactly when no later line crosses the first;
      otherwise each is the least cost over all crossings (BestLinesIsMin
      with d = -1). */
  lemma GoPartIsMin(lines: seq<seq<Segment>>, part2: bool)
    requires lines != []
    ensures GoPart(lines, part2) == -1 <==> !Crossed(Visits(Units(lines[0])), lines[1..])
    ensures Crossed(Visits(Units(lines[0])), lines[1..]) ==> GoPart(lines, part2) >= 0
  {
    var m := Visits(Units(lines[0]));
    BestLinesIsMin(m, lines[1..], -1, part2);
    if Crossed(m, lines[1..]) {
      var j, k :| CrossesLine(m, lines[1..], j, k);
    }
  }

  /** The body of the scanner loop of main for one line: walk it from the
      origin, filling wire1 on the first line and updating dist and dist2
      on every later one. */
  method TraceLine(line: seq<Segment>, first: bool, wire1: map<Point, nat>, dist: int, dist2: int)
    returns (w: map<Point, nat>, d: int, d2: int)
    requires first ==> wire1 == map[]
    ensures first ==> w == Visits(Units(line)) && d == dist && d2 == dist2
    ensures !first ==> w == wire1
    ensures !first ==> d == Best(wire1, Units(line), dist, false) && d2 == Best(wire1, Units(line), dist2, true)
  {
    ghost var t0 := Tracer(Origin, 0, wire1, dist, dist2);
    w, d, d2 := wire1, dist, dist2;
    var x, y := 0, 0;
    var n: nat := 0;
    for s := 0 to |line|
      invariant Tracer(Point(x, y), n, w, d, d2) == Walk(t0, line[..s], first)
    {
      w, d, d2, x, y, n := TraceStep(line[s], first, w, d, d2, x, y, n);
      assert line[..s + 1][..s] == line[..s];
    }
    assert line[..|line|] == line;
    WalkTracks(t0, line, first, wire1, dist, dist2);
  }

  /** The counting loop for one step of a line: num unit moves (none when
      num <= 0), each recorded in wire1 or checked against it. */
  method TraceStep(step: Segment, first: bool, w: map<Point, nat>, d: int, d2: int, x: int, y: int, n: nat)
    returns (w': map<Point, nat>, d': int, d2': int, x': int, y': int, n': nat)
    ensures Tracer(Point(x', y'), n', w', d', d2') ==
            Run(Tracer(Point(x, y), n, w, d, d2), step.dir, Steps(step.len), first)
  {
    w', d', d2', x', y', n' := w, d, d2, x, y, n;
    var i := 0;
    while i < step.len
      invariant 0 <= i <= Steps(step.len)
      invariant Tracer(Point(x', y'), n', w', d', d2') == Run(Tracer(Point(x, y), n, w, d, d2), step.dir, i, first)
    {
      w', d', d2', x', y', n' := TraceUnit(step.dir, first, w', d', d2', x', y', n');
      i := i + 1;
    }
  }

  /** The body of that loop: one unit move, counted, then recorded or
      checked. */
  method TraceUnit(dir: char, first: bool, w: map<Point, nat>, d: int, d2: int, x: int, y: int, n: nat)
    returns (w': map<Point, nat>, d': int, d2': int, x': int, y': int, n': nat)
    ensures Tracer(Point(x', y'), n', w', d', d2') == Advance(Tracer(Point(x, y), n, w, d, d2), dir, first)
  {
    w', d', d2', x', y' := w, d, d2, x, y;
    if dir == 'U' {
      y' := y' - 1;
    } else if dir == 'D' {
      y' := y' + 1;
    } else if dir == 'R' {
      x' := x' + 1;
    } else if dir == 'L' {
      x' := x' - 1;
    }
    assert Point(x', y') == Move(Point(x, y), dir);
    n' := n + 1;
    if first {
      w' := w'[Point(x', y') := n'];
    } else if Point(x', y') in w' {
      var w1 := w'[Point(x', y')];
      var k := Dist(Point(x', y'), Point(0, 0));
      if d' < 0 || k < d' {
        d' := k;
      }
      assert d' == Improve(d, k);
      if d2' < 0 || w1 + n' < d2' {
        d2' := w1 + n';
      }
      assert d2' == Improve(d2, w1 + n');
    }
  }

  /** The scanner loop of main (Go) over already-parsed lines. */
  method TraceGo(lines: seq<seq<Segment>>) returns (dist: int, dist2: int)
    ensures dist == GoPart(lines, false) && dist2 == GoPart(lines, true)
  {
    var wire1: map<Point, nat> := map[];
    dist, dist2 := -1, -1;
    var first := true;
    for li := 0 to |lines|
      invariant first <==> li == 0
      invariant li == 0 ==> wire1 == map[] && dist == -1 && dist2 == -1
      invariant li > 0 ==> wire1 == Visits(Units(lines[0]))
      invariant li > 0 ==> dist == BestLines(wire1, lines[1..li], -1, false)
      invariant li > 0 ==> dist2 == BestLines(wire1, lines[1..li], -1, true)
    {
      wire1, dist, dist2 := TraceLine(lines[li], first, wire1, dist, dist2);
      if first {
        first := false;
      }
      if li > 0 {
        assert lines[1..li + 1][..li - 1] == lines[1..li];
      }
    }
    if lines != [] {
      assert lines[1..|lines|] == lines[1..];
    }
  }

  // ---------------------------------------------------------------------
  // Rust

  datatype Dir = Up | Down | Right | Left

  /** A segment of the Rust program: a direction and a usize length. */
  datatype Seg = Seg(dir: Dir, len: nat)

  function Letter(d: Dir): (c: char)
    ensures c in "UDRL"
  {
    match d
    case Up => 'U'
    case Down => 'D'
    case Right => 'R'
    case Left => 'L'
  }

  /** The match on &i[0..1]; any other letter panics (None). */
  function ParseDir(c: char): (r: Option<Dir>)
    ensures r.Some? <==> c in "UDRL"
    ensures r.Some? ==> Letter(r.value) == c
  {
    match c
    case 'U' => Some(Up)
    case 'D' => Some(Down)
    case 'R' => Some(Right)
    case 'L' => Some(Left)
    case _ => None
  }

  /** The segment parse rule: a direction letter, then a usize (optional
      '+', then at least one digit; a '-' is rejected). */
  function ParseSeg(tok: seq<char>): Option<Seg>
  {
    if |tok| == 0 then None
    else match ParseDir(tok[0])
      case None => None
      case Some(d) =>
        var rest := tok[1..];
        if |rest| == 0 || rest[0] == '-' then None
        else match Atoi(rest)
          case None => None
          case Some(n) => Some(Seg(d, n))
  }

  /** A token parses exactly when it is a direction letter followed by
      a number without a '-' sign, and then into that letter and number. */
  lemma ParseSegSpec(tok: seq<char>)
    ensures ParseSeg(tok).Some? <==> |tok| >= 2 && tok[0] in "UDRL" && tok[1] != '-' && Atoi(tok[1..]).Some?
    ensures ParseSeg(tok).Some? ==> Letter(ParseSeg(tok).value.dir) == tok[0] && Atoi(tok[1..]) == Some(ParseSeg(tok).value.len)
  {
  }

  /** Writing a segment as its letter and decimal length reads back the same. */
  lemma ParseSegFormat(s: Seg)
    ensures ParseSeg([Letter(s.dir)] + Itoa(s.len)) == Some(s)
  {
    var tok := [Letter(s.dir)] + Itoa(s.len);
    assert tok[1..] == Itoa(s.len);
    AtoiItoa(s.len);
  }

  /** A whole line of tokens, or None at the first bad one. */
  function ParseLine(toks: seq<seq<char>>): (r: Option<seq<Seg>>)
    decreases |toks|
  {
    if toks == [] then Some([])
    else match ParseLine(toks[..|toks| - 1])
      case None => None
      case Some(front) =>
        match ParseSeg(toks[|toks| - 1])
        case None => None
        case Some(s) => Some(front + [s])
  }

  /** A line parses exactly when each of its tokens does, and then into
      those segments in order. */
  lemma {:induction false} ParseLineAll(toks: seq<seq<char>>)
    ensures ParseLine(toks).Some? <==> forall i :: 0 <= i < |toks| ==> ParseSeg(toks[i]).Some?
    ensures ParseLine(toks).Some? ==> |ParseLine(toks).value| == |toks|
    ensures ParseLine(toks).Some? ==> forall i :: 0 <= i < |toks| ==> ParseSeg(toks[i]) == Some(ParseLine(toks).value[i])
    decreases |toks|
  {
    if toks != [] {
      var front := toks[..|toks| - 1];
      ParseLineAll(front);
      forall i | 0 <= i < |front|
        ensures front[i] == toks[i]
      {
      }
    }
  }

  /** The tokens of one line, parsed in order; a bad token panics (None). */
  method ParseTokens(line: seq<seq<char>>) returns (segs: Option<seq<Seg>>)
    ensures segs == ParseLine(line)
  {
    var acc: seq<Seg> := [];
    for t := 0 to |line|
      invariant ParseLine(line[..t]) == Some(acc)
    {
      assert line[..t + 1][..t] == line[..t];
      var s := ParseSeg(line[t]);
      if s.None? {
        ParseLineAll(line);
        return None;
      }
      acc := acc + [s.value];
    }
    assert line[..|line|] == line;
    segs := Some(acc);
  }

  /** What the parse block of main produces from the lines seen so far:
      the first line's segments and the later lines' segments in order,
      or None once a token fails. */
  function Split(lines: seq<seq<seq<char>>>): Option<(seq<Seg>, seq<Seg>)>
    decreases |lines|
  {
    if lines == [] then Some(([], []))
    else match Split(lines[..|lines| - 1])
      case None => None
      case Some(w) =>
        match ParseLine(lines[|lines| - 1])
        case None => None
        case Some(segs) => if |lines| == 1 then Some((segs, [])) else Some((w.0, w.1 + segs))
  }

  /** Split fails exactly when some line does. */
  lemma {:induction false} SplitBad(lines: seq<seq<seq<char>>>)
    ensures Split(lines).None? <==> exists l :: 0 <= l < |lines| && ParseLine(lines[l]).None?
    decreases |lines|
  {
    if lines != [] {
      var front := lines[..|lines| - 1];
      SplitBad(front);
      if Split(front).None? {
        var l :| 0 <= l < |front| && ParseLine(front[l]).None?;
        assert lines[l] == front[l];
      } else if ParseLine(lines[|lines| - 1]).Some? {
        forall l | 0 <= l < |lines|
          ensures ParseLine(lines[l]).Some?
        {
          if l < |front| {
            assert lines[l] == front[l];
          }
        }
      }
    }
  }

  /** Split fails exactly when some line does; otherwise wire1 is the
      first line and wire2 the later lines concatenated. */
  lemma {:induction false} SplitMeaning(lines: seq<seq<seq<char>>>)
    ensures Split(lines).None? <==> exists l :: 0 <= l < |lines| && ParseLine(lines[l]).None?
    ensures Split(lines).Some? && lines != [] ==> Split(lines).value.0 == ParseLine(lines[0]).value
    ensures Split(lines).Some? ==> Split(lines).value.1 == Later(lines)
    decreases |lines|
  {
    SplitBad(lines);
    if |lines| > 1 {
      var front := lines[..|lines| - 1];
      SplitMeaning(front);
      assert front[0] == lines[0];
    }
  }

  /** The parse block of main: the first line fills wire1, every later
      line is appended to wire2; a bad token anywhere panics (None). */
  method ParseWires(lines: seq<seq<seq<char>>>) returns (r: Option<(seq<Seg>, seq<Seg>)>)
    ensures r == Split(lines)
  {
    var wire1: seq<Seg> := [];
    var wire2: seq<Seg> := [];
    var first := true;
    for l := 0 to |lines|
      invariant first <==> l == 0
      invariant Split(lines[..l]) == Some((wire1, wire2))
    {
      assert lines[..l + 1][..l] == lines[..l];
      var p := ParseTokens(lines[l]);
      if p.None? {
        SplitFails(lines, l + 1);
        return None;
      }
      if first {
        assert wire1 + p.value == p.value;
        wire1 := wire1 + p.value;
      } else {
        wire2 := wire2 + p.value;
      }
      if first {
        first := false;
      }
    }
    assert lines[..|lines|] == lines;
    r := Some((wire1, wire2));
  }

  /** Once a prefix fails, the whole input fails. */
  lemma {:induction false} SplitFails(lines: seq<seq<seq<char>>>, l: nat)
    requires l <= |lines| && Split(lines[..l]).None?
    ensures Split(lines).None?
    decreases |lines| - l
  {
    if l < |lines| {
      assert lines[..l + 1][..l] == lines[..l];
      SplitFails(lines, l + 1);
    } else {
      assert lines[..l] == lines;
    }
  }

  /** The segments of all lines after the first, concatenated. */
  function Later(lines: seq<seq<seq<char>>>): seq<Seg>
    decreases |lines|
  {
    if |lines| <= 1 then []
    else Later(lines[..|lines| - 1]) + Parsed(lines[|lines| - 1])
  }

  function Parsed(toks: seq<seq<char>>): seq<Seg> {
    match ParseLine(toks)
    case None => []
    case Some(segs) => segs
  }

  /** The unit-step letters of Rust segments (all in U, D, R, L). */
  function RustUnits(segs: seq<Seg>): (u: seq<char>)
    decreases |segs|
  {
    if segs == [] then []
    else RustUnits(segs[..|segs| - 1]) + Repeat(Letter(segs[|segs| - 1].dir), segs[|segs| - 1].len)
  }

  /** Point::dist as written: the x term subtracts other.y. */
  function RustDist(p: Point, other: Point): int {
    Abs(p.x - other.y) + Abs(p.y - other.y)
  }

  /** Against ZERO_POINT, the only way main calls it, the slip is harmless. */
  lemma RustDistAtOrigin(p: Point)
    ensures RustDist(p, Origin) == Dist(p, Origin)
  {
  }

  /** Away from the origin it is wrong and not even symmetric. */
  lemma RustDistAsWritten()
    ensures RustDist(Point(2, 0), Point(0, 1)) == 2
    ensures RustDist(Point(0, 1), Point(2, 0)) == 1
    ensures Dist(Point(2, 0), Point(0, 1)) == 3
  {
    assert Abs(2 - 1) == 1 && Abs(0 - 1) == 1 && Abs(0 - 0) == 0 && Abs(1 - 0) == 1;
  }

  /** The Rust Option form of a running minimum (None while unset). */
  function AsOption(d: int): Option<int> {
    if d < 0 then None else Some(d)
  }

  /** A Rust wire walked segment by segment. */
  function RustWalk(t: Tracer, segs: seq<Seg>, first: bool): Tracer
    decreases |segs|
  {
    if segs == [] then t
    else
      var last := segs[|segs| - 1];
      Run(RustWalk(t, segs[..|segs| - 1], first), Letter(last.dir), last.len, first)
  }

  lemma {:induction false} RustWalkTracks(t: Tracer, segs: seq<Seg>, first: bool, m: map<Point, nat>, d: int, d2: int)
    requires Tracks(t, [], first, m, d, d2)
    ensures Tracks(RustWalk(t, segs, first), RustUnits(segs), first, m, d, d2)
    decreases |segs|
  {
    if segs != [] {
      var front := segs[..|segs| - 1];
      var last := segs[|segs| - 1];
      RustWalkTracks(t, front, first, m, d, d2);
      RunTracks(RustWalk(t, front, first), RustUnits(front), Letter(last.dir), last.len, first, m, d, d2);
    }
  }

  /** The first fold of main: m1 maps each point of wire1 to the step
      count of its latest visit (insert overwrites). */
  method RustVisits(wire1: seq<Seg>) returns (m1: map<Point, nat>)
    ensures m1 == Visits(RustUnits(wire1))
  {
    ghost var t0 := Tracer(Origin, 0, map[], -1, -1);
    m1 := map[];
    var x, y := 0, 0;
    var n: nat := 0;
    for s := 0 to |wire1|
      invariant Tracer(Point(x, y), n, m1, -1, -1) == RustWalk(t0, wire1[..s], true)
    {
      m1, x, y, n := VisitSegment(m1, x, y, n, wire1[s]);
      assert wire1[..s + 1][..s] == wire1[..s];
    }
    assert wire1[..|wire1|] == wire1;
    RustWalkTracks(t0, wire1, true, map[], -1, -1);
  }

  /** The closure of the first fold: one segment, one insert per unit step. */
  method VisitSegment(m: map<Point, nat>, x: int, y: int, n: nat, seg: Seg)
    returns (m': map<Point, nat>, x': int, y': int, n': nat)
    ensures Tracer(Point(x', y'), n', m', -1, -1) == Run(Tracer(Point(x, y), n, m, -1, -1), Letter(seg.dir), seg.len, true)
  {
    m', x', y', n' := m, x, y, n;
    for i := 0 to seg.len
      invariant Tracer(Point(x', y'), n', m', -1, -1) == Run(Tracer(Point(x, y), n, m, -1, -1), Letter(seg.dir), i, true)
    {
      match seg.dir {
        case Up => y' := y' - 1;
        case Down => y' := y' + 1;
        case Right => x' := x' + 1;
        case Left => x' := x' - 1;
      }
      n' := n' + 1;
      m' := m'[Point(x', y') := n'];
    }
  }

  /** The second fold of main: wire2 is walked once, continuously, and
      dist1/dist2 become Some at the first crossing and then only shrink. */
  method RustCrossings(m1: map<Point, nat>, wire2: seq<Seg>) returns (dist1: Option<int>, dist2: Option<int>)
    ensures dist1 == AsOption(Best(m1, RustUnits(wire2), -1, false))
    ensures dist2 == AsOption(Best(m1, RustUnits(wire2), -1, true))
  {
    ghost var t0 := Tracer(Origin, 0, m1, -1, -1);
    dist1, dist2 := None, None;
    var x, y := 0, 0;
    var n: nat := 0;
    for s := 0 to |wire2|
      invariant var t := RustWalk(t0, wire2[..s], false);
                Point(x, y) == t.p && n == t.n && t.wire1 == m1 && dist1 == AsOption(t.dist) && dist2 == AsOption(t.dist2)
    {
      ghost var t := RustWalk(t0, wire2[..s], false);
      dist1, dist2, x, y, n := CrossSegment(m1, dist1, dist2, x, y, n, wire2[s], t.dist, t.dist2);
      assert wire2[..s + 1][..s] == wire2[..s];
    }
    assert wire2[..|wire2|] == wire2;
    RustWalkTracks(t0, wire2, false, m1, -1, -1);
  }

  /** The closure of the second fold: one segment of wire2. */
  method CrossSegment(m1: map<Point, nat>, dist1: Option<int>, dist2: Option<int>, x: int, y: int, n: nat,
                      seg: Seg, ghost d: int, ghost d2: int)
    returns (dist1': Option<int>, dist2': Option<int>, x': int, y': int, n': nat)
    requires dist1 == AsOption(d) && dist2 == AsOption(d2)
    ensures var t := Run(Tracer(Point(x, y), n, m1, d, d2), Letter(seg.dir), seg.len, false);
            Point(x', y') == t.p && n' == t.n && t.wire1 == m1 && dist1' == AsOption(t.dist) && dist2' == AsOption(t.dist2)
  {
    dist1', dist2', x', y', n' := dist1, dist2, x, y, n;
    for i := 0 to seg.len
      invariant var t := Run(Tracer(Point(x, y), n, m1, d, d2), Letter(seg.dir), i, false);
                Point(x', y') == t.p && n' == t.n && t.wire1 == m1 && dist1' == AsOption(t.dist) && dist2' == AsOption(t.dist2)
    {
      ghost var t := Run(Tracer(Point(x, y), n, m1, d, d2), Letter(seg.dir), i, false);
      dist1', dist2', x', y', n' := CrossUnit(m1, dist1', dist2', x', y', n', seg.dir, t.dist, t.dist2);
    }
  }

  /** One unit step of the second fold: move, count, and shrink the
      minima when the point is on wire1. */
  method CrossUnit(m1: map<Point, nat>, dist1: Option<int>, dist2: Option<int>, x: int, y: int, n: nat,
                   dir: Dir, ghost d: int, ghost d2: int)
    returns (dist1': Option<int>, dist2': Option<int>, x': int, y': int, n': nat)
    requires dist1 == AsOption(d) && dist2 == AsOption(d2)
    ensures var t := Advance(Tracer(Point(x, y), n, m1, d, d2), Letter(dir), false);
            Point(x', y') == t.p && n' == t.n && dist1' == AsOption(t.dist) && dist2' == AsOption(t.dist2)
  {
    dist1', dist2', x', y', n' := dist1, dist2, x, y, n;
    match dir {
      case Up => y' := y' - 1;
      case Down => y' := y' + 1;
      case Right => x' := x' + 1;
      case Left => x' := x' - 1;
    }
    assert Point(x', y') == Move(Point(x, y), Letter(dir));
    n' := n' + 1;
    var curr := Point(x', y');
    if curr in m1 {
      var w1 := m1[curr];
      RustDistAtOrigin(curr);
      if dist1'.Some? {
        var k := RustDist(curr, Point(0, 0));
        if k < dist1'.value {
          dist1' := Some(k);
        }
      } else {
        dist1' := Some(RustDist(curr, Point(0, 0)));
      }
      assert dist1' == AsOption(Improve(d, Dist(curr, Origin)));
      if dist2'.Some? {
        var k := w1 + n';
        if k < dist2'.value {
          dist2' := Some(k);
        }
      } else {
        dist2' := Some(w1 + n');
      }
      assert dist2' == AsOption(Improve(d2, w1 + n'));
    }
  }
}
