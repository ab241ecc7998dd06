/** Day 20: the donut maze. Two-letter labels outside and inside the ring
    mark teleporters; NewMaze pairs the two ends of each label, and two
    breadth-first searches walk from AA to ZZ: the first on one flat level,
    the second through recursive levels, where an inner teleporter leads
    one level down and an outer one back up. */
module PortalMaze {
  import opened Num
  import opened Frontier

  /** A cell (x, y) of the grid on level z. */
  datatype Point = Point(x: int, y: int, z: int)

  // ---------------------------------------------------------------------
  // Character classes

  predicate IsPath(c: char) {
    c == '.'
  }

  predicate IsWall(c: char) {
    c == '#'
  }

  predicate IsMaze(c: char) {
    IsPath(c) || IsWall(c)
  }

  predicate IsTeleMark(c: char) {
    'A' <= c <= 'Z'
  }

  /** A maze cell is a path or a wall, never both, and never a label
      letter. */
  lemma ClassesDisjoint(c: char)
    ensures IsMaze(c) <==> c == '.' || c == '#'
    ensures !(IsPath(c) && IsWall(c))
    ensures IsTeleMark(c) ==> !IsMaze(c)
  {
  }

  predicate Rectangular(grid: seq<seq<char>>) {
    |grid| > 0 && forall y :: 0 <= y < |grid| ==> |grid[y]| == |grid[0]|
  }

  // ---------------------------------------------------------------------
  // The ring thickness

  /** What the search down the middle column finds: -1 when every cell
      from row 2 to the middle row belongs to the maze, otherwise the
      first row i >= 2 that does not, less 2. */
  ghost predicate RingHeightIs(grid: seq<seq<char>>, ring: int)
    requires Rectangular(grid) && |grid[0]| > 0
  {
    var mid := |grid[0]| / 2;
    (ring == -1 && forall i :: 2 <= i < |grid| / 2 ==> IsMaze(grid[i][mid])) ||
    (0 <= ring && ring + 2 < |grid| / 2 && !IsMaze(grid[ring + 2][mid]) &&
     forall i :: 2 <= i < ring + 2 ==> IsMaze(grid[i][mid]))
  }

  /** The same along the middle row, for the width. */
  ghost predicate RingWidthIs(grid: seq<seq<char>>, ring: int)
    requires Rectangular(grid) && |grid[0]| > 0
  {
    var mid := |grid| / 2;
    (ring == -1 && forall i :: 2 <= i < |grid[0]| / 2 ==> IsMaze(grid[mid][i])) ||
    (0 <= ring && ring + 2 < |grid[0]| / 2 && !IsMaze(grid[mid][ring + 2]) &&
     forall i :: 2 <= i < ring + 2 ==> IsMaze(grid[mid][i]))
  }

  /** Each description fixes the ring thickness. */
  lemma RingUnique(grid: seq<seq<char>>, r1: int, r2: int)
    requires Rectangular(grid) && |grid[0]| > 0
    ensures RingHeightIs(grid, r1) && RingHeightIs(grid, r2) ==> r1 == r2
    ensures RingWidthIs(grid, r1) && RingWidthIs(grid, r2) ==> r1 == r2
  {
  }

  /** The first loop of NewMaze. */
  method RingHeight(grid: seq<seq<char>>) returns (ring: int)
    requires Rectangular(grid) && |grid[0]| > 0
    ensures RingHeightIs(grid, ring)
  {
    var midHeight, midWidth := |grid| / 2, |grid[0]| / 2;
    ring := -1;
    var i := 2;
    while i < midHeight
      invariant 2 <= i && (i <= midHeight || i == 2)
      invariant forall j :: 2 <= j < i ==> IsMaze(grid[j][midWidth])
    {
      if !IsMaze(grid[i][midWidth]) {
        ring := i - 2;
        return;
      }
      i := i + 1;
    }
  }

  /** The second loop of NewMaze. */
  method RingWidth(grid: seq<seq<char>>) returns (ring: int)
    requires Rectangular(grid) && |grid[0]| > 0
    ensures RingWidthIs(grid, ring)
  {
    var midHeight, midWidth := |grid| / 2, |grid[0]| / 2;
    ring := -1;
    var i := 2;
    while i < midWidth
      invariant 2 <= i && (i <= midWidth || i == 2)
      invariant forall j :: 2 <= j < i ==> IsMaze(grid[midHeight][j])
    {
      if !IsMaze(grid[midHeight][i]) {
        ring := i - 2;
        return;
      }
      i := i + 1;
    }
  }

  // ---------------------------------------------------------------------
  // Pairing the teleporter ends

  /** Every teleporter leads to a point whose teleporter leads back. */
  predicate Symmetric(tele: map<Point, Point>) {
    forall p :: p in tele ==> tele[p] in tele && tele[tele[p]] == p
  }

  /** No label waits at a point that is already paired, and no two labels
      wait at the same point. */
  predicate Waiting(tele: map<Point, Point>, teleEnd: map<string, Point>) {
    (forall m :: m in teleEnd ==> teleEnd[m] !in tele) &&
    (forall m1, m2 :: m1 in teleEnd && m2 in teleEnd && m1 != m2 ==> teleEnd[m1] != teleEnd[m2])
  }

  /** All teleporter points and waiting ends are on level 0. */
  predicate Level0(tele: map<Point, Point>, teleEnd: map<string, Point>) {
    (forall p :: p in tele ==> p.z == 0 && tele[p].z == 0) &&
    (forall m :: m in teleEnd ==> teleEnd[m].z == 0)
  }

  /** The two tables after one label end at p: the second end of a label
      is joined to the first, both ways, and the label stops waiting; a
      first end waits. */
  function Pair(tele: map<Point, Point>, teleEnd: map<string, Point>, p: Point, mark: string): (map<Point, Point>, map<string, Point>) {
    if mark in teleEnd then
      var v := teleEnd[mark];
      (tele[p := v][v := p], teleEnd - {mark})
    else
      (tele, teleEnd[mark := p])
  }

  /** An end at a point seen for the first time keeps the teleporters
      symmetric and the waiting ends apart. */
  lemma PairKeeps(tele: map<Point, Point>, teleEnd: map<string, Point>, p: Point, mark: string)
    requires Symmetric(tele) && Waiting(tele, teleEnd)
    requires p !in tele && forall m :: m in teleEnd ==> teleEnd[m] != p
    ensures Symmetric(Pair(tele, teleEnd, p, mark).0) && Waiting(Pair(tele, teleEnd, p, mark).0, Pair(tele, teleEnd, p, mark).1)
  {
    if mark in teleEnd {
      var v := teleEnd[mark];
      var t := tele[p := v][v := p];
      forall q | q in t
        ensures t[q] in t && t[t[q]] == q
      {
        if q != p && q != v {
          assert tele[q] != p && tele[q] != v;
        }
      }
    }
  }

  /** Ends on level 0 keep every table entry on level 0. */
  lemma PairLevel0(tele: map<Point, Point>, teleEnd: map<string, Point>, p: Point, mark: string)
    requires Level0(tele, teleEnd) && p.z == 0
    ensures Level0(Pair(tele, teleEnd, p, mark).0, Pair(tele, teleEnd, p, mark).1)
  {
  }

  /** The tables NewMaze fills while it reads the labels. */
  class Portals {
    var tele: map<Point, Point>
    var teleEnd: map<string, Point>

    constructor ()
      ensures tele == map[] && teleEnd == map[]
    {
      tele, teleEnd := map[], map[];
    }

    /** One label end at p, with the two letters of its label. */
    method Mark(p: Point, mark: string)
      modifies this
      ensures (tele, teleEnd) == Pair(old(tele), old(teleEnd), p, mark)
    {
      if mark in teleEnd {
        var v := teleEnd[mark];
        tele := tele[p := v];
        tele := tele[v := p];
        teleEnd := teleEnd - {mark};
      } else {
        teleEnd := teleEnd[mark := p];
      }
    }

    /** One of the eight label checks: the letter at (x, y) starts a label
        read on to (x2, y2), whose end is at p. */
    method Scan(grid: seq<seq<char>>, y: int, x: int, y2: int, x2: int, p: Point)
      requires 0 <= y < |grid| && 0 <= x < |grid[y]| && 0 <= y2 < |grid| && 0 <= x2 < |grid[y2]| && p.z == 0
      requires Level0(tele, teleEnd)
      modifies this
      ensures IsTeleMark(grid[y][x]) ==> (tele, teleEnd) == Pair(old(tele), old(teleEnd), p, [grid[y][x], grid[y2][x2]])
      ensures !IsTeleMark(grid[y][x]) ==> tele == old(tele) && teleEnd == old(teleEnd)
      ensures Level0(tele, teleEnd)
    {
      if IsTeleMark(grid[y][x]) {
        PairLevel0(tele, teleEnd, p, [grid[y][x], grid[y2][x2]]);
        Mark(p, [grid[y][x], grid[y2][x2]]);
      }
    }
  }

  // ---------------------------------------------------------------------
  // The maze

  class Maze {
    const grid: seq<seq<char>>
    const w: int
    const h: int
    const tele: map<Point, Point>
    const start: Point
    const end: Point

    constructor (grid: seq<seq<char>>, w: int, h: int, tele: map<Point, Point>, start: Point, end: Point)
      ensures this.grid == grid && this.w == w && this.h == h && this.tele == tele
      ensures this.start == start && this.end == end
    {
      this.grid, this.w, this.h, this.tele := grid, w, h, tele;
      this.start, this.end := start, end;
    }

    predicate Shaped() {
      h == |grid| && Rectangular(grid) && w == |grid[0]|
    }

    predicate InBounds(p: Point) {
      0 <= p.x < w && 0 <= p.y < h
    }

    /** All four cells next to p are on the grid. */
    predicate Interior(p: Point) {
      0 < p.x < w - 1 && 0 < p.y < h - 1
    }

    function Cell(p: Point): char
      requires Shaped() && InBounds(p)
    {
      grid[p.y][p.x]
    }

    /** isPath on a point: the cell at (x, y) is open. */
    predicate OnPath(p: Point)
      requires Shaped() && InBounds(p)
    {
      IsPath(Cell(p))
    }

    predicate PathCell(p: Point)
      requires Shaped()
    {
      InBounds(p) && OnPath(p)
    }

    /** The input the searches walk: every open cell and every teleporter
        end lies inside the grid's outermost rows and columns, the
        teleporters are keyed on level 0, and the walk starts inside. */
    ghost predicate Valid() {
      Shaped() &&
      (forall p {:trigger PathCell(p)} :: PathCell(p) ==> Interior(p)) &&
      (forall p :: p in tele ==> p.z == 0 && Interior(tele[p])) &&
      Interior(start) && start.z == 0
    }

    /** isOuter: the teleporter sits on the outer edge of the donut. */
    predicate IsOuter(pos: Point) {
      pos.x == 2 || pos.y == 2 || pos.x == w - 3 || pos.y == h - 3
    }

    // -------------------------------------------------------------------
    // Steps

    /** Walking to an orthogonally adjacent open cell; on one level
        (levels) or always on level 0 (the flat maze). */
    predicate Move(p: Point, q: Point, levels: bool)
      requires Shaped()
    {
      Abs(p.x - q.x) + Abs(p.y - q.y) == 1 && q.z == (if levels then p.z else 0) && PathCell(q)
    }

    /** Taking the teleporter at (p.x, p.y): in the flat maze to its
        partner on level 0; through levels, an outer one leads one level
        up and only from below level 0, an inner one one level down. */
    predicate Warp(p: Point, q: Point, levels: bool) {
      var f := Point(p.x, p.y, 0);
      f in tele && q.x == tele[f].x && q.y == tele[f].y &&
      if !levels then q.z == 0
      else if IsOuter(p) then p.z > 0 && q.z == p.z - 1
      else q.z == p.z + 1
    }

    predicate Step(p: Point, q: Point, levels: bool)
      requires Shaped()
    {
      Move(p, q, levels) || Warp(p, q, levels)
    }

    lemma MoveCases(p: Point, q: Point, levels: bool)
      requires Shaped() && Move(p, q, levels)
      ensures (q.x == p.x && (q.y == p.y - 1 || q.y == p.y + 1)) || (q.y == p.y && (q.x == p.x - 1 || q.x == p.x + 1))
    {
    }

    /** The open cells up, down, left and right of pos, in that order, on
        level z: exactly the moves. */
    method Adjacent(pos: Point, z: int, ghost levels: bool) returns (points: seq<Point>)
      requires Shaped() && Interior(pos) && z == (if levels then pos.z else 0)
      ensures |points| <= 4
      ensures forall q :: q in points <==> Move(pos, q, levels)
    {
      points := [];
      var up := Point(pos.x, pos.y - 1, z);
      if OnPath(up) {
        points := points + [up];
      }
      var down := Point(pos.x, pos.y + 1, z);
      if OnPath(down) {
        points := points + [down];
      }
      var left := Point(pos.x - 1, pos.y, z);
      if OnPath(left) {
        points := points + [left];
      }
      var right := Point(pos.x + 1, pos.y, z);
      if OnPath(right) {
        points := points + [right];
      }
      forall q | Move(pos, q, levels)
        ensures q in points
      {
        MoveCases(pos, q, levels);
      }
    }

    /** neighbors: the open cells up, down, left and right, then the
        teleporter partner, all on level 0; exactly the flat steps. */
    method Neighbors(pos: Point) returns (points: seq<Point>)
      requires Shaped() && Interior(pos)
      ensures |points| <= 5
      ensures forall q :: q in points <==> Step(pos, q, false)
    {
      points := Adjacent(pos, 0, false);
      var f := Point(pos.x, pos.y, 0);
      if f in tele {
        var v := tele[f];
        points := points + [Point(v.x, v.y, 0)];
      }
    }

    /** neighbors2: the open cells around pos on its own level, then the
        teleporter partner one level down (inner) or up (outer, only
        below level 0); exactly the steps through levels. */
    method Neighbors2(pos: Point) returns (points: seq<Point>)
      requires Shaped() && Interior(pos)
      ensures |points| <= 5
      ensures forall q :: q in points <==> Step(pos, q, true)
    {
      points := Adjacent(pos, pos.z, true);
      var f := Point(pos.x, pos.y, 0);
      if f in tele {
        var v := tele[f];
        if IsOuter(pos) {
          if pos.z > 0 {
            points := points + [Point(v.x, v.y, pos.z - 1)];
          }
        } else {
          points := points + [Point(v.x, v.y, pos.z + 1)];
        }
      }
    }

    // -------------------------------------------------------------------
    // Walks

    /** Where a search may stand: inside the grid, never above level 0,
        and on level 0 in the flat maze. */
    predicate InRange(p: Point, levels: bool) {
      Interior(p) && p.z >= 0 && (!levels ==> p.z == 0)
    }

    /** A step from where a search may stand ends where it may stand. */
    lemma StepInRange(p: Point, q: Point, levels: bool)
      requires Valid() && InRange(p, levels) && Step(p, q, levels)
      ensures InRange(q, levels)
    {
      if Move(p, q, levels) {
        assert PathCell(q);
      } else {
        assert Point(p.x, p.y, 0) in tele;
      }
    }

    /** A walk from start, one step at a time. */
    ghost predicate Walk(ps: seq<Point>, levels: bool)
      requires Shaped()
      decreases |ps|
    {
      |ps| >= 1 && ps[0] == start &&
      (|ps| == 1 || (Walk(ps[..|ps| - 1], levels) && Step(ps[|ps| - 2], ps[|ps| - 1], levels)))
    }

    /** Every point of a walk is where a search may stand: the recursive
        maze has no level above the outermost one. */
    lemma {:induction false} WalkInRange(ps: seq<Point>, levels: bool)
      requires Valid() && Walk(ps, levels)
      ensures forall i :: 0 <= i < |ps| ==> InRange(ps[i], levels)
      decreases |ps|
    {
      if |ps| > 1 {
        var front := ps[..|ps| - 1];
        WalkInRange(front, levels);
        assert forall i :: 0 <= i < |front| ==> ps[i] == front[i];
        StepInRange(ps[|ps| - 2], ps[|ps| - 1], levels);
      }
    }

    /** Forgetting the levels of a walk through levels gives a walk of the
        flat maze: the recursive maze only ever takes steps the flat one
        has. */
    lemma {:induction false} FlattenWalk(ps: seq<Point>)
      requires Shaped() && Walk(ps, true) && start.z == 0
      ensures Walk(Flat(ps), false)
      decreases |ps|
    {
      if |ps| > 1 {
        var front := ps[..|ps| - 1];
        FlattenWalk(front);
        var fs := Flat(ps);
        assert fs[..|fs| - 1] == Flat(front);
        var p, q := ps[|ps| - 2], ps[|ps| - 1];
        assert fs[|fs| - 2] == Point(p.x, p.y, 0) && fs[|fs| - 1] == Point(q.x, q.y, 0);
        if Move(p, q, true) {
          assert Move(fs[|fs| - 2], fs[|fs| - 1], false);
        } else {
          assert Warp(fs[|fs| - 2], fs[|fs| - 1], false);
        }
      }
    }

    /** p is reached from start by a walk of g steps. */
    ghost predicate Reached(p: Point, g: int, levels: bool)
      requires Shaped()
    {
      exists ps :: Walk(ps, levels) && |ps| == g + 1 && ps[g] == p
    }

    lemma WalkExtend(ps: seq<Point>, q: Point, levels: bool)
      requires Shaped() && Walk(ps, levels) && Step(ps[|ps| - 1], q, levels)
      ensures Walk(ps + [q], levels)
    {
      assert (ps + [q])[..|ps|] == ps;
    }

    // -------------------------------------------------------------------
    // The searches

    /** Every queued item stands in range and is reached in its g steps. */
    ghost predicate Queued(items: seq<Item<Point>>, levels: bool)
      requires Shaped()
    {
      forall it :: it in items ==> InRange(it.value, levels) && it.g >= 0 && Reached(it.value, it.g, levels)
    }

    /** Every step from c ends in seen. */
    ghost predicate Expanded(c: Point, seen: set<Point>, levels: bool)
      requires Shaped()
    {
      forall q :: Step(c, q, levels) ==> q in seen
    }

    lemma ExpandedGrows(c: Point, seen: set<Point>, more: set<Point>, levels: bool)
      requires Shaped() && Expanded(c, seen, levels) && seen <= more
      ensures Expanded(c, more, levels)
    {
    }

    /** Every item added is a step from cur, one step further than cur. */
    ghost predicate OneStep(cur: Point, g: int, added: seq<Item<Point>>, levels: bool)
      requires Shaped()
    {
      forall it :: it in added ==> Step(cur, it.value, levels) && it == Item(it.value, g + 1, g + 1)
    }

    lemma QueueStep(items: seq<Item<Point>>, ps: seq<Point>, cur: Point, g: int, q: Point, levels: bool)
      requires Valid() && InRange(cur, levels)
      requires Walk(ps, levels) && |ps| == g + 1 && ps[g] == cur && g >= 0
      requires Queued(items, levels) && Step(cur, q, levels)
      ensures Queued(items + [Item(q, g + 1, g + 1)], levels)
    {
      StepInRange(cur, q, levels);
      WalkExtend(ps, q, levels);
      assert (ps + [q])[|ps|] == q;
    }

    /** Queueing steps from a reached cell keeps the queue reached. */
    lemma {:induction false} QueueSteps(items: seq<Item<Point>>, added: seq<Item<Point>>, cur: Point, g: int, levels: bool)
      requires Valid() && InRange(cur, levels) && g >= 0 && Reached(cur, g, levels)
      requires Queued(items, levels) && OneStep(cur, g, added, levels)
      ensures Queued(items + added, levels)
      decreases |added|
    {
      var ps :| Walk(ps, levels) && |ps| == g + 1 && ps[g] == cur;
      QueueAlong(items, added, ps, cur, g, levels);
    }

    /** QueueSteps with the walk to cur fixed. */
    lemma {:induction false} QueueAlong(items: seq<Item<Point>>, added: seq<Item<Point>>, ps: seq<Point>, cur: Point, g: int, levels: bool)
      requires Valid() && InRange(cur, levels) && g >= 0
      requires Walk(ps, levels) && |ps| == g + 1 && ps[g] == cur
      requires Queued(items, levels) && OneStep(cur, g, added, levels)
      ensures Queued(items + added, levels)
      decreases |added|
    {
      if added != [] {
        var front, last := added[..|added| - 1], added[|added| - 1];
        assert OneStep(cur, g, front, levels) by {
          forall it | it in front
            ensures it in added
          {
          }
        }
        QueueAlong(items, front, ps, cur, g, levels);
        assert last in added;
        QueueStep(items + front, ps, cur, g, last.value, levels);
        assert items + added == (items + front) + [last];
      }
    }

    /** The state of a search, given the queued items and their values:
        the queue holds reached cells, the end has not been closed, and
        every closed cell has all its steps seen. */
    ghost predicate Searching(items: seq<Item<Point>>, queued: set<Point>, closed: set<Point>, levels: bool)
      requires Shaped()
    {
      closed !! queued && Queued(items, levels) &&
      (forall p :: p in closed ==> InRange(p, levels)) &&
      start in closed + queued && end !in closed &&
      (forall c :: c in closed ==> Expanded(c, closed + queued, levels))
    }

    /** The item popped from a queue of reached cells is a reached,
        queued cell in range that is not closed, and the items left are
        still reached. */
    lemma PopFacts(items: seq<Item<Point>>, queued: set<Point>, i: int, closed: set<Point>, levels: bool)
      requires Shaped() && 0 <= i < |items| && Queued(items, levels)
      requires queued == Values(items) && closed !! queued
      ensures InRange(items[i].value, levels) && items[i].g >= 0 && Reached(items[i].value, items[i].g, levels)
      ensures items[i].value in queued && items[i].value !in closed
      ensures Queued(items[..i] + items[i + 1..], levels)
    {
      assert items[i] in items;
      InValues(items, items[i].value);
      assert forall it :: it in items[..i] + items[i + 1..] ==> it in items;
    }

    /** Closing cur once its steps are seen restores the state of the
        search. */
    lemma CloseStep(items0: seq<Item<Point>>, queued: set<Point>, closed: set<Point>,
                    cur: Point, items: seq<Item<Point>>, valSet: set<Point>, levels: bool)
      requires Shaped() && Searching(items0, queued, closed, levels)
      requires InRange(cur, levels) && cur in queued && cur != end
      requires queued - {cur} <= valSet && closed + {cur} !! valSet && Queued(items, levels)
      requires Expanded(cur, closed + {cur} + valSet, levels)
      ensures Searching(items, valSet, closed + {cur}, levels)
    {
      var closed' := closed + {cur};
      assert closed + queued <= closed' + valSet;
      forall c | c in closed'
        ensures Expanded(c, closed' + valSet, levels)
      {
        if c != cur {
          ExpandedGrows(c, closed + queued, closed' + valSet, levels);
        }
      }
    }

    /** No walk from start reaches p in fewer than g steps. */
    ghost predicate Shortest(p: Point, g: int, levels: bool)
      requires Shaped()
    {
      forall ps :: Walk(ps, levels) && ps[|ps| - 1] == p ==> g <= |ps| - 1
    }

    /** The breadth-first layering: every closed cell was closed at its
        distance, no later than level; the queued items lie on level or the
        next one, ordered by g; a step from a closed cell to one not closed
        is queued at most one further than that cell; and start, until it
        is closed, is queued at 0. */
    ghost predicate Layered(items: seq<Item<Point>>, closed: set<Point>, dist: map<Point, int>, level: int, levels: bool)
      requires Shaped()
    {
      level >= 0 && Settled(closed, dist, level, levels) && OnLevels(items, level) &&
      FrontOk(items, closed, dist, levels) && (start !in closed ==> Near(items, start, 0))
    }

    /** Every closed cell was closed at its distance, no later than
        level. */
    ghost predicate Settled(closed: set<Point>, dist: map<Point, int>, level: int, levels: bool)
      requires Shaped()
    {
      forall c :: c in closed ==> c in dist && 0 <= dist[c] <= level && Shortest(c, dist[c], levels)
    }

    /** Every step from a closed cell to one not closed is queued at most
        one further than that cell. */
    ghost predicate FrontOk(items: seq<Item<Point>>, closed: set<Point>, dist: map<Point, int>, levels: bool)
      requires Shaped()
    {
      forall c, q :: c in closed && c in dist && q !in closed && Step(c, q, levels) ==> Near(items, q, dist[c] + 1)
    }

    lemma {:induction false} WalkPrefix(ps: seq<Point>, n: int, levels: bool)
      requires Shaped() && Walk(ps, levels) && 1 <= n <= |ps|
      ensures Walk(ps[..n], levels)
      decreases |ps|
    {
      if n < |ps| {
        var front := ps[..|ps| - 1];
        WalkPrefix(front, n, levels);
        assert front[..n] == ps[..n];
      } else {
        assert ps[..n] == ps;
      }
    }

    /** A walk that ends outside closed leaves closed at some point j: ps[j]
        is not closed, and either j is 0 or ps[j - 1] is closed. */
    lemma {:induction false} FirstOpen(ps: seq<Point>, closed: set<Point>, levels: bool) returns (j: int)
      requires Shaped() && Walk(ps, levels) && ps[|ps| - 1] !in closed
      ensures 0 <= j < |ps| && ps[j] !in closed && (j == 0 || ps[j - 1] in closed)
      decreases |ps|
    {
      if |ps| == 1 || ps[|ps| - 2] in closed {
        j := |ps| - 1;
      } else {
        var front := ps[..|ps| - 1];
        j := FirstOpen(front, closed, levels);
        assert front[j] == ps[j];
        assert j > 0 ==> front[j - 1] == ps[j - 1];
      }
    }

    /** Where a walk leaves the closed cells at j > 0, the walk up to the
        cell before is a walk of j - 1 steps, and the walk steps on from
        it. */
    lemma LeaveAt(ps: seq<Point>, j: int, levels: bool)
      requires Shaped() && Walk(ps, levels) && 0 < j < |ps|
      ensures Walk(ps[..j], levels) && |ps[..j]| == j && ps[..j][j - 1] == ps[j - 1]
      ensures Step(ps[j - 1], ps[j], levels)
    {
      WalkPrefix(ps, j + 1, levels);
      WalkPrefix(ps, j, levels);
      var pre := ps[..j + 1];
      assert pre[..j] == ps[..j] && pre[j - 1] == ps[j - 1] && pre[j] == ps[j];
    }

    /** A walk to a cell not closed passes, after j steps, a cell queued
        within j. */
    lemma {:induction false} ExitNear(items: seq<Item<Point>>, closed: set<Point>, dist: map<Point, int>, level: int, ps: seq<Point>, levels: bool)
      returns (j: int)
      requires Shaped() && Layered(items, closed, dist, level, levels)
      requires Walk(ps, levels) && ps[|ps| - 1] !in closed
      ensures 0 <= j < |ps| && Near(items, ps[j], j)
    {
      j := FirstOpen(ps, closed, levels);
      if j > 0 {
        ExitAt(items, closed, dist, level, ps, j, levels);
      } else {
        StartNear(items, closed, dist, level, ps, levels);
      }
    }

    /** A walk leaving the closed cells at j > 0 reaches a cell queued
        within j. */
    lemma ExitAt(items: seq<Item<Point>>, closed: set<Point>, dist: map<Point, int>, level: int, ps: seq<Point>, j: int, levels: bool)
      requires Shaped() && Settled(closed, dist, level, levels) && FrontOk(items, closed, dist, levels)
      requires Walk(ps, levels) && 0 < j < |ps| && ps[j] !in closed && ps[j - 1] in closed
      ensures Near(items, ps[j], j)
    {
      LeaveAt(ps, j, levels);
      var pre := ps[..j];
      assert Walk(pre, levels);
      assert pre[|pre| - 1] in closed;
      SettledWithin(closed, dist, level, pre, levels);
      StepNear(items, closed, dist, ps[j - 1], ps[j], j, levels);
    }

    /** A walk whose first cell is not closed starts at a cell queued at
        0. */
    lemma StartNear(items: seq<Item<Point>>, closed: set<Point>, dist: map<Point, int>, level: int, ps: seq<Point>, levels: bool)
      requires Shaped() && Layered(items, closed, dist, level, levels)
      requires Walk(ps, levels) && ps[0] !in closed
      ensures Near(items, ps[0], 0)
    {
      assert ps[0] == start;
    }

    /** A walk to the popped cell is no shorter than its g. */
    lemma {:induction false} NoShorter(items: seq<Item<Point>>, closed: set<Point>, dist: map<Point, int>, level: int, k: int, ps: seq<Point>, levels: bool)
      requires Shaped() && Layered(items, closed, dist, level, levels) && Least(items, k)
      requires items[k].value !in closed && Walk(ps, levels) && ps[|ps| - 1] == items[k].value
      ensures items[k].g <= |ps| - 1
    {
      var j := ExitNear(items, closed, dist, level, ps, levels);
      LeastWithin(items, level, k, ps[j], j);
    }

    /** A closed cell at the end of a walk of n steps was closed at a
        distance of at most n. */
    lemma SettledWithin(closed: set<Point>, dist: map<Point, int>, level: int, ps: seq<Point>, levels: bool)
      requires Shaped() && Settled(closed, dist, level, levels)
      requires Walk(ps, levels) && ps[|ps| - 1] in closed
      ensures ps[|ps| - 1] in dist && dist[ps[|ps| - 1]] <= |ps| - 1
    {
      assert Shortest(ps[|ps| - 1], dist[ps[|ps| - 1]], levels);
    }

    /** A step out of a cell closed within n - 1 is queued within n. */
    lemma StepNear(items: seq<Item<Point>>, closed: set<Point>, dist: map<Point, int>, c: Point, q: Point, n: int, levels: bool)
      requires Shaped() && FrontOk(items, closed, dist, levels)
      requires c in closed && c in dist && dist[c] <= n - 1 && q !in closed && Step(c, q, levels)
      ensures Near(items, q, n)
    {
      var it :| it in items && it.value == q && it.g <= dist[c] + 1;
    }

    /** The item of least f in a layered queue is popped at its distance:
        a shorter walk would have left the closed cells through a cell
        queued at a smaller g. */
    lemma PopShortest(items: seq<Item<Point>>, closed: set<Point>, dist: map<Point, int>, level: int, k: int, levels: bool)
      requires Shaped() && Layered(items, closed, dist, level, levels) && Least(items, k)
      requires items[k].value !in closed
      ensures Shortest(items[k].value, items[k].g, levels) && level <= items[k].g <= level + 1
    {
      assert items[k] in items;
      forall ps | Walk(ps, levels) && ps[|ps| - 1] == items[k].value
        ensures items[k].g <= |ps| - 1
      {
        NoShorter(items, closed, dist, level, k, ps, levels);
      }
    }

    /** A step from a closed cell to one still not closed after the pop
        stays queued within one further than that cell. */
    lemma StillNearFrom(items0: seq<Item<Point>>, closed: set<Point>, dist: map<Point, int>, level: int, k: int,
                        added: seq<Item<Point>>, c: Point, q: Point, levels: bool)
      requires Shaped() && Layered(items0, closed, dist, level, levels) && 0 <= k < |items0|
      requires c in closed && q !in closed && q != items0[k].value && Step(c, q, levels)
      ensures c in dist && Near(items0[..k] + items0[k + 1..] + added, q, dist[c] + 1)
    {
      StillNear(items0, k, added, q, dist[c] + 1);
    }

    /** Closing the popped cell at its g and queueing its steps one further
        keeps the queue layered, now on the popped g. */
    lemma LayerStep(items0: seq<Item<Point>>, closed: set<Point>, dist: map<Point, int>, level: int, k: int,
                    rest: seq<Item<Point>>, added: seq<Item<Point>>, valSet: set<Point>, levels: bool)
      requires Shaped() && Layered(items0, closed, dist, level, levels) && Least(items0, k)
      requires items0[k].value !in closed && Shortest(items0[k].value, items0[k].g, levels)
      requires level <= items0[k].g <= level + 1
      requires rest == items0[..k] + items0[k + 1..]
      requires forall it :: it in added ==> it == Item(it.value, items0[k].g + 1, items0[k].g + 1)
      requires valSet == Values(rest + added)
      requires Expanded(items0[k].value, closed + {items0[k].value} + valSet, levels)
      ensures Layered(rest + added, closed + {items0[k].value}, dist[items0[k].value := items0[k].g], items0[k].g, levels)
    {
      var v, g := items0[k].value, items0[k].g;
      Relayer(items0, level, k, added);
      FrontNear(items0, closed, dist, level, k, added, valSet, levels);
      if start !in closed + {v} {
        StillNear(items0, k, added, start, 0);
      }
    }

    /** After the pop and the pushes, every step from a closed cell to one
        not closed is queued within one further than that cell. */
    lemma FrontNear(items0: seq<Item<Point>>, closed: set<Point>, dist: map<Point, int>, level: int, k: int,
                    added: seq<Item<Point>>, valSet: set<Point>, levels: bool)
      requires Shaped() && Layered(items0, closed, dist, level, levels) && Least(items0, k)
      requires items0[k].value !in closed
      requires OnLevels(items0[..k] + items0[k + 1..] + added, items0[k].g)
      requires valSet == Values(items0[..k] + items0[k + 1..] + added)
      requires Expanded(items0[k].value, closed + {items0[k].value} + valSet, levels)
      ensures FrontOk(items0[..k] + items0[k + 1..] + added, closed + {items0[k].value}, dist[items0[k].value := items0[k].g], levels)
    {
      var v, g := items0[k].value, items0[k].g;
      var items, closed', dist' := items0[..k] + items0[k + 1..] + added, closed + {v}, dist[v := g];
      forall c, q | c in closed' && c in dist' && q !in closed' && Step(c, q, levels)
        ensures Near(items, q, dist'[c] + 1)
      {
        if c == v {
          NearNext(items, g, q);
        } else {
          StillNearFrom(items0, closed, dist, level, k, added, c, q, levels);
        }
      }
    }

    /** Queue the steps from cur that are neither closed nor queued. */
    method PushNeighbors(cur: Point, curg: int, open: OpenSet<Point>, closed: set<Point>, levels: bool) returns (ghost added: seq<Item<Point>>)
      requires Valid() && InRange(cur, levels) && curg >= 0 && Reached(cur, curg, levels)
      requires open.Valid() && closed !! open.valSet && Queued(open.items, levels)
      modifies open
      ensures open.Valid() && closed !! open.valSet && Queued(open.items, levels)
      ensures old(open.valSet) <= open.valSet
      ensures Expanded(cur, closed + open.valSet, levels)
      ensures open.items == old(open.items) + added
      ensures forall it :: it in added ==> it == Item(it.value, curg + 1, curg + 1)
    {
      var ns;
      if levels {
        ns := Neighbors2(cur);
      } else {
        ns := Neighbors(cur);
      }
      added := PushAll(ns, curg + 1, open, closed);
      assert OneStep(cur, curg, added, levels);
      QueueSteps(old(open.items), added, cur, curg, levels);
    }

    function InteriorCells(): set<Point> {
      set x, y | 0 < x < w - 1 && 0 < y < h - 1 :: Point(x, y, 0)
    }

    /** Closing one more cell of the flat maze leaves fewer cells open. */
    lemma CloseOne(closed: set<Point>, cur: Point)
      requires InRange(cur, false) && cur !in closed
      ensures |InteriorCells() - (closed + {cur})| < |InteriorCells() - closed|
    {
      assert Point(cur.x, cur.y, 0) in InteriorCells();
      assert InteriorCells() - closed == (InteriorCells() - (closed + {cur})) + {cur};
    }

    /** One round of a search: pop the item of least f and close it; stop
        with its g if it is the end, otherwise queue its steps. The ghost
        dist records the g each closed cell was closed at, level the g of
        the item last popped. */
    method Expand(open: OpenSet<Point>, closed: set<Point>, ghost dist: map<Point, int>, ghost level: int, levels: bool)
      returns (closed': set<Point>, found: bool, g: int, ghost dist': map<Point, int>, ghost level': int)
      requires Valid() && open.items != [] && open.Valid() && Searching(open.items, open.valSet, closed, levels)
      requires Layered(open.items, closed, dist, level, levels)
      modifies open
      ensures found ==> g >= 0 && Reached(end, g, levels) && Shortest(end, g, levels)
      ensures !found ==> open.Valid() && Searching(open.items, open.valSet, closed', levels)
      ensures !found ==> Layered(open.items, closed', dist', level', levels)
      ensures !found && !levels ==> |InteriorCells() - closed'| < |InteriorCells() - closed|
    {
      ghost var items, queued := open.items, open.valSet;
      var cur, curg, _, i := open.Pop();
      PopFacts(items, queued, i, closed, levels);
      PopShortest(items, closed, dist, level, i, levels);
      closed' := closed + {cur};
      if cur == end {
        return closed', true, curg, dist, level;
      }
      if !levels {
        CloseOne(closed, cur);
      }
      ghost var rest := open.items;
      ghost var added := PushNeighbors(cur, curg, open, closed', levels);
      CloseStep(items, queued, closed, cur, open.items, open.valSet, levels);
      LayerStep(items, closed, dist, level, i, rest, added, open.valSet, levels);
      found, g, dist', level' := false, 0, dist[cur := curg], curg;
    }

    /** A walk from a closed start whose closed cells are all expanded
        stays among the closed cells. */
    lemma {:induction false} WalkStaysClosed(ps: seq<Point>, closed: set<Point>, levels: bool)
      requires Shaped() && Walk(ps, levels) && start in closed
      requires forall c :: c in closed ==> Expanded(c, closed, levels)
      ensures ps[|ps| - 1] in closed
      decreases |ps|
    {
      if |ps| > 1 {
        WalkStaysClosed(ps[..|ps| - 1], closed, levels);
      }
    }

    /** A search that has queued only start, at 0, is under way: nothing
        is closed and start is reached at 0. */
    lemma StartSearch(items: seq<Item<Point>>, levels: bool)
      requires Valid() && items == [Item(start, 0, 0)]
      ensures Searching(items, {start}, {}, levels) && Layered(items, {}, map[], 0, levels)
    {
      assert Walk([start], levels);
      assert items[0] in items;
    }

    /** BFS: the length of a walk from start to end on the flat maze, or
        -1 when no walk reaches the end. */
    method BFS() returns (r: int)
      requires Valid()
      ensures r >= -1
      ensures r >= 0 ==> Reached(end, r, false) && Shortest(end, r, false)
      ensures r == -1 ==> forall ps :: Walk(ps, false) ==> ps[|ps| - 1] != end
    {
      var open := new OpenSet<Point>();
      open.Push(start, 0, 0);
      var closed: set<Point> := {};
      ghost var dist: map<Point, int>, level := map[], 0;
      StartSearch(open.items, false);
      while !open.Empty()
        invariant open.Valid() && Searching(open.items, open.valSet, closed, false)
        invariant Layered(open.items, closed, dist, level, false)
        decreases |InteriorCells() - closed|
      {
        var found, g;
        closed, found, g, dist, level := Expand(open, closed, dist, level, false);
        if found {
          return g;
        }
      }
      assert closed + open.valSet == closed;
      forall ps | Walk(ps, false)
        ensures ps[|ps| - 1] != end
      {
        WalkStaysClosed(ps, closed, false);
      }
      return -1;
    }

    /** BFS2: the same through the levels, for at most fuel rounds (None
        when they run out). */
    method BFS2(fuel: nat) returns (r: Option<int>)
      requires Valid()
      ensures r.Some? ==> r.value >= -1
      ensures r.Some? && r.value >= 0 ==> Reached(end, r.value, true) && Shortest(end, r.value, true)
      ensures r == Some(-1) ==> forall ps :: Walk(ps, true) ==> ps[|ps| - 1] != end
    {
      var open := new OpenSet<Point>();
      open.Push(start, 0, 0);
      var closed: set<Point> := {};
      ghost var dist: map<Point, int>, level := map[], 0;
      StartSearch(open.items, true);
      var rounds := fuel;
      while !open.Empty()
        invariant open.Valid() && Searching(open.items, open.valSet, closed, true)
        invariant Layered(open.items, closed, dist, level, true)
        decreases rounds
      {
        if rounds == 0 {
          return None;
        }
        rounds := rounds - 1;
        var found, g;
        closed, found, g, dist, level := Expand(open, closed, dist, level, true);
        if found {
          return Some(g);
        }
      }
      assert closed + open.valSet == closed;
      forall ps | Walk(ps, true)
        ensures ps[|ps| - 1] != end
      {
        WalkStaysClosed(ps, closed, true);
      }
      return Some(-1);
    }
  }

  /** The walk with every level set to 0. */
  function Flat(ps: seq<Point>): (fs: seq<Point>)
    ensures |fs| == |ps| && forall i :: 0 <= i < |ps| ==> fs[i] == Point(ps[i].x, ps[i].y, 0)
  {
    seq(|ps|, i requires 0 <= i < |ps| => Point(ps[i].x, ps[i].y, 0))
  }

  // ---------------------------------------------------------------------
  // NewMaze

  /** NewMaze: None where the program stops with a fatal error (no ring
      thickness found, or no AA or ZZ label left unpaired); otherwise the
      maze with the paired teleporters, starting at AA and ending at ZZ
      on level 0. The ghost results are the ring thickness and the labels
      left unpaired. */
  method NewMaze(grid: seq<seq<char>>) returns (r: Option<Maze>, ghost ringH: int, ghost ringW: int, ghost ends: map<string, Point>)
    requires Rectangular(grid) && |grid[0]| > 0
    ensures RingHeightIs(grid, ringH) && RingWidthIs(grid, ringW)
    ensures ringH < 0 || ringW < 0 ==> r.None?
    ensures ringH >= 0 && ringW >= 0 ==> (r.Some? <==> "AA" in ends && "ZZ" in ends)
    ensures r.Some? ==> r.value.grid == grid && r.value.h == |grid| && r.value.w == |grid[0]|
    ensures r.Some? ==> r.value.start == Point(ends["AA"].x, ends["AA"].y, 0) && r.value.end == Point(ends["ZZ"].x, ends["ZZ"].y, 0)
    ensures r.Some? ==> Level0(r.value.tele, ends)
  {
    var height, width := |grid|, |grid[0]|;
    var rh := RingHeight(grid);
    var rw := RingWidth(grid);
    ringH, ringW, ends := rh, rw, map[];
    if rw < 0 || rh < 0 {
      return None, ringH, ringW, ends;
    }
    var portals := new Portals();
    var i := 0;
    while i < width
      invariant 0 <= i <= width && Level0(portals.tele, portals.teleEnd)
    {
      portals.Scan(grid, 0, i, 1, i, Point(i, 2, 0));
      portals.Scan(grid, 2 + rh, i, 3 + rh, i, Point(i, 1 + rh, 0));
      portals.Scan(grid, height - 2, i, height - 1, i, Point(i, height - 3, 0));
      portals.Scan(grid, height - rh - 4, i, height - rh - 3, i, Point(i, height - rh - 2, 0));
      i := i + 1;
    }
    i := 0;
    while i < height
      invariant 0 <= i <= height && Level0(portals.tele, portals.teleEnd)
    {
      portals.Scan(grid, i, 0, i, 1, Point(2, i, 0));
      portals.Scan(grid, i, 2 + rw, i, 3 + rw, Point(1 + rw, i, 0));
      portals.Scan(grid, i, width - 2, i, width - 1, Point(width - 3, i, 0));
      portals.Scan(grid, i, width - rw - 4, i, width - rw - 3, Point(width - rw - 2, i, 0));
      i := i + 1;
    }
    ends := portals.teleEnd;
    if "AA" !in portals.teleEnd || "ZZ" !in portals.teleEnd {
      return None, ringH, ringW, ends;
    }
    var start, end := portals.teleEnd["AA"], portals.teleEnd["ZZ"];
    var m := new Maze(grid, width, height, portals.tele, Point(start.x, start.y, 0), Point(end.x, end.y, 0));
    r := Some(m);
  }
}
