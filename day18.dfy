/** Day 18: many-worlds interpretation. A walled maze of open floor, keys
    (a-z) and doors (A-Z); a door opens once its key is held. Reachable is a
    breadth-first search that records every key not yet held at its walking
    distance without walking past it, and Salesman tries every order of
    collecting the keys, caching the best total under a text naming the
    robots' positions and the held keys. */
module KeyMaze {
  import opened Num
  import opened Frontier

  datatype Point = Point(x: int, y: int)

  // ---------------------------------------------------------------------
  // Cells

  predicate IsEntrance(c: char) { c == '@' }
  predicate IsKey(c: char) { 'a' <= c <= 'z' }
  predicate IsDoor(c: char) { 'A' <= c <= 'Z' }
  predicate IsWall(c: char) { c == '#' }

  /** Open floor, an entrance or a key can always be walked on. */
  predicate IsOpen(c: char) { c == '.' || IsEntrance(c) || IsKey(c) }

  /** A cell is at most one of open, door and wall. */
  lemma ClassesDisjoint(c: char)
    ensures !(IsOpen(c) && IsDoor(c)) && !(IsOpen(c) && IsWall(c)) && !(IsDoor(c) && IsWall(c))
  {
  }

  /** The key that opens a door: the same letter in lower case. */
  function KeyOf(door: char): (k: char)
    requires IsDoor(door)
    ensures IsKey(k)
  {
    (door as int - 'A' as int + 'a' as int) as char
  }

  /** Every key opens exactly one door. */
  lemma KeyOfOneToOne(d: char, e: char)
    requires IsDoor(d) && IsDoor(e)
    ensures KeyOf(d) == KeyOf(e) <==> d == e
  {
  }

  function Manhattan(a: Point, b: Point): (d: int)
    ensures d >= 0
  {
    Abs(a.x - b.x) + Abs(a.y - b.y)
  }

  /** Manhattan distance is a metric. */
  lemma ManhattanMetric(a: Point, b: Point, c: Point)
    ensures Manhattan(a, b) == Manhattan(b, a)
    ensures Manhattan(a, b) == 0 <==> a == b
    ensures Manhattan(a, c) <= Manhattan(a, b) + Manhattan(b, c)
  {
  }

  predicate Adjacent(p: Point, q: Point) {
    Manhattan(p, q) == 1
  }

  /** The four cells at distance one. */
  lemma AdjacentCases(p: Point, q: Point)
    requires Adjacent(p, q)
    ensures q == Point(p.x, p.y - 1) || q == Point(p.x, p.y + 1) || q == Point(p.x - 1, p.y) || q == Point(p.x + 1, p.y)
  {
  }

  predicate Rectangular(grid: seq<seq<char>>) {
    |grid| > 0 && forall y :: 0 <= y < |grid| ==> |grid[y]| == |grid[0]|
  }

  predicate InGrid(grid: seq<seq<char>>, p: Point) {
    0 <= p.y < |grid| && 0 <= p.x < |grid[p.y]|
  }

  /** p comes before the cell (x, y) in reading order. */
  predicate Before(p: Point, y: int, x: int) {
    p.y < y || (p.y == y && p.x < x)
  }

  /** A key letter (door false) or a door letter (door true). */
  predicate OfKind(c: char, door: bool) {
    if door then IsDoor(c) else IsKey(c)
  }

  /** The entrances among the cells before (x, y), in reading order. */
  ghost predicate EnterSeen(grid: seq<seq<char>>, y: int, x: int, enter: seq<Point>) {
    forall p :: p in enter <==> InGrid(grid, p) && Before(p, y, x) && IsEntrance(grid[p.y][p.x])
  }

  /** Every letter of one kind among the cells before (x, y), with the
      position where it was last seen, and the list of those letters. */
  ghost predicate Gathered(grid: seq<seq<char>>, y: int, x: int, door: bool, letters: seq<char>, pos: map<char, Point>) {
    (forall k :: k in pos ==> OfKind(k, door) && InGrid(grid, pos[k]) && Before(pos[k], y, x) && grid[pos[k].y][pos[k].x] == k) &&
    (forall p :: InGrid(grid, p) && Before(p, y, x) && OfKind(grid[p.y][p.x], door) ==> grid[p.y][p.x] in pos) &&
    (forall k :: k in letters <==> k in pos)
  }

  /** What NewMaze has gathered once every cell before (x, y) is read: the
      entrances, every key and door letter with the position where it was
      last seen, and the lists of the letters. */
  ghost predicate Indexed(grid: seq<seq<char>>, y: int, x: int, enter: seq<Point>,
                          keys: seq<char>, keyPos: map<char, Point>, doors: seq<char>, doorPos: map<char, Point>)
  {
    EnterSeen(grid, y, x, enter) && Gathered(grid, y, x, false, keys, keyPos) && Gathered(grid, y, x, true, doors, doorPos)
  }

  /** Reading one more cell of row y. */
  method IndexCell(grid: seq<seq<char>>, y: int, x: int, enter: seq<Point>,
                   keys: seq<char>, keyPos: map<char, Point>, doors: seq<char>, doorPos: map<char, Point>)
    returns (enter': seq<Point>, keys': seq<char>, keyPos': map<char, Point>, doors': seq<char>, doorPos': map<char, Point>)
    requires 0 <= y < |grid| && 0 <= x < |grid[y]|
    requires Indexed(grid, y, x, enter, keys, keyPos, doors, doorPos)
    ensures Indexed(grid, y, x + 1, enter', keys', keyPos', doors', doorPos')
  {
    enter', keys', keyPos', doors', doorPos' := enter, keys, keyPos, doors, doorPos;
    var j := grid[y][x];
    if IsEntrance(j) {
      enter' := enter + [Point(x, y)];
    } else if IsKey(j) {
      keys' := keys + [j];
      keyPos' := keyPos[j := Point(x, y)];
    } else if IsDoor(j) {
      doors' := doors + [j];
      doorPos' := doorPos[j := Point(x, y)];
    }
    EnterStep(grid, y, x, enter, enter');
    GatherStep(grid, y, x, false, keys, keyPos, keys', keyPos');
    GatherStep(grid, y, x, true, doors, doorPos, doors', doorPos');
  }

  /** One more cell for the entrances: appended exactly when it is one. */
  lemma EnterStep(grid: seq<seq<char>>, y: int, x: int, enter: seq<Point>, enter': seq<Point>)
    requires 0 <= y < |grid| && 0 <= x < |grid[y]| && EnterSeen(grid, y, x, enter)
    requires enter' == if IsEntrance(grid[y][x]) then enter + [Point(x, y)] else enter
    ensures EnterSeen(grid, y, x + 1, enter')
  {
    forall p
      ensures p in enter' <==> InGrid(grid, p) && Before(p, y, x + 1) && IsEntrance(grid[p.y][p.x])
    {
      if p == Point(x, y) {
      } else {
        assert Before(p, y, x + 1) <==> Before(p, y, x);
      }
    }
  }

  /** One more cell for the letters of one kind: recorded exactly when the
      cell holds such a letter. */
  lemma GatherStep(grid: seq<seq<char>>, y: int, x: int, door: bool, letters: seq<char>, pos: map<char, Point>,
                   letters': seq<char>, pos': map<char, Point>)
    requires 0 <= y < |grid| && 0 <= x < |grid[y]| && Gathered(grid, y, x, door, letters, pos)
    requires var c := grid[y][x];
      if OfKind(c, door) then letters' == letters + [c] && pos' == pos[c := Point(x, y)]
      else letters' == letters && pos' == pos
    ensures Gathered(grid, y, x + 1, door, letters', pos')
  {
    var c := grid[y][x];
    forall p | InGrid(grid, p) && Before(p, y, x + 1) && OfKind(grid[p.y][p.x], door)
      ensures grid[p.y][p.x] in pos'
    {
      if p != Point(x, y) {
        assert Before(p, y, x);
      }
    }
  }

  /** The cell loops of NewMaze. */
  method Index(grid: seq<seq<char>>)
    returns (enter: seq<Point>, keys: seq<char>, keyPos: map<char, Point>, doors: seq<char>, doorPos: map<char, Point>)
    ensures Indexed(grid, |grid|, 0, enter, keys, keyPos, doors, doorPos)
  {
    enter, keys, keyPos, doors, doorPos := [], [], map[], [], map[];
    var y := 0;
    while y < |grid|
      invariant 0 <= y <= |grid|
      invariant Indexed(grid, y, 0, enter, keys, keyPos, doors, doorPos)
    {
      var x := 0;
      while x < |grid[y]|
        invariant 0 <= x <= |grid[y]|
        invariant Indexed(grid, y, x, enter, keys, keyPos, doors, doorPos)
      {
        enter, keys, keyPos, doors, doorPos := IndexCell(grid, y, x, enter, keys, keyPos, doors, doorPos);
        x := x + 1;
      }
      NextRow(grid, y, enter, keys, keyPos, doors, doorPos);
      y := y + 1;
    }
  }

  /** Past the end of row y is the start of row y + 1. */
  lemma NextRow(grid: seq<seq<char>>, y: int, enter: seq<Point>,
                keys: seq<char>, keyPos: map<char, Point>, doors: seq<char>, doorPos: map<char, Point>)
    requires 0 <= y < |grid| && Indexed(grid, y, |grid[y]|, enter, keys, keyPos, doors, doorPos)
    ensures Indexed(grid, y + 1, 0, enter, keys, keyPos, doors, doorPos)
  {
    forall p | InGrid(grid, p)
      ensures Before(p, y + 1, 0) <==> Before(p, y, |grid[y]|)
    {
    }
  }

  // ---------------------------------------------------------------------
  // Sorted key lists, for ToState

  /** m is the least key of s. */
  predicate IsLeast(m: char, s: set<char>) {
    m in s && forall c :: c in s ==> m <= c
  }

  lemma {:induction false} LeastKeyExists(s: set<char>)
    requires s != {}
    ensures exists m :: IsLeast(m, s)
    decreases |s|
  {
    var x :| x in s;
    if s == {x} {
      assert IsLeast(x, s);
    } else {
      var rest := s - {x};
      LeastKeyExists(rest);
      var m :| IsLeast(m, rest);
      var least := if x <= m then x else m;
      forall c | c in s
        ensures least <= c
      {
        if c != x {
          assert c in rest;
        }
      }
      assert IsLeast(least, s);
    }
  }

  ghost function LeastKey(s: set<char>): (m: char)
    requires s != {}
    ensures m in s && forall c :: c in s ==> m <= c
  {
    LeastKeyExists(s);
    var m :| IsLeast(m, s); m
  }

  /** The keys of a set in increasing order. */
  ghost function KeyList(s: set<char>): seq<char>
    decreases |s|
  {
    if s == {} then [] else [LeastKey(s)] + KeyList(s - {LeastKey(s)})
  }

  predicate Increasing(ks: seq<char>) {
    forall i, j :: 0 <= i < j < |ks| ==> ks[i] < ks[j]
  }

  lemma ConsIncreasing(m: char, tail: seq<char>)
    requires Increasing(tail) && forall j :: 0 <= j < |tail| ==> m < tail[j]
    ensures Increasing([m] + tail)
  {
    var ks := [m] + tail;
    forall i, j | 0 <= i < j < |ks|
      ensures ks[i] < ks[j]
    {
      assert ks[j] == tail[j - 1];
      if i > 0 {
        assert ks[i] == tail[i - 1];
      }
    }
  }

  /** The list holds each key of the set once. */
  lemma {:induction false} KeyListMembers(s: set<char>)
    ensures (forall c :: c in KeyList(s) <==> c in s) && |KeyList(s)| == |s|
    decreases |s|
  {
    if s != {} {
      var m := LeastKey(s);
      var rest := s - {m};
      KeyListMembers(rest);
      assert KeyList(s) == [m] + KeyList(rest);
    }
  }

  /** The list is in increasing order. */
  lemma {:induction false} KeyListSorted(s: set<char>)
    ensures Increasing(KeyList(s))
    decreases |s|
  {
    if s != {} {
      var m := LeastKey(s);
      var rest := s - {m};
      KeyListSorted(rest);
      KeyListMembers(rest);
      var tail := KeyList(rest);
      assert KeyList(s) == [m] + tail;
      forall j | 0 <= j < |tail|
        ensures m < tail[j]
      {
        assert tail[j] in rest;
      }
      ConsIncreasing(m, tail);
    }
  }

  /** Only one increasing list holds exactly the keys of a set: the text of
      a state does not depend on the order the held keys are visited in. */
  lemma {:induction false} IncreasingUnique(ks: seq<char>, s: set<char>)
    requires Increasing(ks) && forall c :: c in ks <==> c in s
    ensures ks == KeyList(s)
    decreases |ks|
  {
    if ks == [] {
      assert s == {};
    } else {
      HeadIsLeast(ks, s);
      var m := LeastKey(s);
      TailKeys(ks, s);
      IncreasingUnique(ks[1..], s - {m});
      assert ks == [m] + ks[1..];
    }
  }

  /** The head of an increasing list of the keys of s is the least key. */
  lemma HeadIsLeast(ks: seq<char>, s: set<char>)
    requires ks != [] && Increasing(ks) && forall c :: c in ks <==> c in s
    ensures s != {} && ks[0] == LeastKey(s)
  {
    assert ks[0] in s;
    var m := LeastKey(s);
    assert m in ks;
    var i :| 0 <= i < |ks| && ks[i] == m;
    assert m <= ks[0];
    assert i == 0 || ks[0] < ks[i];
  }

  /** Its tail is increasing and lists the other keys. */
  lemma TailKeys(ks: seq<char>, s: set<char>)
    requires ks != [] && Increasing(ks) && forall c :: c in ks <==> c in s
    ensures Increasing(ks[1..]) && forall c :: c in ks[1..] <==> c in s - {ks[0]}
  {
    var rest := ks[1..];
    forall c
      ensures c in rest <==> c in s - {ks[0]}
    {
      if c in rest {
        var i :| 0 <= i < |rest| && rest[i] == c;
        assert ks[0] < ks[i + 1];
      }
      if c in ks && c != ks[0] {
        var i :| 0 <= i < |ks| && ks[i] == c;
        assert rest[i - 1] == c;
      }
    }
  }

  /** One robot position in the state text: x, a comma, y, a semicolon. */
  function PointText(p: Point): string {
    Itoa(p.x) + [','] + Itoa(p.y) + [';']
  }

  function PosText(pos: seq<Point>): string
    decreases |pos|
  {
    if pos == [] then [] else PosText(pos[..|pos| - 1]) + PointText(pos[|pos| - 1])
  }

  /** The text ToState builds: the positions in order, then the held keys
      sorted. */
  ghost function StateKey(pos: seq<Point>, keys: set<char>): string {
    PosText(pos) + KeyList(keys)
  }

  /** The first loop of ToState: the positions, in order. */
  method WritePositions(pos: seq<Point>) returns (s: string)
    ensures s == PosText(pos)
  {
    s := [];
    var i := 0;
    while i < |pos|
      invariant 0 <= i <= |pos| && s == PosText(pos[..i])
    {
      assert pos[..i + 1][..i] == pos[..i];
      s := s + PointText(pos[i]);
      i := i + 1;
    }
    assert pos[..i] == pos;
  }

  /** The second part of ToState: the held keys, sorted (the library sort
      is modelled by taking the least remaining key each time). */
  method SortKeys(keys: set<char>) returns (keySlice: seq<char>)
    ensures keySlice == KeyList(keys)
  {
    keySlice := [];
    var rest := keys;
    while rest != {}
      invariant keySlice + KeyList(rest) == KeyList(keys)
      decreases |rest|
    {
      var k :| k in rest && forall c :: c in rest ==> k <= c;
      assert k == LeastKey(rest);
      keySlice := keySlice + [k];
      rest := rest - {k};
    }
  }

  /** ToState: the positions are written in order, then the held keys,
      which the map yields in no fixed order, sorted. */
  method ToState(pos: seq<Point>, keys: set<char>) returns (s: string)
    ensures s == StateKey(pos, keys)
  {
    s := WritePositions(pos);
    var keySlice := SortKeys(keys);
    s := s + keySlice;
  }

  // ---------------------------------------------------------------------
  // Combining a step with the rest of the collection

  /** The candidate total as Salesman's inner loop forms it: the distance
      to the key plus the result for the rest, dropped only when the sum
      is negative. */
  function PartialAsWritten(d: int, sub: int): Option<int> {
    if d + sub < 0 then None else Some(d + sub)
  }

  /** A dead end one step from a key at distance 2 (the rest gives -1)
      still yields the candidate 1. */
  lemma PartialAsWrittenCountsDeadEnd()
    ensures var sub := -1; sub < 0 && PartialAsWritten(2, sub) == Some(1)
  {
  }

  /** The candidate total: a distance to a key plus the rest, and none
      when the rest cannot be collected (-1). */
  function Partial(d: int, sub: int): (c: Option<int>)
    requires d >= 0 && sub >= -1
    ensures c.Some? <==> sub >= 0
    ensures c.Some? ==> c.value >= d && c.value - d == sub
  {
    if sub < 0 then None else Some(d + sub)
  }

  /** The two agree whenever the rest can be collected, and also when the
      key is at distance 0. */
  lemma PartialAgrees(d: int, sub: int)
    requires d >= 0 && sub >= -1 && (sub >= 0 || d == 0)
    ensures PartialAsWritten(d, sub) == Partial(d, sub)
  {
  }

  // ---------------------------------------------------------------------
  // The maze

  /** The keys Salesman holds, shared by every call it makes. */
  class KeySet {
    var held: set<char>

    constructor ()
      ensures held == {}
    {
      held := {};
    }
  }

  class Maze {
    const grid: seq<seq<char>>
    const w: int
    const h: int
    const enter: seq<Point>
    const keys: seq<char>
    const keyPos: map<char, Point>
    const doors: seq<char>
    const doorPos: map<char, Point>
    var reCache: map<string, int>

    predicate Shaped() {
      h == |grid| && Rectangular(grid) && w == |grid[0]|
    }

    predicate InBounds(p: Point) {
      0 <= p.x < w && 0 <= p.y < h
    }

    predicate Interior(p: Point) {
      0 < p.x < w - 1 && 0 < p.y < h - 1
    }

    function Cell(p: Point): char
      requires Shaped() && InBounds(p)
    {
      grid[p.y][p.x]
    }

    /** A cell of the outermost rows or columns. */
    predicate OnBorder(p: Point) {
      InBounds(p) && (p.x == 0 || p.y == 0 || p.x == w - 1 || p.y == h - 1)
    }

    /** Every cell on the border is a wall. */
    ghost predicate Walled()
      requires Shaped()
    {
      forall p {:trigger OnBorder(p)} :: OnBorder(p) ==> IsWall(Cell(p))
    }

    /** A cell holding a key letter. */
    predicate HoldsKey(p: Point)
      requires Shaped()
    {
      InBounds(p) && IsKey(Cell(p))
    }

    /** keyPos names a cell holding each key letter, and every key letter
        of the maze is in keyPos. */
    ghost predicate KeysIndexed()
      requires Shaped()
    {
      (forall k :: k in keyPos ==> IsKey(k) && InBounds(keyPos[k]) && Cell(keyPos[k]) == k) &&
      (forall p {:trigger HoldsKey(p)} :: HoldsKey(p) ==> Cell(p) in keyPos)
    }

    ghost predicate Valid() {
      Shaped() && Walled() && KeysIndexed()
    }

    /** No key letter appears in two cells, as in the puzzle's mazes. */
    ghost predicate KeysUnique()
      requires Shaped()
    {
      forall p, q :: HoldsKey(p) && HoldsKey(q) && Cell(p) == Cell(q) ==> p == q
    }

    /** Every cached value is a distance or -1. */
    predicate Cached()
      reads this
    {
      forall s :: s in reCache ==> reCache[s] >= -1
    }

    /** NewMaze: the entrances, keys and doors found on the grid. */
    constructor (grid: seq<seq<char>>)
      requires Rectangular(grid)
      ensures this.grid == grid && reCache == map[] && Shaped() && KeysIndexed()
      ensures forall p :: p in enter <==> InBounds(p) && IsEntrance(Cell(p))
      ensures forall d :: d in doorPos ==> IsDoor(d) && InBounds(doorPos[d]) && Cell(doorPos[d]) == d
      ensures forall c :: c in keys <==> c in keyPos
      ensures forall c :: c in doors <==> c in doorPos
    {
      var enter, keys, keyPos, doors, doorPos := Index(grid);
      this.grid := grid;
      w, h := |grid[0]|, |grid|;
      this.enter, this.keys, this.keyPos, this.doors, this.doorPos := enter, keys, keyPos, doors, doorPos;
      reCache := map[];
      new;
      assert forall p :: InGrid(grid, p) <==> InBounds(p);
      assert forall p :: InBounds(p) ==> Before(p, h, 0);
      forall p | HoldsKey(p)
        ensures Cell(p) in keyPos
      {
        assert InGrid(grid, p);
      }
    }

    /** A cell that is not a wall lies inside the border. */
    lemma InsideWalls(p: Point)
      requires Shaped() && Walled() && InBounds(p) && !IsWall(Cell(p))
      ensures Interior(p)
    {
      assert !OnBorder(p);
    }

    /** The position of every key lies inside the border. */
    lemma KeyInside(k: char)
      requires Valid() && k in keyPos
      ensures Interior(keyPos[k])
    {
      InsideWalls(keyPos[k]);
    }

    /** isPath: open cells always; a door exactly when its key is held. */
    predicate Passable(p: Point, held: set<char>)
      requires Shaped() && InBounds(p)
    {
      var c := Cell(p);
      IsOpen(c) || (IsDoor(c) && KeyOf(c) in held)
    }

    lemma PassableMeaning(p: Point, held: set<char>)
      requires Shaped() && InBounds(p)
      ensures IsDoor(Cell(p)) ==> (Passable(p, held) <==> KeyOf(Cell(p)) in held)
      ensures IsWall(Cell(p)) ==> !Passable(p, held)
      ensures IsOpen(Cell(p)) ==> Passable(p, held)
    {
    }

    /** One step of a walk: to an adjacent cell that can be walked on. */
    predicate Step(p: Point, q: Point, held: set<char>)
      requires Shaped()
    {
      InBounds(q) && Adjacent(p, q) && Passable(q, held)
    }

    /** neighbors: up, down, left, right, those that can be walked on;
        these are exactly the cells one step away. */
    method Neighbors(pos: Point, held: set<char>) returns (points: seq<Point>)
      requires Shaped() && Interior(pos)
      ensures |points| <= 4
      ensures forall q :: q in points <==> Step(pos, q, held)
    {
      points := [];
      var up := Point(pos.x, pos.y - 1);
      if Passable(up, held) {
        points := points + [up];
      }
      var down := Point(pos.x, pos.y + 1);
      if Passable(down, held) {
        points := points + [down];
      }
      var left := Point(pos.x - 1, pos.y);
      if Passable(left, held) {
        points := points + [left];
      }
      var right := Point(pos.x + 1, pos.y);
      if Passable(right, held) {
        points := points + [right];
      }
      forall q | Step(pos, q, held)
        ensures q in points
      {
        AdjacentCases(pos, q);
      }
    }

    /** The key at p is one Reachable stops at. */
    predicate Fresh(p: Point, held: set<char>)
      requires Shaped()
    {
      HoldsKey(p) && Cell(p) !in held
    }

    /** A walk from start: every step goes to a cell that can be walked on,
        and no cell before the last holds a key not yet held. */
    ghost predicate Walk(start: Point, held: set<char>, ps: seq<Point>)
      requires Shaped()
      decreases |ps|
    {
      |ps| >= 1 && ps[0] == start && InBounds(start) &&
      (|ps| == 1 ||
       (Walk(start, held, ps[..|ps| - 1]) && !Fresh(ps[|ps| - 2], held) && Step(ps[|ps| - 2], ps[|ps| - 1], held)))
    }

    /** p is reached from start by a walk of g steps. */
    ghost predicate Reached(start: Point, held: set<char>, p: Point, g: int)
      requires Shaped()
    {
      exists ps :: Walk(start, held, ps) && |ps| == g + 1 && ps[g] == p
    }

    /** A cell holding key k is reached from start in d steps. */
    ghost predicate KeyReached(start: Point, held: set<char>, k: char, d: int)
      requires Shaped()
    {
      exists p :: InBounds(p) && Cell(p) == k && Reached(start, held, p, d)
    }

    /** What Reachable promises: every key it records is one not yet held,
        reached by a walk of the recorded length, and every key not yet held
        that some walk reaches is recorded. */
    ghost predicate Found(start: Point, held: set<char>, reachable: map<char, int>)
      requires Valid()
    {
      (forall k :: k in reachable ==> IsKey(k) && k !in held && k in keyPos && reachable[k] >= 0 && KeyReached(start, held, k, reachable[k])) &&
      (forall ps :: Walk(start, held, ps) && Fresh(ps[|ps| - 1], held) ==> Cell(ps[|ps| - 1]) in reachable)
    }

    /** No recorded key has a nearer cell: every walk to a fresh key is at
        least as long as the distance recorded for it. With Found, the
        recorded distance is the length of a shortest walk to the key. */
    ghost predicate Nearest(start: Point, held: set<char>, reachable: map<char, int>)
      requires Shaped()
    {
      forall ps :: Walk(start, held, ps) && Fresh(ps[|ps| - 1], held) && Cell(ps[|ps| - 1]) in reachable ==>
        reachable[Cell(ps[|ps| - 1])] <= |ps| - 1
    }

    /** Everything Reachable promises. */
    ghost predicate Searched(start: Point, held: set<char>, reachable: map<char, int>)
      requires Valid()
    {
      Found(start, held, reachable) && (KeysUnique() ==> Nearest(start, held, reachable))
    }

    lemma WalkExtend(start: Point, held: set<char>, ps: seq<Point>, q: Point)
      requires Shaped() && Walk(start, held, ps) && !Fresh(ps[|ps| - 1], held) && Step(ps[|ps| - 1], q, held)
      ensures Walk(start, held, ps + [q])
    {
      assert (ps + [q])[..|ps|] == ps;
    }

    /** Every item of the open set lies inside the border and is reached in
        its g steps. */
    ghost predicate Queued(start: Point, held: set<char>, items: seq<Item<Point>>)
      requires Shaped()
    {
      forall it :: it in items ==> Interior(it.value) && it.g >= 0 && Reached(start, held, it.value, it.g)
    }

    /** Every cell one step from c has been seen. */
    ghost predicate Expanded(c: Point, held: set<char>, seen: set<Point>)
      requires Shaped()
    {
      forall q :: Step(c, q, held) ==> q in seen
    }

    lemma ExpandedGrows(c: Point, held: set<char>, seen: set<Point>, more: set<Point>)
      requires Shaped() && Expanded(c, held, seen) && seen <= more
      ensures Expanded(c, held, more)
    {
    }

    /** Queueing a neighbour of a reached cell that holds no fresh key
        keeps every queued item reached in its g steps. */
    lemma QueueStep(start: Point, held: set<char>, items: seq<Item<Point>>, ps: seq<Point>, cur: Point, g: int, q: Point)
      requires Shaped() && Walled() && Interior(cur) && !Fresh(cur, held)
      requires Walk(start, held, ps) && |ps| == g + 1 && ps[g] == cur && g >= 0
      requires Queued(start, held, items) && Step(cur, q, held)
      ensures Queued(start, held, items + [Item(q, g + 1, g + 1)])
    {
      InsideWalls(q);
      WalkExtend(start, held, ps, q);
      assert (ps + [q])[|ps|] == q;
    }

    /** Every item added is a cell one step from cur, queued one step
        further than cur. */
    ghost predicate OneStep(cur: Point, g: int, held: set<char>, added: seq<Item<Point>>)
      requires Shaped()
    {
      forall it :: it in added ==> Step(cur, it.value, held) && it == Item(it.value, g + 1, g + 1)
    }

    /** Queueing any number of such items keeps the queue reached. */
    lemma {:induction false} QueueSteps(start: Point, held: set<char>, items: seq<Item<Point>>, added: seq<Item<Point>>, cur: Point, g: int)
      requires Shaped() && Walled() && Interior(cur) && !Fresh(cur, held) && g >= 0 && Reached(start, held, cur, g)
      requires Queued(start, held, items) && OneStep(cur, g, held, added)
      ensures Queued(start, held, items + added)
      decreases |added|
    {
      var ps :| Walk(start, held, ps) && |ps| == g + 1 && ps[g] == cur;
      QueueAlong(start, held, items, added, ps, cur, g);
    }

    /** QueueSteps with the walk to cur fixed. */
    lemma {:induction false} QueueAlong(start: Point, held: set<char>, items: seq<Item<Point>>, added: seq<Item<Point>>,
                                        ps: seq<Point>, cur: Point, g: int)
      requires Shaped() && Walled() && Interior(cur) && !Fresh(cur, held) && g >= 0
      requires Walk(start, held, ps) && |ps| == g + 1 && ps[g] == cur
      requires Queued(start, held, items) && OneStep(cur, g, held, added)
      ensures Queued(start, held, items + added)
      decreases |added|
    {
      if added != [] {
        var front, last := added[..|added| - 1], added[|added| - 1];
        assert OneStep(cur, g, held, front) by {
          forall it | it in front
            ensures it in added
          {
          }
        }
        QueueAlong(start, held, items, front, ps, cur, g);
        assert last in added;
        assert Step(cur, last.value, held) && last == Item(last.value, g + 1, g + 1);
        QueueStep(start, held, items + front, ps, cur, g, last.value);
        assert items + added == (items + front) + [last];
      }
    }

    /** Expanding cur: its neighbours are closed or queued afterwards, and
        every queued item is still reached in its g steps. */
    method PushNeighbors(ghost start: Point, held: set<char>, cur: Point, curg: int, open: OpenSet<Point>, closed: set<Point>)
      returns (ghost added: seq<Item<Point>>)
      requires Shaped() && Walled() && Interior(cur) && !Fresh(cur, held) && curg >= 0 && Reached(start, held, cur, curg)
      requires open.Valid() && closed !! open.valSet && Queued(start, held, open.items)
      modifies open
      ensures open.Valid() && closed !! open.valSet && Queued(start, held, open.items)
      ensures old(open.valSet) <= open.valSet
      ensures Expanded(cur, held, closed + open.valSet)
      ensures open.items == old(open.items) + added
      ensures forall it :: it in added ==> it == Item(it.value, curg + 1, curg + 1)
    {
      var ns := Neighbors(cur, held);
      added := PushAll(ns, curg + 1, open, closed);
      assert OneStep(cur, curg, held, added);
      QueueSteps(start, held, old(open.items), added, cur, curg);
    }

    function InteriorCells(): set<Point> {
      set x, y | 0 < x < w - 1 && 0 < y < h - 1 :: Point(x, y)
    }

    /** Closing one more interior cell leaves fewer interior cells open. */
    lemma CloseOne(closed: set<Point>, cur: Point)
      requires Interior(cur) && cur !in closed
      ensures |InteriorCells() - (closed + {cur})| < |InteriorCells() - closed|
    {
      assert Point(cur.x, cur.y) in InteriorCells();
      assert InteriorCells() - closed == (InteriorCells() - (closed + {cur})) + {cur};
    }

    /** A walk from a closed start whose closed cells are all expanded
        stays among the closed cells. */
    lemma {:induction false} WalkStaysClosed(start: Point, held: set<char>, ps: seq<Point>, closed: set<Point>)
      requires Shaped() && Walk(start, held, ps) && start in closed
      requires forall p :: p in closed ==> Interior(p)
      requires forall c :: c in closed && !Fresh(c, held) ==> Expanded(c, held, closed)
      ensures ps[|ps| - 1] in closed
      decreases |ps|
    {
      if |ps| > 1 {
        var front := ps[..|ps| - 1];
        WalkStaysClosed(start, held, front, closed);
      }
    }

    /** What Reachable's keys satisfy: each is a key not yet held, reached
        from start by a walk of the recorded length. */
    ghost predicate Sound(start: Point, held: set<char>, reachable: map<char, int>)
      requires Shaped()
    {
      forall k :: k in reachable ==> IsKey(k) && k !in held && k in keyPos && reachable[k] >= 0 && KeyReached(start, held, k, reachable[k])
    }

    /** Recording the key of a fresh cell reached in g steps keeps the
        recorded keys sound. */
    lemma RecordKey(start: Point, held: set<char>, reachable: map<char, int>, cur: Point, g: int)
      requires Valid() && Sound(start, held, reachable) && Fresh(cur, held) && g >= 0 && Reached(start, held, cur, g)
      ensures Sound(start, held, reachable[Cell(cur) := g])
    {
      assert KeyReached(start, held, Cell(cur), g);
    }

    /** The state of the search, given the queued items and their values:
        the queue holds reached cells, every closed cell without a fresh
        key has its neighbours seen, and every closed cell with one has
        its key recorded. */
    ghost predicate Searching(start: Point, held: set<char>, items: seq<Item<Point>>, queued: set<Point>, closed: set<Point>, reachable: map<char, int>)
      requires Shaped()
    {
      closed !! queued && Queued(start, held, items) &&
      (forall p :: p in closed ==> Interior(p)) &&
      start in closed + queued &&
      (forall c :: c in closed && !Fresh(c, held) ==> Expanded(c, held, closed + queued)) &&
      (forall c :: c in closed && Fresh(c, held) ==> Cell(c) in reachable) &&
      Sound(start, held, reachable)
    }

    /** The item popped from a queue of reached cells is a reached,
        queued, interior cell that is not closed, and the items left are
        still reached. */
    lemma PopFacts(start: Point, held: set<char>, items: seq<Item<Point>>, queued: set<Point>, i: int, closed: set<Point>)
      requires Shaped() && 0 <= i < |items| && Queued(start, held, items)
      requires queued == Values(items) && closed !! queued
      ensures Interior(items[i].value) && items[i].g >= 0 && Reached(start, held, items[i].value, items[i].g)
      ensures items[i].value in queued && items[i].value !in closed
      ensures Queued(start, held, items[..i] + items[i + 1..])
    {
      assert items[i] in items;
      InValues(items, items[i].value);
      assert forall it :: it in items[..i] + items[i + 1..] ==> it in items;
    }

    /** Closing cur, once its key is recorded or its neighbours are seen,
        restores the state of the search. */
    lemma CloseStep(start: Point, held: set<char>, items0: seq<Item<Point>>, queued: set<Point>, closed: set<Point>, reachable: map<char, int>,
                    cur: Point, items: seq<Item<Point>>, valSet: set<Point>, reachable': map<char, int>)
      requires Shaped() && Searching(start, held, items0, queued, closed, reachable)
      requires Interior(cur) && cur in queued
      requires queued - {cur} <= valSet && closed + {cur} !! valSet && Queued(start, held, items)
      requires Sound(start, held, reachable') && forall k :: k in reachable ==> k in reachable'
      requires Fresh(cur, held) ==> Cell(cur) in reachable'
      requires !Fresh(cur, held) ==> Expanded(cur, held, closed + {cur} + valSet)
      ensures Searching(start, held, items, valSet, closed + {cur}, reachable')
    {
      var closed' := closed + {cur};
      assert closed + queued <= closed' + valSet;
      forall c | c in closed' && !Fresh(c, held)
        ensures Expanded(c, held, closed' + valSet)
      {
        if c != cur {
          ExpandedGrows(c, held, closed + queued, closed' + valSet);
        }
      }
    }

    /** No walk from start reaches p in fewer than g steps. */
    ghost predicate Shortest(start: Point, held: set<char>, p: Point, g: int)
      requires Shaped()
    {
      forall ps :: Walk(start, held, ps) && ps[|ps| - 1] == p ==> g <= |ps| - 1
    }

    /** The breadth-first layering: every closed cell was closed at its
        distance, no later than level; the queued items lie on level or the
        next one, ordered by g; a step from an expanded closed cell to one
        not closed is queued at most one further than that cell; and start,
        until it is closed, is queued at 0. */
    ghost predicate Layered(start: Point, held: set<char>, items: seq<Item<Point>>, closed: set<Point>, dist: map<Point, int>, level: int)
      requires Shaped()
    {
      level >= 0 && Settled(start, held, closed, dist, level) && OnLevels(items, level) &&
      FrontOk(held, items, closed, dist) && (start !in closed ==> Near(items, start, 0))
    }

    /** Every closed cell was closed at its distance, no later than
        level. */
    ghost predicate Settled(start: Point, held: set<char>, closed: set<Point>, dist: map<Point, int>, level: int)
      requires Shaped()
    {
      forall c :: c in closed ==> c in dist && 0 <= dist[c] <= level && Shortest(start, held, c, dist[c])
    }

    /** Every step from an expanded closed cell to one not closed is queued
        at most one further than that cell. */
    ghost predicate FrontOk(held: set<char>, items: seq<Item<Point>>, closed: set<Point>, dist: map<Point, int>)
      requires Shaped()
    {
      forall c, q :: c in closed && c in dist && !Fresh(c, held) && q !in closed && Step(c, q, held) ==> Near(items, q, dist[c] + 1)
    }

    /** With one cell per key, every closed cell holding a fresh key has
        its key recorded at the distance it was closed at. */
    ghost predicate KeysAtDist(held: set<char>, closed: set<Point>, dist: map<Point, int>, reachable: map<char, int>)
      requires Shaped()
    {
      KeysUnique() ==>
        forall c :: c in closed && c in dist && Fresh(c, held) ==> Cell(c) in reachable && reachable[Cell(c)] == dist[c]
    }

    lemma {:induction false} WalkPrefix(start: Point, held: set<char>, ps: seq<Point>, n: int)
      requires Shaped() && Walk(start, held, ps) && 1 <= n <= |ps|
      ensures Walk(start, held, ps[..n])
      decreases |ps|
    {
      if n < |ps| {
        var front := ps[..|ps| - 1];
        WalkPrefix(start, held, front, n);
        assert front[..n] == ps[..n];
      } else {
        assert ps[..n] == ps;
      }
    }

    /** A walk that ends outside closed leaves closed at some point j: ps[j]
        is not closed, and either j is 0 or ps[j - 1] is closed. */
    lemma {:induction false} FirstOpen(start: Point, held: set<char>, ps: seq<Point>, closed: set<Point>) returns (j: int)
      requires Shaped() && Walk(start, held, ps) && ps[|ps| - 1] !in closed
      ensures 0 <= j < |ps| && ps[j] !in closed && (j == 0 || ps[j - 1] in closed)
      decreases |ps|
    {
      if |ps| == 1 || ps[|ps| - 2] in closed {
        j := |ps| - 1;
      } else {
        var front := ps[..|ps| - 1];
        j := FirstOpen(start, held, front, closed);
        assert front[j] == ps[j];
        assert j > 0 ==> front[j - 1] == ps[j - 1];
      }
    }

    /** Where a walk leaves the closed cells at j > 0, the cell before is
        one it walks through, not a fresh key, and the walk up to it is a
        walk of j - 1 steps. */
    lemma LeaveAt(start: Point, held: set<char>, ps: seq<Point>, j: int)
      requires Shaped() && Walk(start, held, ps) && 0 < j < |ps|
      ensures Walk(start, held, ps[..j]) && |ps[..j]| == j && ps[..j][j - 1] == ps[j - 1]
      ensures !Fresh(ps[j - 1], held) && Step(ps[j - 1], ps[j], held)
    {
      WalkPrefix(start, held, ps, j + 1);
      WalkPrefix(start, held, ps, j);
      var pre := ps[..j + 1];
      assert pre[..j] == ps[..j] && pre[j - 1] == ps[j - 1] && pre[j] == ps[j];
    }

    /** A walk to the popped cell is no shorter than its g. */
    lemma {:induction false} NoShorter(start: Point, held: set<char>, items: seq<Item<Point>>, closed: set<Point>, dist: map<Point, int>, level: int, k: int, ps: seq<Point>)
      requires Shaped() && Layered(start, held, items, closed, dist, level) && Least(items, k)
      requires items[k].value !in closed && Walk(start, held, ps) && ps[|ps| - 1] == items[k].value
      ensures items[k].g <= |ps| - 1
    {
      var j := FirstOpen(start, held, ps, closed);
      if j > 0 {
        ExitAt(start, held, items, closed, dist, level, ps, j);
      } else {
        assert ps[0] == start;
      }
      LeastWithin(items, level, k, ps[j], j);
    }

    /** A walk leaving the closed cells at j > 0 reaches a cell queued
        within j. */
    lemma ExitAt(start: Point, held: set<char>, items: seq<Item<Point>>, closed: set<Point>, dist: map<Point, int>, level: int, ps: seq<Point>, j: int)
      requires Shaped() && Settled(start, held, closed, dist, level) && FrontOk(held, items, closed, dist)
      requires Walk(start, held, ps) && 0 < j < |ps| && ps[j] !in closed && ps[j - 1] in closed
      ensures Near(items, ps[j], j)
    {
      LeaveAt(start, held, ps, j);
      SettledWithin(start, held, closed, dist, level, ps, j);
      StepNear(held, items, closed, dist, ps[j - 1], ps[j], j);
    }

    /** A closed cell a walk passes after j - 1 steps was closed at a
        distance of at most j - 1. */
    lemma SettledWithin(start: Point, held: set<char>, closed: set<Point>, dist: map<Point, int>, level: int, ps: seq<Point>, j: int)
      requires Shaped() && Settled(start, held, closed, dist, level)
      requires Walk(start, held, ps) && 0 < j < |ps| && ps[j - 1] in closed
      ensures ps[j - 1] in dist && dist[ps[j - 1]] <= j - 1
    {
      LeaveAt(start, held, ps, j);
      assert Shortest(start, held, ps[j - 1], dist[ps[j - 1]]);
    }

    /** A step out of a walked-through cell closed within n - 1 is queued
        within n. */
    lemma StepNear(held: set<char>, items: seq<Item<Point>>, closed: set<Point>, dist: map<Point, int>, c: Point, q: Point, n: int)
      requires Shaped() && FrontOk(held, items, closed, dist)
      requires c in closed && c in dist && !Fresh(c, held) && dist[c] <= n - 1 && q !in closed && Step(c, q, held)
      ensures Near(items, q, n)
    {
      var it :| it in items && it.value == q && it.g <= dist[c] + 1;
    }

    /** The item of least f in a layered queue is popped at its distance:
        a shorter walk would have left the closed cells through a cell
        queued at a smaller g. */
    lemma PopShortest(start: Point, held: set<char>, items: seq<Item<Point>>, closed: set<Point>, dist: map<Point, int>, level: int, k: int)
      requires Shaped() && Layered(start, held, items, closed, dist, level) && Least(items, k)
      requires items[k].value !in closed
      ensures Shortest(start, held, items[k].value, items[k].g) && level <= items[k].g <= level + 1
    {
      assert items[k] in items;
      forall ps | Walk(start, held, ps) && ps[|ps| - 1] == items[k].value
        ensures items[k].g <= |ps| - 1
      {
        NoShorter(start, held, items, closed, dist, level, k, ps);
      }
    }

    /** Closing the popped cell at its g, and queueing its steps one
        further unless it holds a fresh key, keeps the queue layered, now
        on the popped g. */
    lemma LayerStep(start: Point, held: set<char>, items0: seq<Item<Point>>, closed: set<Point>, dist: map<Point, int>, level: int, k: int,
                    rest: seq<Item<Point>>, added: seq<Item<Point>>, valSet: set<Point>)
      requires Shaped() && Layered(start, held, items0, closed, dist, level) && Least(items0, k)
      requires items0[k].value !in closed && Shortest(start, held, items0[k].value, items0[k].g)
      requires level <= items0[k].g <= level + 1
      requires rest == items0[..k] + items0[k + 1..]
      requires forall it :: it in added ==> it == Item(it.value, items0[k].g + 1, items0[k].g + 1)
      requires valSet == Values(rest + added)
      requires !Fresh(items0[k].value, held) ==> Expanded(items0[k].value, held, closed + {items0[k].value} + valSet)
      ensures Layered(start, held, rest + added, closed + {items0[k].value}, dist[items0[k].value := items0[k].g], items0[k].g)
    {
      var v, g := items0[k].value, items0[k].g;
      Relayer(items0, level, k, added);
      FrontNear(start, held, items0, closed, dist, level, k, added, valSet);
      if start !in closed + {v} {
        StillNear(items0, k, added, start, 0);
      }
    }

    /** After the pop and the pushes, every step from an expanded closed
        cell to one not closed is queued within one further than that
        cell. */
    lemma FrontNear(start: Point, held: set<char>, items0: seq<Item<Point>>, closed: set<Point>, dist: map<Point, int>, level: int, k: int,
                    added: seq<Item<Point>>, valSet: set<Point>)
      requires Shaped() && Layered(start, held, items0, closed, dist, level) && Least(items0, k)
      requires items0[k].value !in closed
      requires OnLevels(items0[..k] + items0[k + 1..] + added, items0[k].g)
      requires valSet == Values(items0[..k] + items0[k + 1..] + added)
      requires !Fresh(items0[k].value, held) ==> Expanded(items0[k].value, held, closed + {items0[k].value} + valSet)
      ensures FrontOk(held, items0[..k] + items0[k + 1..] + added, closed + {items0[k].value}, dist[items0[k].value := items0[k].g])
    {
      var v, g := items0[k].value, items0[k].g;
      var items, closed', dist' := items0[..k] + items0[k + 1..] + added, closed + {v}, dist[v := g];
      forall c, q | c in closed' && c in dist' && !Fresh(c, held) && q !in closed' && Step(c, q, held)
        ensures Near(items, q, dist'[c] + 1)
      {
        if c == v {
          NearNext(items, g, q);
        } else {
          StillNear(items0, k, added, q, dist[c] + 1);
        }
      }
    }

    /** Recording the key of the popped cell, if it is fresh, at its g keeps
        the recorded keys at their distances. */
    lemma KeyStep(held: set<char>, closed: set<Point>, dist: map<Point, int>, reachable: map<char, int>, cur: Point, g: int, reachable': map<char, int>)
      requires Shaped() && KeysAtDist(held, closed, dist, reachable) && cur !in closed
      requires Fresh(cur, held) ==> reachable' == reachable[Cell(cur) := g]
      requires !Fresh(cur, held) ==> reachable' == reachable
      ensures KeysAtDist(held, closed + {cur}, dist[cur := g], reachable')
    {
      if KeysUnique() {
        forall c | c in closed + {cur} && c in dist[cur := g] && Fresh(c, held)
          ensures Cell(c) in reachable' && reachable'[Cell(c)] == dist[cur := g][c]
        {
          if c != cur && Fresh(cur, held) {
            assert Cell(c) != Cell(cur);
          }
        }
      }
    }

    /** One round of Reachable's loop: pop the item of least f and close
        it; record its key if it holds a fresh one, otherwise queue its
        neighbours. */
    method Expand(ghost start: Point, held: set<char>, open: OpenSet<Point>, closed: set<Point>, reachable: map<char, int>,
                  ghost dist: map<Point, int>, ghost level: int)
      returns (closed': set<Point>, reachable': map<char, int>, ghost dist': map<Point, int>, ghost level': int)
      requires Valid() && open.items != [] && open.Valid() && Searching(start, held, open.items, open.valSet, closed, reachable)
      requires Layered(start, held, open.items, closed, dist, level) && KeysAtDist(held, closed, dist, reachable)
      modifies open
      ensures open.Valid() && Searching(start, held, open.items, open.valSet, closed', reachable')
      ensures Layered(start, held, open.items, closed', dist', level') && KeysAtDist(held, closed', dist', reachable')
      ensures |InteriorCells() - closed'| < |InteriorCells() - closed|
    {
      ghost var items, queued := open.items, open.valSet;
      var cur, curg, _, i := open.Pop();
      PopFacts(start, held, items, queued, i, closed);
      PopShortest(start, held, items, closed, dist, level, i);
      CloseOne(closed, cur);
      reachable' := Close(start, held, open, closed, reachable, dist, level, cur, curg, items, queued, i);
      closed', dist', level' := closed + {cur}, dist[cur := curg], curg;
    }

    /** The rest of the round, once cur is popped at curg: record its key
        if it holds a fresh one, otherwise queue its neighbours. */
    method Close(ghost start: Point, held: set<char>, open: OpenSet<Point>, closed: set<Point>, reachable: map<char, int>,
                 ghost dist: map<Point, int>, ghost level: int, cur: Point, curg: int,
                 ghost items: seq<Item<Point>>, ghost queued: set<Point>, ghost i: int)
      returns (reachable': map<char, int>)
      requires Valid() && Searching(start, held, items, queued, closed, reachable)
      requires Layered(start, held, items, closed, dist, level) && KeysAtDist(held, closed, dist, reachable)
      requires Least(items, i) && items[i].value == cur && items[i].g == curg
      requires open.Valid() && open.items == items[..i] + items[i + 1..] && open.valSet == queued - {cur}
      requires Interior(cur) && curg >= 0 && Reached(start, held, cur, curg) && cur in queued && cur !in closed
      requires Queued(start, held, open.items)
      requires Shortest(start, held, cur, curg) && level <= curg <= level + 1
      modifies open
      ensures open.Valid() && Searching(start, held, open.items, open.valSet, closed + {cur}, reachable')
      ensures Layered(start, held, open.items, closed + {cur}, dist[cur := curg], curg)
      ensures KeysAtDist(held, closed + {cur}, dist[cur := curg], reachable')
    {
      reachable' := reachable;
      ghost var rest := open.items;
      ghost var added: seq<Item<Point>> := [];
      var k := grid[cur.y][cur.x];
      if IsKey(k) && k !in held {
        RecordKey(start, held, reachable, cur, curg);
        reachable' := reachable[k := curg];
        KeyStep(held, closed, dist, reachable, cur, curg, reachable');
        assert open.items == rest + added;
      } else {
        KeyStep(held, closed, dist, reachable, cur, curg, reachable');
        added := PushNeighbors(start, held, cur, curg, open, closed + {cur});
      }
      CloseStep(start, held, items, queued, closed, reachable, cur, open.items, open.valSet, reachable');
      LayerStep(start, held, items, closed, dist, level, i, rest, added, open.valSet);
    }

    /** Reachable: breadth-first search from start; a key not yet held is
        recorded at its distance and not walked past. */
    method Reachable(start: Point, held: set<char>) returns (reachable: map<char, int>)
      requires Valid() && Interior(start)
      ensures Searched(start, held, reachable)
    {
      reachable := map[];
      var open := new OpenSet<Point>();
      assert Walk(start, held, [start]);
      open.Push(start, 0, 0);
      var closed: set<Point> := {};
      ghost var dist: map<Point, int>, level := map[], 0;
      assert open.items[0] in open.items;
      while !open.Empty()
        invariant open.Valid() && Searching(start, held, open.items, open.valSet, closed, reachable)
        invariant Layered(start, held, open.items, closed, dist, level) && KeysAtDist(held, closed, dist, reachable)
        decreases |InteriorCells() - closed|
      {
        closed, reachable, dist, level := Expand(start, held, open, closed, reachable, dist, level);
      }
      SearchDone(start, held, closed, reachable, dist, level);
    }

    /** Once the queue is empty, every walk stays among the closed cells,
        so every fresh key a walk reaches is recorded, at its distance. */
    lemma SearchDone(start: Point, held: set<char>, closed: set<Point>, reachable: map<char, int>, dist: map<Point, int>, level: int)
      requires Valid() && Searching(start, held, [], {}, closed, reachable)
      requires Layered(start, held, [], closed, dist, level) && KeysAtDist(held, closed, dist, reachable)
      ensures Searched(start, held, reachable)
    {
      assert closed + {} == closed;
      forall ps | Walk(start, held, ps) && Fresh(ps[|ps| - 1], held)
        ensures Cell(ps[|ps| - 1]) in reachable
        ensures KeysUnique() ==> reachable[Cell(ps[|ps| - 1])] <= |ps| - 1
      {
        WalkStaysClosed(start, held, ps, closed);
      }
    }

    /** Each map of all is what Reachable promises from the robot at the
        same index. */
    ghost predicate AllFound(start: seq<Point>, held: set<char>, all: seq<map<char, int>>)
      requires Valid()
    {
      |all| == |start| && forall i :: 0 <= i < |start| ==> Searched(start[i], held, all[i])
    }

    lemma AllFoundSnoc(start: seq<Point>, held: set<char>, all: seq<map<char, int>>, p: Point, r: map<char, int>)
      requires Valid() && AllFound(start, held, all) && Searched(p, held, r)
      ensures AllFound(start + [p], held, all + [r])
    {
      var s', a' := start + [p], all + [r];
      forall i | 0 <= i < |s'|
        ensures Searched(s'[i], held, a'[i])
      {
        if i < |start| {
          assert s'[i] == start[i] && a'[i] == all[i];
        }
      }
    }

    /** ReachableN: the search from every robot. */
    method ReachableN(start: seq<Point>, held: set<char>) returns (all: seq<map<char, int>>)
      requires Valid() && forall i :: 0 <= i < |start| ==> Interior(start[i])
      ensures AllFound(start, held, all)
    {
      all := [];
      var i := 0;
      while i < |start|
        invariant 0 <= i <= |start| && AllFound(start[..i], held, all)
      {
        var r := Reachable(start[i], held);
        AllFoundSnoc(start[..i], held, all, start[i], r);
        assert start[..i + 1] == start[..i] + [start[i]];
        all := all + [r];
        i := i + 1;
      }
      assert start[..i] == start;
    }

    /** Salesman: the least total distance to collect the remaining keys,
        moving one robot at a time to a key it can reach (-1 when no order
        collects them all); 0 once as many keys are held as the maze has.
        The result is cached under the state text, and the held keys are
        as they were found. */
    method Salesman(start: seq<Point>, keys: KeySet) returns (r: int)
      requires Valid() && Cached() && forall i :: 0 <= i < |start| ==> Interior(start[i])
      modifies this, keys
      ensures keys.held == old(keys.held) && Cached() && r >= -1
      ensures |keys.held| >= |keyPos| ==> r == 0 && reCache == old(reCache)
      ensures |keys.held| < |keyPos| ==> StateKey(start, keys.held) in reCache && reCache[StateKey(start, keys.held)] == r
      ensures |keys.held| < |keyPos| && StateKey(start, keys.held) in old(reCache) ==> r == old(reCache)[StateKey(start, keys.held)]
      decreases |keyPos| - |keys.held|, 1
    {
      if |keys.held| >= |keyPos| {
        return 0;
      }
      var stateID := ToState(start, keys.held);
      if stateID in reCache {
        return reCache[stateID];
      }
      var minPath := -1;
      var all := ReachableN(start, keys.held);
      var n := 0;
      while n < |all|
        invariant 0 <= n <= |all| && keys.held == old(keys.held) && Cached() && minPath >= -1
      {
        minPath := TryKeys(start, n, all[n], keys, minPath);
        n := n + 1;
      }
      reCache := reCache[stateID := minPath];
      r := minPath;
    }

    /** The inner loop of Salesman for robot n: for every key it can reach,
        take the key, move the robot there, and keep the least total that
        is not negative. */
    method TryKeys(start: seq<Point>, n: int, reachable: map<char, int>, keys: KeySet, minPath: int) returns (m: int)
      requires Valid() && Cached() && forall i :: 0 <= i < |start| ==> Interior(start[i])
      requires 0 <= n < |start| && minPath >= -1 && |keys.held| < |keyPos|
      requires forall k :: k in reachable ==> k in keyPos && k !in keys.held && reachable[k] >= 0
      modifies this, keys
      ensures keys.held == old(keys.held) && Cached() && m >= -1
      ensures minPath >= 0 ==> 0 <= m <= minPath
      ensures m != minPath ==> exists k :: k in reachable && m >= reachable[k]
      decreases |keyPos| - |keys.held|, 0
    {
      m := minPath;
      var rest := reachable.Keys;
      while rest != {}
        invariant rest <= reachable.Keys && keys.held == old(keys.held) && Cached() && m >= -1
        invariant minPath >= 0 ==> 0 <= m <= minPath
        invariant m != minPath ==> exists k :: k in reachable && m >= reachable[k]
        decreases |rest|
      {
        var k :| k in rest;
        rest := rest - {k};
        KeyInside(k);
        var goal := keyPos[k];
        keys.held := keys.held + {k};
        var next := start[n := goal];
        var sub := Salesman(next, keys);
        keys.held := keys.held - {k};
        var candidate := Partial(reachable[k], sub);
        if candidate.None? {
          continue;
        }
        var partial := candidate.value;
        if m < 0 || partial < m {
          m := partial;
        }
      }
    }
  }
}
