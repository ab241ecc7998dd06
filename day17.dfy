/** Day 17: the vacuum robot on the scaffold. The camera picture is a grid
    of characters; the bot sums the alignment parameters of the scaffold
    intersections, then walks the scaffold (forward while it can, else
    turn left, else turn right) and writes the route with every run of
    forward steps collapsed into its length. Headings and single steps are
    those of the hull-painting robot. */
module Scaffold {
  import opened Num
  import Painting

  type Point = Painting.Point
  type Heading = Painting.Heading

  /** Every row as wide as the first. */
  predicate Rectangular(grid: seq<seq<char>>) {
    |grid| > 0 && forall y :: 0 <= y < |grid| ==> |grid[y]| == |grid[0]|
  }

  predicate HasBot(row: seq<char>) {
    exists x :: 0 <= x < |row| && row[x] == '^'
  }

  /** The search in NewBot: the bot is the first '^' of the last row that
      has one (the inner loop stops at the first, the outer one goes on);
      -1, -1 when there is none. */
  method Locate(grid: seq<seq<char>>) returns (botX: int, botY: int)
    ensures botY == -1 <==> forall y :: 0 <= y < |grid| ==> !HasBot(grid[y])
    ensures botY == -1 ==> botX == -1
    ensures botY != -1 ==> 0 <= botY < |grid| && 0 <= botX < |grid[botY]| && grid[botY][botX] == '^'
    ensures botY != -1 ==> forall x :: 0 <= x < botX ==> grid[botY][x] != '^'
    ensures botY != -1 ==> forall y :: botY < y < |grid| ==> !HasBot(grid[y])
  {
    botX, botY := -1, -1;
    var y := 0;
    while y < |grid|
      invariant 0 <= y <= |grid|
      invariant botY == -1 ==> botX == -1 && forall k :: 0 <= k < y ==> !HasBot(grid[k])
      invariant botY != -1 ==> 0 <= botY < y && 0 <= botX < |grid[botY]| && grid[botY][botX] == '^'
      invariant botY != -1 ==> (forall x :: 0 <= x < botX ==> grid[botY][x] != '^') && forall k :: botY < k < y ==> !HasBot(grid[k])
    {
      var row := grid[y];
      var x := 0;
      while x < |row|
        invariant 0 <= x <= |row|
        invariant forall k :: 0 <= k < x ==> row[k] != '^'
      {
        if row[x] == '^' {
          botX, botY := x, y;
          break;
        }
        x := x + 1;
      }
      y := y + 1;
    }
  }

  /** The route after the walk: what was written, where the bot ended,
      which way it faces, and whether it stopped because no scaffold was
      ahead, left or right (rather than because the step budget ran out). */
  datatype Walked = Walked(moves: seq<char>, at: Point, facing: Heading, stopped: bool)

  /** The walk r with the letters done written before its own. */
  function Prefixed(done: seq<char>, r: Walked): Walked {
    r.(moves := done + r.moves)
  }

  class Bot {
    const grid: seq<seq<char>>
    const w: int
    const h: int
    var x: int
    var y: int
    var dir: Heading

    /** The picture is rectangular and w, h are its width and height. */
    predicate Valid() {
      Rectangular(grid) && w == |grid[0]| && h == |grid|
    }

    /** NewBot: the picture, its size, the bot where Locate finds it, facing
        up. */
    constructor (grid: seq<seq<char>>)
      requires Rectangular(grid)
      ensures this.grid == grid && Valid() && dir == Painting.Up
      ensures y == -1 <==> forall k :: 0 <= k < |grid| ==> !HasBot(grid[k])
      ensures y == -1 ==> x == -1
      ensures y != -1 ==> 0 <= y < h && 0 <= x < w && grid[y][x] == '^'
    {
      var botX, botY := Locate(grid);
      this.grid := grid;
      w := |grid[0]|;
      h := |grid|;
      x, y := botX, botY;
      dir := Painting.Up;
    }

    predicate InBounds(x: int, y: int) {
      y < h && y >= 0 && x >= 0 && x < w
    }

    /** isPath: false outside the picture; inside it, true exactly on a
        '#' cell. */
    predicate IsPath(x: int, y: int)
      requires Valid()
      ensures IsPath(x, y) ==> InBounds(x, y)
      ensures InBounds(x, y) ==> (IsPath(x, y) <==> grid[y][x] == '#')
    {
      if !InBounds(x, y) then false else grid[y][x] == '#'
    }

    predicate IsPathAt(p: Point)
      requires Valid()
    {
      IsPath(p.x, p.y)
    }

    /** isIntersection: the cell and its four orthogonal neighbours are all
        scaffold. */
    predicate IsIntersection(x: int, y: int)
      requires Valid()
    {
      if !IsPath(x, y) then false
      else IsPath(x, y - 1) && IsPath(x, y + 1) && IsPath(x - 1, y) && IsPath(x + 1, y)
    }

    /** An intersection is a scaffold cell with scaffold one step along
        every heading, so it lies strictly inside the picture. */
    lemma IntersectionMeaning(x: int, y: int)
      requires Valid()
      ensures IsIntersection(x, y) <==>
        (IsPathAt(Painting.Point(x, y)) && forall d: Heading :: IsPathAt(Painting.Ahead(Painting.Point(x, y), d)))
      ensures IsIntersection(x, y) ==> 1 <= x < w - 1 && 1 <= y < h - 1
    {
      var p := Painting.Point(x, y);
      if IsPathAt(p) && forall d: Heading :: IsPathAt(Painting.Ahead(p, d)) {
        assert IsPathAt(Painting.Ahead(p, Painting.Up));
        assert IsPathAt(Painting.Ahead(p, Painting.Down));
        assert IsPathAt(Painting.Ahead(p, Painting.Left));
        assert IsPathAt(Painting.Ahead(p, Painting.Right));
      }
    }

    /** The alignment parameters x * y of the intersections among the first
        n cells of row y. */
    function RowSum(y: int, n: nat): int
      requires Valid() && 0 <= y < h && n <= w
    {
      if n == 0 then 0
      else RowSum(y, n - 1) + (if IsIntersection(n - 1, y) then (n - 1) * y else 0)
    }

    /** The same over the first m rows. */
    function GridSum(m: nat): int
      requires Valid() && m <= h
    {
      if m == 0 then 0 else GridSum(m - 1) + RowSum(m - 1, w)
    }

    /** Sum: the alignment parameters of all intersections. */
    method Sum() returns (sum: int)
      requires Valid()
      ensures sum == GridSum(h)
    {
      sum := 0;
      var y := 0;
      while y < |grid|
        invariant 0 <= y <= h && sum == GridSum(y)
      {
        var x := 0;
        ghost var rows := sum;
        while x < |grid[y]|
          invariant 0 <= x <= w && sum == rows + RowSum(y, x)
        {
          if IsIntersection(x, y) {
            sum := sum + x * y;
          }
          x := x + 1;
        }
        y := y + 1;
      }
    }

    lemma {:induction false} RowSumZero(y: int, n: nat)
      requires Valid() && 0 <= y < h && n <= w
      ensures RowSum(y, n) >= 0
      ensures RowSum(y, n) == 0 <==> forall k :: 0 <= k < n ==> !IsIntersection(k, y)
    {
      if n > 0 {
        RowSumZero(y, n - 1);
        if IsIntersection(n - 1, y) {
          IntersectionMeaning(n - 1, y);
          MulAtLeast(n - 1, y);
        }
      }
    }

    /** The sum is never negative, and it is zero exactly when the picture
        has no intersection (every intersection has x, y >= 1). */
    lemma {:induction false} SumZero(m: nat)
      requires Valid() && m <= h
      ensures GridSum(m) >= 0
      ensures GridSum(m) == 0 <==> forall y, x :: 0 <= y < m && 0 <= x < w ==> !IsIntersection(x, y)
    {
      if m > 0 {
        SumZero(m - 1);
        RowSumZero(m - 1, w);
        if GridSum(m) == 0 {
          forall y, x | 0 <= y < m && 0 <= x < w
            ensures !IsIntersection(x, y)
          {
            if y == m - 1 {
              assert RowSum(y, w) == 0;
            }
          }
        }
      }
    }

    /** getFLR: whether there is scaffold one step ahead, one step to the
        left and one step to the right of the bot. */
    function GetFLR(): (flr: (bool, bool, bool))
      requires Valid()
      reads this
      ensures flr.0 == IsPathAt(Painting.Ahead(Painting.Point(x, y), dir))
      ensures flr.1 == IsPathAt(Painting.Ahead(Painting.Point(x, y), Painting.TurnLeft(dir)))
      ensures flr.2 == IsPathAt(Painting.Ahead(Painting.Point(x, y), Painting.TurnRight(dir)))
    {
      match dir
      case Up => (IsPath(x, y - 1), IsPath(x - 1, y), IsPath(x + 1, y))
      case Down => (IsPath(x, y + 1), IsPath(x + 1, y), IsPath(x - 1, y))
      case Left => (IsPath(x - 1, y), IsPath(x, y + 1), IsPath(x, y - 1))
      case Right => (IsPath(x + 1, y), IsPath(x, y - 1), IsPath(x, y + 1))
    }

    /** forward: one step along the heading. */
    method Forward()
      modifies this
      ensures Painting.Point(x, y) == Painting.Ahead(old(Painting.Point(x, y)), dir)
      ensures dir == old(dir)
    {
      match dir {
        case Up => y := y - 1;
        case Down => y := y + 1;
        case Left => x := x - 1;
        case Right => x := x + 1;
      }
    }

    /** turnLeft: a quarter turn to the left in place. */
    method TurnLeft()
      modifies this
      ensures dir == Painting.TurnLeft(old(dir)) && x == old(x) && y == old(y)
    {
      match dir {
        case Up => dir := Painting.Left;
        case Down => dir := Painting.Right;
        case Left => dir := Painting.Down;
        case Right => dir := Painting.Up;
      }
    }

    /** turnRight: a quarter turn to the right in place. */
    method TurnRight()
      modifies this
      ensures dir == Painting.TurnRight(old(dir)) && x == old(x) && y == old(y)
    {
      match dir {
        case Up => dir := Painting.Right;
        case Down => dir := Painting.Left;
        case Left => dir := Painting.Up;
        case Right => dir := Painting.Down;
      }
    }

    /** One move of the walk: forward if there is scaffold ahead, else turn
        left if there is scaffold on the left, else turn right if there is
        scaffold on the right; none when there is scaffold in none of the
        three. */
    function Next(p: Point, d: Heading): Option<(char, Point, Heading)>
      requires Valid()
    {
      if IsPathAt(Painting.Ahead(p, d)) then Some(('F', Painting.Ahead(p, d), d))
      else if IsPathAt(Painting.Ahead(p, Painting.TurnLeft(d))) then Some(('L', p, Painting.TurnLeft(d)))
      else if IsPathAt(Painting.Ahead(p, Painting.TurnRight(d))) then Some(('R', p, Painting.TurnRight(d)))
      else None
    }

    /** A turn always faces scaffold, so the move after a turn is a step
        forward, onto scaffold. */
    lemma TurnThenForward(p: Point, d: Heading)
      requires Valid() && Next(p, d).Some? && Next(p, d).value.0 != 'F'
      ensures var n := Next(p, d).value; Next(n.1, n.2).Some? && Next(n.1, n.2).value.0 == 'F'
      ensures var n := Next(p, d).value; IsPathAt(Next(n.1, n.2).value.1)
    {
      Painting.TurnsInverse(d);
    }

    /** The walk from p facing d, taking at most fuel moves. */
    function Route(p: Point, d: Heading, fuel: nat): (r: Walked)
      requires Valid()
      decreases fuel
    {
      match Next(p, d)
      case None => Walked([], p, d, true)
      case Some(n) =>
        if fuel == 0 then Walked([], p, d, false)
        else
          var rest := Route(n.1, n.2, fuel - 1);
          rest.(moves := [n.0] + rest.moves)
    }

    /** The walk writes only F, L and R. */
    lemma {:induction false} RouteLetters(p: Point, d: Heading, fuel: nat)
      requires Valid()
      ensures forall c :: c in Route(p, d, fuel).moves ==> c in "FLR"
      decreases fuel
    {
      match Next(p, d)
      case None =>
      case Some(n) =>
        if fuel > 0 {
          RouteLetters(n.1, n.2, fuel - 1);
          var rest := Route(n.1, n.2, fuel - 1);
          assert Route(p, d, fuel).moves == [n.0] + rest.moves;
          assert n.0 in "FLR";
        }
    }

    /** The bot ends the walk where it started or on scaffold. */
    lemma {:induction false} RouteEndsOnPath(p: Point, d: Heading, fuel: nat)
      requires Valid()
      ensures var r := Route(p, d, fuel); r.at == p || IsPathAt(r.at)
      decreases fuel
    {
      match Next(p, d)
      case None =>
      case Some(n) =>
        if fuel > 0 {
          RouteEndsOnPath(n.1, n.2, fuel - 1);
          assert IsPathAt(n.1) || n.1 == p;
        }
    }

    /** Every letter other than F is followed by an F. */
    predicate TurnsFollowed(moves: seq<char>) {
      forall i :: 0 <= i < |moves| - 1 && moves[i] != 'F' ==> moves[i + 1] == 'F'
    }

    /** In a walk a turn is always followed by a step forward. */
    lemma {:induction false} RouteTurns(p: Point, d: Heading, fuel: nat)
      requires Valid()
      ensures TurnsFollowed(Route(p, d, fuel).moves)
      decreases fuel
    {
      match Next(p, d)
      case None =>
      case Some(n) =>
        if fuel > 0 {
          RouteTurns(n.1, n.2, fuel - 1);
          var rest := Route(n.1, n.2, fuel - 1);
          var moves := Route(p, d, fuel).moves;
          assert moves == [n.0] + rest.moves;
          if n.0 != 'F' && |rest.moves| > 0 {
            TurnThenForward(p, d);
            assert rest.moves[0] == 'F';
          }
          forall i | 1 <= i < |moves| - 1 && moves[i] != 'F'
            ensures moves[i + 1] == 'F'
          {
            assert moves[i] == rest.moves[i - 1] && moves[i + 1] == rest.moves[i];
          }
        }
    }

    /** A walk that stopped on its own did not end on a turn. */
    lemma {:induction false} RouteEndsForward(p: Point, d: Heading, fuel: nat)
      requires Valid()
      ensures var r := Route(p, d, fuel);
        r.stopped && |r.moves| > 0 ==> r.moves[|r.moves| - 1] == 'F'
      decreases fuel
    {
      match Next(p, d)
      case None =>
      case Some(n) =>
        if fuel > 0 {
          RouteEndsForward(n.1, n.2, fuel - 1);
          var rest := Route(n.1, n.2, fuel - 1);
          assert Route(p, d, fuel) == rest.(moves := [n.0] + rest.moves);
          if rest.stopped && n.0 != 'F' {
            TurnThenForward(p, d);
            assert fuel - 1 > 0;
            assert |rest.moves| > 0;
          }
        }
    }

    /** Taking one move of the walk writes its letter in front of the rest
        of the walk. */
    lemma RouteStep(p: Point, d: Heading, fuel: nat, done: seq<char>, c: char, q: Point, e: Heading)
      requires Valid() && fuel > 0 && Next(p, d) == Some((c, q, e))
      ensures Prefixed(done, Route(p, d, fuel)) == Prefixed(done + [c], Route(q, e, fuel - 1))
    {
      var r := Route(q, e, fuel - 1);
      assert done + ([c] + r.moves) == (done + [c]) + r.moves;
    }

    /** The walk ends where nothing is ahead, left or right, or where the
        fuel runs out. */
    lemma RouteEnd(done: seq<char>, p: Point, d: Heading, fuel: nat)
      requires Valid() && (Next(p, d).None? || fuel == 0)
      ensures Prefixed(done, Route(p, d, fuel)) == Walked(done, p, d, Next(p, d).None?)
    {
      assert done + [] == done;
    }

    /** One pass of the first loop of FindDirections, when some
        scaffold is ahead, left or right: the move Next prescribes. */
    method Move(flr: (bool, bool, bool)) returns (c: char)
      requires Valid() && flr == GetFLR() && (flr.0 || flr.1 || flr.2)
      modifies this
      ensures Next(old(Painting.Point(x, y)), old(dir)) == Some((c, Painting.Point(x, y), dir))
    {
      if flr.0 {
        Forward();
        c := 'F';
      } else if flr.1 {
        TurnLeft();
        c := 'L';
      } else {
        TurnRight();
        c := 'R';
      }
    }

    /** The first loop of FindDirections: move until no scaffold is ahead,
        left or right, writing one letter per move; at most fuel moves. */
    method Walk(fuel: nat) returns (moves: seq<char>, stopped: bool)
      requires Valid()
      modifies this
      ensures Route(old(Painting.Point(x, y)), old(dir), fuel) == Walked(moves, Painting.Point(x, y), dir, stopped)
    {
      moves := [];
      var left := fuel;
      ghost var route := Route(Painting.Point(x, y), dir, fuel);
      assert Prefixed([], route) == route;
      while true
        invariant route == Prefixed(moves, Route(Painting.Point(x, y), dir, left))
        decreases left
      {
        var flr := GetFLR();
        if !flr.0 && !flr.1 && !flr.2 {
          RouteEnd(moves, Painting.Point(x, y), dir, left);
          return moves, true;
        }
        if left == 0 {
          RouteEnd(moves, Painting.Point(x, y), dir, left);
          return moves, false;
        }
        ghost var here := Painting.Point(x, y);
        ghost var facing := dir;
        ghost var done := moves;
        var c := Move(flr);
        moves := moves + [c];
        RouteStep(here, facing, left, done, c, Painting.Point(x, y), dir);
        left := left - 1;
      }
    }

    /** FindDirections: the walk, written with its forward runs collapsed;
        the step budget bounds a walk that would go round a loop for ever. */
    method FindDirections(fuel: nat) returns (s: string, stopped: bool)
      requires Valid()
      modifies this
      ensures var r := Route(old(Painting.Point(x, y)), old(dir), fuel);
        s == Encoded(r.moves) && stopped == r.stopped && Painting.Point(x, y) == r.at && dir == r.facing
    {
      var moves;
      moves, stopped := Walk(fuel);
      s := RunLength(moves);
    }
  }

  // ---------------------------------------------------------------------
  // Run-length route text

  /** The number of leading 'F' moves. */
  function Lead(s: seq<char>): (k: nat)
    ensures k <= |s| && (|s| > 0 && s[0] == 'F' ==> k > 0)
  {
    if s == [] || s[0] != 'F' then 0 else 1 + Lead(s[1..])
  }

  /** Lead counts the whole leading run: all of it is forward moves, and
      the move after it is not. */
  lemma {:induction false} LeadMeaning(s: seq<char>)
    ensures (forall i :: 0 <= i < Lead(s) ==> s[i] == 'F') && (Lead(s) < |s| ==> s[Lead(s)] != 'F')
    decreases |s|
  {
    if s != [] && s[0] == 'F' {
      LeadMeaning(s[1..]);
    }
  }

  /** A token of the route text: a run of forward moves or a turn. */
  datatype Token = Run(n: nat) | Turn(c: char)

  /** The moves grouped into tokens, each maximal run of forward moves
      into one. */
  function Tokens(s: seq<char>): seq<Token>
    decreases |s|
  {
    if s == [] then []
    else if s[0] == 'F' then [Run(Lead(s))] + Tokens(s[Lead(s)..])
    else [Turn(s[0])] + Tokens(s[1..])
  }

  /** A token as written: the run length in decimal or the turn letter,
      then a comma. */
  function TokenText(t: Token): string {
    match t
    case Run(n) => Itoa(n) + [',']
    case Turn(c) => [c] + [',']
  }

  function Text(ts: seq<Token>): string
    decreases |ts|
  {
    if ts == [] then [] else Text(ts[..|ts| - 1]) + TokenText(ts[|ts| - 1])
  }

  /** The route text: each maximal run of k forward moves becomes the
      decimal k, every other move stays a letter, and every token is
      followed by a comma. */
  function Encoded(s: seq<char>): string {
    Text(Tokens(s))
  }

  /** The moves a token stands for. */
  function Stands(t: Token): seq<char> {
    match t
    case Run(n) => Forwards(n)
    case Turn(c) => [c]
  }

  /** The moves the tokens stand for. */
  function Spelled(ts: seq<Token>): seq<char>
    decreases |ts|
  {
    if ts == [] then [] else Stands(ts[0]) + Spelled(ts[1..])
  }

  function Forwards(n: nat): seq<char> {
    seq(n, _ => 'F')
  }

  lemma {:induction false} LeadOfRun(t: seq<char>, run: nat)
    requires run <= |t| && (forall i :: 0 <= i < run ==> t[i] == 'F') && (run < |t| ==> t[run] != 'F')
    ensures Lead(t) == run
    decreases run
  {
    if run > 0 {
      LeadOfRun(t[1..], run - 1);
    }
  }

  /** The token of a run of forward moves: none for an empty run. */
  function RunTokens(run: nat): seq<Token> {
    if run > 0 then [Run(run)] else []
  }

  /** A run of forward moves that ends at a turn or at the end gives its
      run token, then the tokens from there on. */
  lemma {:induction false} TokensAfterRun(moves: seq<char>, start: nat, i: nat)
    requires start <= i <= |moves| && (i < |moves| ==> moves[i] != 'F')
    requires forall k :: start <= k < i ==> moves[k] == 'F'
    ensures Tokens(moves[start..]) == RunTokens(i - start) + Tokens(moves[i..])
  {
    var t := moves[start..];
    if i > start {
      LeadOfRun(t, i - start);
      assert t[i - start..] == moves[i..];
    } else {
      assert t == moves[i..];
    }
  }

  lemma TextSnoc(ts: seq<Token>, t: Token)
    ensures Text(ts + [t]) == Text(ts) + TokenText(t)
  {
    assert (ts + [t])[..|ts|] == ts;
  }

  lemma Regroup<T>(a: seq<T>, b: seq<T>, c: seq<T>)
    ensures a + (b + c) == (a + b) + c
  {
  }

  /** What RunLength holds after reading moves[..i]: the text s written
      for the tokens done, and a pending run of forward moves from start
      on; the rest of the tokens follow from start. */
  predicate Scanned(moves: seq<char>, start: nat, i: nat, done: seq<Token>, s: string) {
    start <= i <= |moves| && (forall k :: start <= k < i ==> moves[k] == 'F') &&
    s == Text(done) && Tokens(moves) == done + Tokens(moves[start..])
  }

  /** Reading a forward move only lengthens the pending run. */
  lemma ScanForward(moves: seq<char>, start: nat, i: nat, done: seq<Token>, s: string)
    requires Scanned(moves, start, i, done, s) && i < |moves| && moves[i] == 'F'
    ensures Scanned(moves, start, i + 1, done, s)
  {
  }

  /** Reading a turn with no run pending writes the turn. */
  lemma ScanTurn(moves: seq<char>, i: nat, done: seq<Token>, s: string)
    requires Scanned(moves, i, i, done, s) && i < |moves| && moves[i] != 'F'
    ensures Scanned(moves, i + 1, i + 1, done + [Turn(moves[i])], s + [moves[i]] + [','])
  {
    TextSnoc(done, Turn(moves[i]));
    TokensAfterRun(moves, i, i);
    assert Tokens(moves[i..]) == [Turn(moves[i])] + Tokens(moves[i + 1..]) by {
      assert moves[i..][1..] == moves[i + 1..];
    }
    Regroup(done, [Turn(moves[i])], Tokens(moves[i + 1..]));
  }

  /** Writing the pending run before a turn or at the end (FindDirections
      does it in both places): its length in decimal and a comma, when the
      run is not empty. */
  method WriteRun(ghost moves: seq<char>, ghost start: nat, ghost i: nat, ghost done: seq<Token>, s: string, run: nat)
    returns (ghost done': seq<Token>, s': string)
    requires Scanned(moves, start, i, done, s) && run == i - start && (i < |moves| ==> moves[i] != 'F')
    ensures Scanned(moves, i, i, done', s')
  {
    TokensAfterRun(moves, start, i);
    if run > 0 {
      s' := s + Itoa(run);
      s' := s' + [','];
      done' := done + [Run(run)];
      TextSnoc(done, Run(run));
    } else {
      s', done' := s, done;
      assert RunTokens(run) == [];
    }
    Regroup(done, RunTokens(run), Tokens(moves[i..]));
  }

  /** The second loop of FindDirections: a running count of forward moves,
      flushed as its decimal text before the next turn and at the end. */
  method RunLength(moves: seq<char>) returns (s: string)
    ensures s == Encoded(moves)
  {
    s := [];
    var run := 0;
    var i := 0;
    ghost var start := 0;
    ghost var done: seq<Token> := [];
    assert moves[0..] == moves;
    while i < |moves|
      invariant run == i - start && Scanned(moves, start, i, done, s)
    {
      var c := moves[i];
      if c == 'F' {
        ScanForward(moves, start, i, done, s);
        run := run + 1;
        i := i + 1;
        continue;
      }
      done, s := WriteRun(moves, start, i, done, s, run);
      run := 0;
      ScanTurn(moves, i, done, s);
      s := s + [c];
      s := s + [','];
      done := done + [Turn(c)];
      i := i + 1;
      start := i;
    }
    done, s := WriteRun(moves, start, i, done, s, run);
    assert moves[i..] == [] && done + [] == done;
  }

  /** The moves are their leading run of forward moves followed by the
      rest. */
  lemma LeadSplit(moves: seq<char>)
    ensures moves == Forwards(Lead(moves)) + moves[Lead(moves)..]
  {
    var k := Lead(moves);
    LeadMeaning(moves);
    assert moves[..k] == Forwards(k);
    assert moves == moves[..k] + moves[k..];
  }

  /** Spelling a token in front of others writes its moves in front. */
  lemma SpelledCons(t: Token, ts: seq<Token>)
    ensures Spelled([t] + ts) == Stands(t) + Spelled(ts)
  {
    assert ([t] + ts)[1..] == ts;
  }

  /** Grouping loses no move: the tokens spell the moves back. */
  lemma {:induction false} SpelledTokens(moves: seq<char>)
    ensures Spelled(Tokens(moves)) == moves
    decreases |moves|
  {
    if moves != [] {
      if moves[0] == 'F' {
        var k := Lead(moves);
        SpelledTokens(moves[k..]);
        SpelledCons(Run(k), Tokens(moves[k..]));
        LeadSplit(moves);
      } else {
        SpelledTokens(moves[1..]);
        SpelledCons(Turn(moves[0]), Tokens(moves[1..]));
        assert moves == [moves[0]] + moves[1..];
      }
    }
  }

  /** Tokens of moves over F, L and R are well formed: runs are not empty,
      turns are L or R, and no run follows another (runs are maximal). */
  predicate WellFormed(ts: seq<Token>) {
    (forall i :: 0 <= i < |ts| ==> (ts[i].Run? ==> ts[i].n > 0) && (ts[i].Turn? ==> ts[i].c in "LR")) &&
    forall i :: 0 <= i < |ts| - 1 && ts[i].Run? ==> ts[i + 1].Turn?
  }

  lemma {:induction false} TokensWellFormed(moves: seq<char>)
    requires forall i :: 0 <= i < |moves| ==> moves[i] in "FLR"
    ensures WellFormed(Tokens(moves))
    decreases |moves|
  {
    if moves != [] {
      if moves[0] == 'F' {
        var k := Lead(moves);
        TokensWellFormed(moves[k..]);
        LeadMeaning(moves);
        var rest := Tokens(moves[k..]);
        assert rest != [] ==> rest[0].Turn?;
        assert Tokens(moves) == [Run(k)] + rest;
      } else {
        TokensWellFormed(moves[1..]);
        assert Tokens(moves) == [Turn(moves[0])] + Tokens(moves[1..]);
      }
    }
  }

  // ---------------------------------------------------------------------
  // Reading the route text back

  /** Where the first comma is, or the length when there is none. */
  function CommaAt(s: string): (k: nat)
    ensures k <= |s|
  {
    if s == [] || s[0] == ',' then 0 else 1 + CommaAt(s[1..])
  }

  /** Expands the route text: a number token into that many forward moves,
      any other token as it stands. */
  function Expand(s: string): seq<char>
    decreases |s|
  {
    if s == [] then []
    else
      var k := CommaAt(s);
      var tok := s[..k];
      var rest := if k < |s| then s[k + 1..] else [];
      (if |tok| > 0 && AllDigits(tok) then Forwards(DigitsValue(tok)) else tok) + Expand(rest)
  }

  lemma {:induction false} CommaAfter(tok: string, rest: string)
    requires forall i :: 0 <= i < |tok| ==> tok[i] != ','
    ensures CommaAt(tok + [','] + rest) == |tok|
    decreases |tok|
  {
    if tok != [] {
      CommaAfter(tok[1..], rest);
      assert (tok + [','] + rest)[1..] == tok[1..] + [','] + rest;
    }
  }

  lemma ExpandToken(tok: string, rest: string)
    requires |tok| > 0 && forall i :: 0 <= i < |tok| ==> tok[i] != ','
    ensures Expand(tok + [','] + rest) ==
      (if AllDigits(tok) then Forwards(DigitsValue(tok)) else tok) + Expand(rest)
  {
    var s := tok + [','] + rest;
    CommaAfter(tok, rest);
    assert s[..|tok|] == tok;
    assert s[|tok| + 1..] == rest;
  }

  /** A well-formed token reads back from its text. */
  lemma ExpandTokenText(t: Token, rest: string)
    requires (t.Run? ==> t.n > 0) && (t.Turn? ==> t.c in "LR")
    ensures Expand(TokenText(t) + rest) == Stands(t) + Expand(rest)
  {
    match t
    case Run(n) =>
      assert TokenText(t) + rest == NatDigits(n) + [','] + rest;
      ExpandToken(NatDigits(n), rest);
      DigitsRoundTrip(n);
    case Turn(c) =>
      assert !IsDigit(c);
      ExpandToken([c], rest);
  }

  lemma {:induction false} TextCons(ts: seq<Token>)
    requires |ts| > 0
    ensures Text(ts) == TokenText(ts[0]) + Text(ts[1..])
    decreases |ts|
  {
    if |ts| > 1 {
      var f := ts[..|ts| - 1];
      TextCons(f);
      assert f[1..] == ts[1..][..|ts| - 2];
    } else {
      assert ts[..0] == [] && ts[1..] == [];
    }
  }

  lemma {:induction false} ExpandText(ts: seq<Token>)
    requires forall i :: 0 <= i < |ts| ==> (ts[i].Run? ==> ts[i].n > 0) && (ts[i].Turn? ==> ts[i].c in "LR")
    ensures Expand(Text(ts)) == Spelled(ts)
    decreases |ts|
  {
    if ts != [] {
      TextCons(ts);
      ExpandText(ts[1..]);
      ExpandTokenText(ts[0], Text(ts[1..]));
    }
  }

  /** Expanding the route text gives back the moves: no run is lost or
      merged with its neighbours. */
  lemma ExpandEncoded(moves: seq<char>)
    requires forall i :: 0 <= i < |moves| ==> moves[i] in "FLR"
    ensures Expand(Encoded(moves)) == moves
  {
    TokensWellFormed(moves);
    ExpandText(Tokens(moves));
    SpelledTokens(moves);
  }

  /** So the text of a walk reads back as the walk itself. */
  lemma DirectionsReadBack(b: Bot, p: Point, d: Heading, fuel: nat)
    requires b.Valid()
    ensures Expand(Encoded(b.Route(p, d, fuel).moves)) == b.Route(p, d, fuel).moves
  {
    b.RouteLetters(p, d, fuel);
    ExpandEncoded(b.Route(p, d, fuel).moves);
  }
}
