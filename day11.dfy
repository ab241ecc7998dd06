/** Day 11: the hull-painting robot. It keeps its position, its heading, the
    colours it has painted and the bounding box of the cells it has stood
    on; the machine tells it which colour to paint and which way to turn
    before each step forward. */
module Painting {
  import opened Num

  datatype Point = Point(x: int, y: int)

  /** The four headings; Up decreases y. */
  datatype Heading = Up | Down | Left | Right

  const Black := 0
  const White := 1

  /** The heading after a quarter turn to the left. */
  function TurnLeft(d: Heading): Heading {
    match d
    case Up => Left
    case Down => Right
    case Left => Down
    case Right => Up
  }

  /** The heading after a quarter turn to the right. */
  function TurnRight(d: Heading): Heading {
    match d
    case Up => Right
    case Down => Left
    case Left => Up
    case Right => Down
  }

  /** Turning right undoes turning left and the other way round; four turns
      the same way come back to the start, and every heading is reached
      from Up by some number of left turns. */
  lemma TurnsInverse(d: Heading)
    ensures TurnRight(TurnLeft(d)) == d && TurnLeft(TurnRight(d)) == d
    ensures TurnLeft(TurnLeft(TurnLeft(TurnLeft(d)))) == d
    ensures TurnRight(TurnRight(TurnRight(TurnRight(d)))) == d
    ensures TurnLeft(TurnLeft(d)) == TurnRight(TurnRight(d)) != d
  {
  }

  /** The cell one step along the heading. */
  function Ahead(p: Point, d: Heading): (q: Point)
    ensures Abs(q.x - p.x) + Abs(q.y - p.y) == 1
    ensures d == Up ==> q == Point(p.x, p.y - 1)
    ensures d == Down ==> q == Point(p.x, p.y + 1)
    ensures d == Left ==> q == Point(p.x - 1, p.y)
    ensures d == Right ==> q == Point(p.x + 1, p.y)
  {
    match d
    case Up => Point(p.x, p.y - 1)
    case Down => Point(p.x, p.y + 1)
    case Left => Point(p.x - 1, p.y)
    case Right => Point(p.x + 1, p.y)
  }

  /** Turning around and stepping back returns to the cell. */
  lemma AheadBack(p: Point, d: Heading)
    ensures Ahead(Ahead(p, d), TurnLeft(TurnLeft(d))) == p
  {
  }

  class Robot {
    var x: int
    var y: int
    var dir: Heading
    var board: map<Point, int>
    var maxXL: int
    var maxXR: int
    var maxYT: int
    var maxYB: int

    /** The box holds the start, the robot and every painted cell, and
        every painted colour is black or white. */
    ghost predicate Valid()
      reads this
    {
      maxXL <= 0 <= maxXR && maxYT <= 0 <= maxYB &&
      InBox(Point(x, y)) &&
      forall p :: p in board ==> InBox(p) && board[p] in {Black, White}
    }

    predicate InBox(p: Point)
      reads this
    {
      maxXL <= p.x <= maxXR && maxYT <= p.y <= maxYB
    }

    /** NewRobot: at the origin facing up on an unpainted hull. */
    constructor ()
      ensures x == 0 && y == 0 && dir == Up && board == map[]
      ensures maxXL == 0 && maxXR == 0 && maxYT == 0 && maxYB == 0
      ensures Valid()
    {
      x, y, dir, board := 0, 0, Up, map[];
      maxXL, maxXR, maxYT, maxYB := 0, 0, 0, 0;
    }

    /** getPaint: the colour of the robot's cell; black if never painted. */
    function GetPaint(): (c: int)
      reads this
      ensures Point(x, y) !in board ==> c == Black
      ensures Valid() ==> c in {Black, White}
    {
      var p := Point(x, y);
      if p in board then board[p] else Black
    }

    /** paint: a colour other than black or white is refused (the program
        stops there) and nothing changes; otherwise only the robot's cell
        takes the colour, which getPaint then reports. */
    method Paint(color: int) returns (ok: bool)
      requires Valid()
      modifies this
      ensures ok <==> color in {Black, White}
      ensures ok ==> board == old(board)[Point(x, y) := color] && GetPaint() == color
      ensures !ok ==> board == old(board)
      ensures x == old(x) && y == old(y) && dir == old(dir)
      ensures maxXL == old(maxXL) && maxXR == old(maxXR) && maxYT == old(maxYT) && maxYB == old(maxYB)
      ensures Valid()
    {
      if color != Black && color != White {
        return false;
      }
      board := board[Point(x, y) := color];
      ok := true;
    }

    /** turn: code 0 turns left and code 1 turns right; any other code is
        refused (the program stops there) and nothing changes. */
    method Turn(turn: int) returns (ok: bool)
      requires Valid()
      modifies this
      ensures ok <==> turn == 0 || turn == 1
      ensures dir == (if turn == 0 then TurnLeft(old(dir)) else if turn == 1 then TurnRight(old(dir)) else old(dir))
      ensures x == old(x) && y == old(y) && board == old(board)
      ensures maxXL == old(maxXL) && maxXR == old(maxXR) && maxYT == old(maxYT) && maxYB == old(maxYB)
      ensures Valid()
    {
      match turn {
        case 0 =>
          match dir {
            case Up => dir := Left;
            case Down => dir := Right;
            case Left => dir := Down;
            case Right => dir := Up;
          }
          ok := true;
        case 1 =>
          match dir {
            case Up => dir := Right;
            case Down => dir := Left;
            case Left => dir := Up;
            case Right => dir := Down;
          }
          ok := true;
        case _ =>
          ok := false;
      }
    }

    /** forward: one step along the heading; the box only widens, just
        enough to keep the robot inside. */
    method Forward()
      requires Valid()
      modifies this
      ensures Point(x, y) == Ahead(old(Point(x, y)), dir)
      ensures dir == old(dir) && board == old(board)
      ensures maxXL == Min(old(maxXL), x) && maxXR == Max(old(maxXR), x)
      ensures maxYT == Min(old(maxYT), y) && maxYB == Max(old(maxYB), y)
      ensures Valid()
    {
      match dir {
        case Up =>
          y := y - 1;
          if y < maxYT {
            maxYT := y;
          }
        case Down =>
          y := y + 1;
          if y > maxYB {
            maxYB := y;
          }
        case Left =>
          x := x - 1;
          if x < maxXL {
            maxXL := x;
          }
        case Right =>
          x := x + 1;
          if x > maxXR {
            maxXR := x;
          }
      }
      assert maxXL <= old(maxXL) && old(maxXR) <= maxXR && maxYT <= old(maxYT) && old(maxYB) <= maxYB;
      forall p | p in board
        ensures InBox(p)
      {
        assert old(InBox(p));
      }
    }
  }

  function Min(a: int, b: int): int {
    if a <= b then a else b
  }

  function Max(a: int, b: int): int {
    if a >= b then a else b
  }
}
