/**
 * Worked patterns of the B3/S23 rule: a still life, an oscillator and a
 * birth, each checked against NextGen.
 */
module LifePatterns {
  import opened Life
  import opened LifeProperties

  /** 1 if c is live in s, else 0. */
  function Alive(s: set<Point>, c: Point): nat
  {
    if c in s then 1 else 0
  }

  /** The live neighbours of c written out as a sum over the 8 offsets. */
  function AroundSum(s: set<Point>, c: Point): nat
  {
    Alive(s, Point(c.x - 1, c.y - 1)) + Alive(s, Point(c.x - 1, c.y)) + Alive(s, Point(c.x - 1, c.y + 1))
    + Alive(s, Point(c.x, c.y - 1)) + Alive(s, Point(c.x, c.y + 1))
    + Alive(s, Point(c.x + 1, c.y - 1)) + Alive(s, Point(c.x + 1, c.y)) + Alive(s, Point(c.x + 1, c.y + 1))
  }

  /** The neighbour count equals the written-out sum. */
  lemma LiveNeighboursSum(s: set<Point>, c: Point)
    ensures LiveNeighbours(s, c) == AroundSum(s, c)
  {
    var ns := Neighbours(c);
    assert CountIn(s, ns[7..]) == Alive(s, ns[7]) by { assert ns[7..][1..] == []; }
    assert CountIn(s, ns[6..]) == Alive(s, ns[6]) + CountIn(s, ns[7..]) by { assert ns[6..][1..] == ns[7..]; }
    assert CountIn(s, ns[5..]) == Alive(s, ns[5]) + CountIn(s, ns[6..]) by { assert ns[5..][1..] == ns[6..]; }
    assert CountIn(s, ns[4..]) == Alive(s, ns[4]) + CountIn(s, ns[5..]) by { assert ns[4..][1..] == ns[5..]; }
    assert CountIn(s, ns[3..]) == Alive(s, ns[3]) + CountIn(s, ns[4..]) by { assert ns[3..][1..] == ns[4..]; }
    assert CountIn(s, ns[2..]) == Alive(s, ns[2]) + CountIn(s, ns[3..]) by { assert ns[2..][1..] == ns[3..]; }
    assert CountIn(s, ns[1..]) == Alive(s, ns[1]) + CountIn(s, ns[2..]) by { assert ns[1..][1..] == ns[2..]; }
  }

  /**
   * Reduces a claim about one generation step of the pattern s to a claim
   * about the written-out sums: q is in NextGen(s) iff the rule holds of the
   * sum at q.
   */
  lemma NextGenBySum(s: set<Point>, q: Point)
    ensures q in NextGen(s) <==> Lives(q in s, AroundSum(s, q))
  {
    NextGenRule(s, q);
    LiveNeighboursSum(s, q);
  }

  /** The 2x2 block with lower corner (x, y). */
  function Square(x: int, y: int): set<Point>
  {
    {Point(x, y), Point(x + 1, y), Point(x, y + 1), Point(x + 1, y + 1)}
  }

  /** Each cell of the square sees the other 3; each cell around it sees at most 2. */
  lemma SquareSums(x: int, y: int, q: Point)
    requires x - 1 <= q.x <= x + 2 && y - 1 <= q.y <= y + 2
    ensures q in Square(x, y) ==> AroundSum(Square(x, y), q) == 3
    ensures q !in Square(x, y) ==> AroundSum(Square(x, y), q) <= 2
  {
  }

  /** Every cell of the square survives; no cell around it is born. */
  lemma SquareCell(x: int, y: int, q: Point)
    ensures q in NextGen(Square(x, y)) <==> q in Square(x, y)
  {
    NextGenBySum(Square(x, y), q);
    if q in NextGen(Square(x, y)) {
      NextGenNear(Square(x, y), q);
      SquareSums(x, y, q);
    }
    if q in Square(x, y) {
      SquareSums(x, y, q);
    }
  }

  /** A 2x2 block is a still life: advancing it gives the same block. */
  lemma SquareIsStill(x: int, y: int)
    ensures NextGen(Square(x, y)) == Square(x, y)
  {
    forall q ensures q in NextGen(Square(x, y)) <==> q in Square(x, y) {
      SquareCell(x, y, q);
    }
  }

  /** A blinker standing upright: cells (x, y - 1), (x, y) and (x, y + 1). */
  function Upright(x: int, y: int): set<Point>
  {
    {Point(x, y - 1), Point(x, y), Point(x, y + 1)}
  }

  /** The same blinker lying flat: cells (x - 1, y), (x, y) and (x + 1, y). */
  function Flat(x: int, y: int): set<Point>
  {
    {Point(x - 1, y), Point(x, y), Point(x + 1, y)}
  }

  /** Near the upright blinker, exactly the cells of the flat one satisfy the rule. */
  lemma UprightSums(x: int, y: int, q: Point)
    requires x - 1 <= q.x <= x + 1 && y - 2 <= q.y <= y + 2
    ensures Lives(q in Upright(x, y), AroundSum(Upright(x, y), q)) <==> q in Flat(x, y)
  {
  }

  /** Near the flat blinker, exactly the cells of the upright one satisfy the rule. */
  lemma FlatSums(x: int, y: int, q: Point)
    requires x - 2 <= q.x <= x + 2 && y - 1 <= q.y <= y + 1
    ensures Lives(q in Flat(x, y), AroundSum(Flat(x, y), q)) <==> q in Upright(x, y)
  {
  }

  /** A cell is alive after the upright blinker iff it is in the flat one. */
  lemma UprightCell(x: int, y: int, q: Point)
    ensures q in NextGen(Upright(x, y)) <==> q in Flat(x, y)
  {
    NextGenBySum(Upright(x, y), q);
    if q in NextGen(Upright(x, y)) {
      NextGenNear(Upright(x, y), q);
      UprightSums(x, y, q);
    }
    if q in Flat(x, y) {
      UprightSums(x, y, q);
    }
  }

  /** A cell is alive after the flat blinker iff it is in the upright one. */
  lemma FlatCell(x: int, y: int, q: Point)
    ensures q in NextGen(Flat(x, y)) <==> q in Upright(x, y)
  {
    NextGenBySum(Flat(x, y), q);
    if q in NextGen(Flat(x, y)) {
      NextGenNear(Flat(x, y), q);
      FlatSums(x, y, q);
    }
    if q in Upright(x, y) {
      FlatSums(x, y, q);
    }
  }

  /** An upright blinker turns flat. */
  lemma BlinkerTurns(x: int, y: int)
    ensures NextGen(Upright(x, y)) == Flat(x, y)
  {
    forall q ensures q in NextGen(Upright(x, y)) <==> q in Flat(x, y) {
      UprightCell(x, y, q);
    }
  }

  /** A flat blinker turns upright again. */
  lemma BlinkerTurnsBack(x: int, y: int)
    ensures NextGen(Flat(x, y)) == Upright(x, y)
  {
    forall q ensures q in NextGen(Flat(x, y)) <==> q in Upright(x, y) {
      FlatCell(x, y, q);
    }
  }

  /** The blinker has period 2: two steps bring it back. */
  lemma BlinkerPeriodTwo(x: int, y: int)
    ensures NextGen(NextGen(Upright(x, y))) == Upright(x, y)
    ensures NextGen(Upright(x, y)) != Upright(x, y)
  {
    assert Point(x, y - 1) in Upright(x, y) && Point(x, y - 1) !in Flat(x, y);
    BlinkerTurns(x, y);
    BlinkerTurnsBack(x, y);
  }

  /** Three cells in an L give birth to the fourth corner of their square. */
  lemma LShapeBirth(x: int, y: int)
    ensures Point(x + 1, y + 1) in NextGen({Point(x, y), Point(x + 1, y), Point(x, y + 1)})
  {
    NextGenBySum({Point(x, y), Point(x + 1, y), Point(x, y + 1)}, Point(x + 1, y + 1));
  }
}
