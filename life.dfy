/**
 * The rule of Conway's Game of Life (B3/S23) on the unbounded integer plane,
 * stated on values: a generation is a finite set of live cells.
 *
 * These definitions are the specification the board class is proved against.
 */
module Life {

  /** A cell of the plane; two cells are equal iff both coordinates match. */
  datatype Point = Point(x: int, y: int)

  /** The cell at offset (dx, dy) from c. */
  function Shift(c: Point, dx: int, dy: int): Point
  {
    Point(c.x + dx, c.y + dy)
  }

  /** q lies within Chebyshev distance 1 of c (q == c included). */
  predicate Near(c: Point, q: Point)
  {
    -1 <= q.x - c.x <= 1 && -1 <= q.y - c.y <= 1
  }

  /** q is one of the 8 Moore neighbours of c. */
  predicate Adjacent(c: Point, q: Point)
  {
    Near(c, q) && q != c
  }

  /** The 3x3 block centred on c: every Shift(c, dx, dy) with |dx|, |dy| <= 1. */
  function Block(c: Point): set<Point>
  {
    set dx, dy | -1 <= dx <= 1 && -1 <= dy <= 1 :: Shift(c, dx, dy)
  }

  /** The Moore neighbourhood of c: its 3x3 block without c itself. */
  function Moore(c: Point): set<Point>
  {
    Block(c) - {c}
  }

  /** The 8 neighbours of c, in the order the offsets (dx, dy) are probed. */
  function Neighbours(c: Point): seq<Point>
  {
    [Shift(c, -1, -1), Shift(c, -1, 0), Shift(c, -1, 1),
     Shift(c, 0, -1), Shift(c, 0, 1),
     Shift(c, 1, -1), Shift(c, 1, 0), Shift(c, 1, 1)]
  }

  /** How many of the cells listed in ps are live in s. */
  function CountIn(s: set<Point>, ps: seq<Point>): (r: nat)
    ensures r <= |ps|
  {
    if ps == [] then 0 else (if ps[0] in s then 1 else 0) + CountIn(s, ps[1..])
  }

  /** Number of live cells of s among the 8 neighbours of c. */
  function LiveNeighbours(s: set<Point>, c: Point): nat
  {
    CountIn(s, Neighbours(c))
  }

  /** Every live cell together with its 8 neighbours. */
  function Candidates(s: set<Point>): set<Point>
  {
    set c, dx, dy | c in s && -1 <= dx <= 1 && -1 <= dy <= 1 :: Shift(c, dx, dy)
  }

  /** B3/S23: a live cell survives with 2 or 3 live neighbours, a dead one is born with exactly 3. */
  predicate Lives(alive: bool, neighbours: nat)
  {
    (alive && (neighbours == 2 || neighbours == 3)) || (!alive && neighbours == 3)
  }

  /** The cells of `cells` that are alive in the generation after s. */
  function Survivors(s: set<Point>, cells: set<Point>): set<Point>
  {
    set q | q in cells && Lives(q in s, LiveNeighbours(s, q))
  }

  /** The next generation: the candidates that satisfy the rule against s. */
  function NextGen(s: set<Point>): set<Point>
  {
    Survivors(s, Candidates(s))
  }

  /** Flip the membership of p; every other cell keeps its state. */
  function Toggle(s: set<Point>, p: Point): (r: set<Point>)
    ensures p in r <==> p !in s
    ensures r - {p} == s - {p}
  {
    if p in s then s - {p} else s + {p}
  }

  /** All cells of s moved by (dx, dy). */
  function Translate(s: set<Point>, dx: int, dy: int): set<Point>
  {
    set c | c in s :: Shift(c, dx, dy)
  }
}
