/**
 * Progress measures for the nested offset loops of the board: how much of a
 * 3x3 block the candidate sweep has visited, and how many neighbours the
 * count has probed, at each (dx, dy) of "for dx in -1..1, for dy in -1..1".
 */
module Sweep {
  import opened Life

  /**
   * The cells of Block(c) whose offset (a, b) comes before (dx, dy) in the
   * order of the nested loops "for a in -1..1, for b in -1..1".
   */
  function BlockBefore(c: Point, dx: int, dy: int): set<Point>
  {
    set a, b | -1 <= a <= 1 && -1 <= b <= 1 && (a < dx || (a == dx && b < dy)) :: Shift(c, a, b)
  }

  /** One step of the inner sweep visits exactly one new cell of the block. */
  lemma BlockBeforeStep(c: Point, dx: int, dy: int)
    requires -1 <= dx <= 1 && -1 <= dy <= 1
    ensures Shift(c, dx, dy) !in BlockBefore(c, dx, dy)
    ensures BlockBefore(c, dx, dy + 1) == BlockBefore(c, dx, dy) + {Shift(c, dx, dy)}
  {
  }

  /** Finishing a row of the sweep is the same as starting the next one. */
  lemma BlockBeforeRow(c: Point, dx: int)
    requires -1 <= dx <= 1
    ensures BlockBefore(c, dx, 2) == BlockBefore(c, dx + 1, -1)
  {
  }

  /** After the last row the whole block has been visited. */
  lemma BlockBeforeEnd(c: Point)
    ensures BlockBefore(c, 2, -1) == Block(c)
  {
  }

  /**
   * The number of neighbours probed before offset (dx, dy) in the order of
   * the nested loops "for dx in -1..1, for dy in -1..1", the centre (0, 0)
   * being skipped.
   */
  function ProbeIndex(dx: int, dy: int): int
  {
    3 * (dx + 1) + (dy + 1) - (if dx > 0 || (dx == 0 && dy > 0) then 1 else 0)
  }

  /** Probing a non-centre offset looks at the next cell of Neighbours(c). */
  lemma ProbeStep(c: Point, dx: int, dy: int)
    requires -1 <= dx <= 1 && -1 <= dy <= 1 && (dx != 0 || dy != 0)
    ensures 0 <= ProbeIndex(dx, dy) < 8
    ensures ProbeIndex(dx, dy + 1) == ProbeIndex(dx, dy) + 1
    ensures Neighbours(c)[ProbeIndex(dx, dy)] == Shift(c, dx, dy)
  {
  }
}
