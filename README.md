# Game of Life simulation core in Dafny

This project models the simulation core of `GameOfLife.java`, a Swing version of
Conway's Game of Life on the unbounded integer plane. The board is one hash set
of live cells, `aliveCells`. Three operations change it in place:

- `toggleCell` flips one cell.
- `clearField` empties the board.
- `nextGeneration` advances one step of the B3/S23 rule over the Moore
  neighbourhood.

A step has two phases. First it collects the candidates: every live cell and
its 8 neighbours. Then it decides each candidate, counting neighbours with
`countAliveNeighbors` against the old board, into a fresh set. Only after that
does it clear the board and add the new generation.

## Layout

- `life.dfy`, module `Life`: the rule stated on values. It defines `Point`, the
  3x3 `Block` around a cell, the `Moore` neighbourhood, `Neighbours` (the 8
  neighbours in the order the source probes them), the sequential count
  `CountIn`/`LiveNeighbours`, `Candidates`, the predicate `Lives` (B3/S23),
  `Survivors`, `NextGen`, `Toggle` and `Translate`.
- `life_properties.dfy`, module `LifeProperties`: lemmas about those
  definitions. They cover the neighbourhood's shape and size, the count against
  set cardinality, the candidate set, the cell-by-cell rule for `NextGen`,
  locality, an empty board, a lone cell, translation invariance and toggling
  twice.
- `sweep.dfy`, module `Sweep`: progress measures for the nested offset loops of
  the board. `BlockBefore` is the part of a 3x3 block the candidate sweep has
  visited, and `ProbeIndex` is how many neighbours the count has probed.
- `board.dfy`, module `Board`: class `GameOfLife`. Its field
  `aliveCells: set<Point>` is updated by methods that follow the Java loops.
  The Java `nextGeneration` is split into its two phases. `CollectCandidates`
  holds the first loop nest and `ApplyRule` the rule loop. Neither has a
  `modifies` clause, so the board is provably unchanged while neighbours are
  counted. `NextGeneration` calls both, then replaces the board.
- `life_patterns.dfy`, module `LifePatterns`: worked patterns at any position.
  The 2x2 block is a still life, the blinker has period 2, and an L of three
  cells gives birth to the fourth corner.

Iteration over a `HashSet` is modelled by picking an arbitrary unvisited element
(`:|`). Every proof therefore holds for any iteration order.

The step does not install a new set. It refills the same `HashSet` with `clear`
and `addAll` (GameOfLife.java:150-151). `NextGeneration` models that as two
assignments to the field.

## Model

| member | source | states |
|---|---|---|
| `Board.GameOfLife.constructor` | GameOfLife.java:17 | A new board holds no live cell. |
| `Board.GameOfLife.ToggleCell` | GameOfLife.java:105-115 | The toggled cell's membership flips. Every other cell keeps its membership. The new board equals `Toggle(old board, cell)`. |
| `Board.GameOfLife.CountAliveNeighbors` | GameOfLife.java:156-171 | The result equals the number of live cells among the 8 neighbours, so it lies in 0..8. The centre offset is skipped with `continue`, as in the source. |
| `Board.GameOfLife.CollectCandidates` | GameOfLife.java:122-134 | The result is exactly the candidate set of the board: every live cell with its 3x3 block. It contains every live cell. The board is not changed. |
| `Board.GameOfLife.ApplyRule` | GameOfLife.java:136-148 | The result is exactly those candidates that the B3/S23 rule keeps or makes alive. Neighbours are counted on the unchanged board. No cell outside the candidates is added. |
| `Board.GameOfLife.NextGeneration` | GameOfLife.java:120-151 | The new board is `NextGen(old board)`. A cell is alive afterwards iff it was alive with 2 or 3 live neighbours in the old board, or dead with exactly 3. |
| `Board.GameOfLife.ClearField` | GameOfLife.java:174-176 | The board is empty afterwards, whatever it held before. |
| `Life.Toggle` | GameOfLife.java:105-115 | The toggled cell's membership is the opposite of before. Every other cell's membership is unchanged. |
| `Life.CountIn` | GameOfLife.java:158-170 | A count over a list of cells never exceeds the list's length. |
| `LifeProperties.ToggleTwice` | GameOfLife.java:105-115 | Toggling the same cell twice restores the original set. |
| `LifeProperties.MooreIsAdjacency` | GameOfLife.java:159-163 | A cell is in the Moore neighbourhood of c iff it is at Chebyshev distance exactly 1 from c. The offset (0, 0) is excluded. |
| `LifeProperties.MooreSize` | GameOfLife.java:159-163 | The neighbourhood has exactly 8 cells. |
| `LifeProperties.CountInIsSize` | GameOfLife.java:158-170 | Counting a list of distinct cells one at a time gives the size of its live part. |
| `LifeProperties.LiveNeighboursIsSize` | GameOfLife.java:156-171 | The offset-by-offset count equals the number of live cells in the Moore neighbourhood. |
| `LifeProperties.LiveNeighboursBound` | GameOfLife.java:156-171 | The neighbour count is at most 8. It does not depend on whether the cell itself is live. |
| `LifeProperties.CountInPrefix` | GameOfLife.java:164-167 | Probing one more neighbour adds 1 exactly when that neighbour is live. |
| `Sweep.ProbeStep` | GameOfLife.java:159-163 | Each non-centre offset of the nested loops probes the next neighbour in order. The sweep ends after all 8. |
| `LifeProperties.CandidatesExactly` | GameOfLife.java:123-134 | A cell is a candidate iff it is live or a Moore neighbour of a live cell. Equivalently, it is within distance 1 of a live cell. |
| `LifeProperties.LiveCellsAreCandidates` | GameOfLife.java:123 | Every live cell is a candidate. |
| `LifeProperties.CandidatesAdd` | GameOfLife.java:125-134 | Sweeping one more live cell adds exactly its 3x3 block to the candidates. |
| `LifeProperties.OutsideCandidatesIsQuiet` | GameOfLife.java:123-148 | A cell outside the candidates is dead and has no live neighbour, so the rule cannot make it alive. The candidate loop therefore covers every possible birth. |
| `LifeProperties.SurvivorsAdd` | GameOfLife.java:137-148 | Deciding one more candidate adds it to the new set iff the rule holds for it. |
| `LifeProperties.NextGenRule` | GameOfLife.java:137-148 | For every cell of the plane, it is in `NextGen(s)` iff it was alive with 2 or 3 live neighbours in s, or dead with exactly 3. |
| `LifeProperties.NextGenNear` | GameOfLife.java:123-148 | Every cell of the next generation lies within distance 1 of a cell of the old one. |
| `LifeProperties.EmptyStaysEmpty` | GameOfLife.java:122-151 | Advancing an empty board gives an empty board. |
| `LifeProperties.LonelyCellDies` | GameOfLife.java:137-148 | A single live cell dies, and nothing is born around it. |
| `LifeProperties.TranslateNeighbours` | GameOfLife.java:159-168 | Moving the board and the cell by the same offset keeps the neighbour count. |
| `LifeProperties.NextGenTranslate` | GameOfLife.java:120-171 | Advancing commutes with translation, because the rule depends only on relative positions. |
| `LifePatterns.SquareIsStill` | GameOfLife.java:137-148 | A 2x2 block at any position is unchanged by a step. |
| `LifePatterns.BlinkerTurns` | GameOfLife.java:137-148 | A vertical line of three cells becomes the horizontal line through its centre. |
| `LifePatterns.BlinkerTurnsBack` | GameOfLife.java:137-148 | The horizontal line of three becomes the vertical line again. |
| `LifePatterns.BlinkerPeriodTwo` | GameOfLife.java:120-151 | Two steps bring the blinker back. One step does not. |
| `LifePatterns.LShapeBirth` | GameOfLife.java:144-146 | Three live cells in an L make the fourth corner of their square come alive. |

## Left out

- Swing construction and layout: the frame, panels, buttons, `pack` and `setVisible` (GameOfLife.java:23-75). This is user-interface plumbing.
- Drawing: `drawGrid`, `drawCells` and every `gamePanel.repaint()` call (GameOfLife.java:78-102, 116, 152, 177). These are rendering side effects. The visible-window test in `drawCells` filters only what is drawn, not the board.
- Mouse handling: the conversion `e.getX() / cellSize` (GameOfLife.java:46). `ToggleCell` takes cell coordinates directly.
- Animation: the `Timer` and `toggleAnimation` (GameOfLife.java:74, 238-248). Timers and event-thread scheduling are not modelled.
- `resizeField` and `changeCellSize` (GameOfLife.java:181-235). They consist of input dialogs, `Integer.parseInt` on user input and layout updates. The 6-256 and 4-64 range checks configure the display only. Note that `resizeField` calls `clearField` on success, which `ClearField` covers.
- 32-bit overflow: coordinates are unbounded integers. In Java, `cell.x + dx` and `x + dx` (GameOfLife.java:131, 164) wrap around at the edge of `int`. The source does not handle this, and the model does not capture the wrap.
- Object identity of the `HashSet`: the field holds a set value. The model does not capture aliasing of the Java set object, and the source creates none.
