/**
 * The board of the game: one mutable set of live cells, changed in place by
 * toggling a cell, clearing the field, or advancing one generation.
 */
module Board {
  import opened Life
  import opened LifeProperties
  import opened Sweep

  class GameOfLife {
    /** The live cells of the current generation; a cell is alive iff it is here. */
    var aliveCells: set<Point>

    /** A new board starts empty. */
    constructor ()
      ensures aliveCells == {}
    {
      aliveCells := {};
    }

    /** Flip the state of cell (x, y); every other cell keeps its state. */
    method ToggleCell(x: int, y: int)
      modifies this
      ensures aliveCells == Toggle(old(aliveCells), Point(x, y))
      ensures Point(x, y) in aliveCells <==> Point(x, y) !in old(aliveCells)
      ensures forall q :: q != Point(x, y) ==> (q in aliveCells <==> q in old(aliveCells))
    {
      var cell := Point(x, y);
      if cell in aliveCells {
        aliveCells := aliveCells - {cell};
      } else {
        aliveCells := aliveCells + {cell};
      }
    }

    /**
     * Count the live cells among the 8 neighbours of (x, y) by probing each
     * offset of the 3x3 block except (0, 0).
     */
    method CountAliveNeighbors(x: int, y: int) returns (count: int)
      ensures count == LiveNeighbours(aliveCells, Point(x, y))
      ensures 0 <= count <= 8
    {
      var p := Point(x, y);
      count := 0;
      for dx := -1 to 2
        invariant count == CountIn(aliveCells, Neighbours(p)[..ProbeIndex(dx, -1)])
      {
        for dy := -1 to 2
          invariant count == CountIn(aliveCells, Neighbours(p)[..ProbeIndex(dx, dy)])
        {
          if dx == 0 && dy == 0 {
            continue;  // a cell is not its own neighbour
          }
          ProbeStep(p, dx, dy);
          CountInPrefix(aliveCells, Neighbours(p), ProbeIndex(dx, dy));
          if Shift(p, dx, dy) in aliveCells {
            count := count + 1;
          }
        }
      }
      assert Neighbours(p)[..ProbeIndex(2, -1)] == Neighbours(p);
    }

    /**
     * Phase one of a generation step: every live cell together with its 8
     * neighbours, collected by sweeping the 3x3 block around each live cell.
     */
    method CollectCandidates() returns (candidates: set<Point>)
      ensures candidates == Candidates(aliveCells)
      ensures aliveCells <= candidates
    {
      candidates := aliveCells;
      var pending := aliveCells;  // live cells whose block is not swept yet
      while pending != {}
        invariant pending <= aliveCells
        invariant candidates == aliveCells + Candidates(aliveCells - pending)
        decreases pending
      {
        var cell :| cell in pending;
        CandidatesAdd(aliveCells - pending, cell);
        assert aliveCells - (pending - {cell}) == (aliveCells - pending) + {cell};
        for dx := -1 to 2
          invariant candidates == aliveCells + Candidates(aliveCells - pending) + BlockBefore(cell, dx, -1)
        {
          for dy := -1 to 2
            invariant candidates == aliveCells + Candidates(aliveCells - pending) + BlockBefore(cell, dx, dy)
          {
            BlockBeforeStep(cell, dx, dy);
            candidates := candidates + {Shift(cell, dx, dy)};
          }
          BlockBeforeRow(cell, dx);
        }
        BlockBeforeEnd(cell);
        pending := pending - {cell};
      }
      assert aliveCells - pending == aliveCells;
      CandidatesAbsorbLive(aliveCells);
    }

    /**
     * Phase two of a generation step: decide every candidate by the B3/S23
     * rule, counting its neighbours on the current board, into a fresh set.
     * The board itself is not changed.
     */
    method ApplyRule(candidates: set<Point>) returns (newAliveCells: set<Point>)
      ensures newAliveCells == Survivors(aliveCells, candidates)
      ensures newAliveCells <= candidates
    {
      newAliveCells := {};
      var unvisited := candidates;
      ghost var decided: set<Point> := {};
      while unvisited != {}
        invariant unvisited !! decided && unvisited + decided == candidates
        invariant newAliveCells == Survivors(aliveCells, decided)
        decreases unvisited
      {
        var cell :| cell in unvisited;
        var neighbors := CountAliveNeighbors(cell.x, cell.y);
        if cell in aliveCells && (neighbors == 2 || neighbors == 3) {
          newAliveCells := newAliveCells + {cell};
        } else if cell !in aliveCells && neighbors == 3 {
          newAliveCells := newAliveCells + {cell};
        }
        SurvivorsAdd(aliveCells, decided, cell);
        decided := decided + {cell};
        unvisited := unvisited - {cell};
      }
    }

    /**
     * Advance one generation: collect the candidates, decide each of them
     * against the current board into a fresh set, and only then replace the
     * board by clearing it and adding every cell of the new generation.
     */
    method NextGeneration()
      modifies this
      ensures aliveCells == NextGen(old(aliveCells))
      ensures forall c :: c in aliveCells <==> Lives(c in old(aliveCells), LiveNeighbours(old(aliveCells), c))
    {
      var candidates := CollectCandidates();
      var newAliveCells := ApplyRule(candidates);
      aliveCells := {};
      aliveCells := aliveCells + newAliveCells;
      forall c ensures c in aliveCells <==> Lives(c in old(aliveCells), LiveNeighbours(old(aliveCells), c)) {
        NextGenRule(old(aliveCells), c);
      }
    }

    /** Empty the board, whatever it held. */
    method ClearField()
      modifies this
      ensures aliveCells == {}
    {
      aliveCells := {};
    }
  }
}
