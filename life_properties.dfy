/**
 * Properties of the B3/S23 rule as defined in module Life: the shape of the
 * neighbourhood, the bound on neighbour counts, the candidate set, and the
 * facts about NextGen that the board relies on.
 */
module LifeProperties {
  import opened Life

  /** The Moore neighbourhood is exactly the cells at Chebyshev distance 1. */
  lemma MooreIsAdjacency(c: Point, q: Point)
    ensures q in Moore(c) <==> Adjacent(c, q)
  {
    if Adjacent(c, q) {
      assert q == Shift(c, q.x - c.x, q.y - c.y);
    }
  }

  /** A subset is never larger than its superset. */
  lemma SubsetSize(a: set<Point>, b: set<Point>)
    requires a <= b
    ensures |a| <= |b|
  {
    assert b == a + (b - a);
  }

  /** The Moore neighbourhood, listed cell by cell. */
  lemma MooreListed(c: Point)
    ensures Moore(c) == {Point(c.x - 1, c.y - 1), Point(c.x - 1, c.y), Point(c.x - 1, c.y + 1),
                         Point(c.x, c.y - 1), Point(c.x, c.y + 1),
                         Point(c.x + 1, c.y - 1), Point(c.x + 1, c.y), Point(c.x + 1, c.y + 1)}
  {
    forall q ensures q in Moore(c) <==> Adjacent(c, q) {
      MooreIsAdjacency(c, q);
    }
  }

  /** The Moore neighbourhood has exactly 8 cells. */
  lemma MooreSize(c: Point)
    ensures |Moore(c)| == 8
  {
    MooreListed(c);
  }

  /** The cells listed in ps, as a set. */
  function Elements(ps: seq<Point>): set<Point>
  {
    set p | p in ps
  }

  /** No cell is listed twice in ps. */
  predicate Distinct(ps: seq<Point>)
  {
    forall i, j :: 0 <= i < j < |ps| ==> ps[i] != ps[j]
  }

  /** Splitting the head off a list of distinct cells. */
  lemma ElementsCons(ps: seq<Point>)
    requires ps != [] && Distinct(ps)
    ensures Distinct(ps[1..])
    ensures ps[0] !in Elements(ps[1..])
    ensures Elements(ps) == {ps[0]} + Elements(ps[1..])
  {
    var rest := ps[1..];
    forall i, j | 0 <= i < j < |rest| ensures rest[i] != rest[j] {
      assert rest[i] == ps[i + 1] && rest[j] == ps[j + 1];
    }
    forall j | 0 <= j < |rest| ensures rest[j] != ps[0] {
      assert rest[j] == ps[j + 1];
    }
    assert ps == [ps[0]] + rest;
  }

  /** Adding a cell h to a set e adds one to its live part iff h is live. */
  lemma MeetAdd(s: set<Point>, h: Point, e: set<Point>)
    requires h !in e
    ensures |s * ({h} + e)| == |s * e| + (if h in s then 1 else 0)
  {
    if h in s {
      assert s * ({h} + e) == {h} + s * e;
    } else {
      assert s * ({h} + e) == s * e;
    }
  }

  /** Counting a list of distinct cells one by one gives the size of its live part. */
  lemma {:induction false} CountInIsSize(s: set<Point>, ps: seq<Point>)
    requires Distinct(ps)
    ensures CountIn(s, ps) == |s * Elements(ps)|
    decreases |ps|
  {
    if ps == [] {
      assert Elements(ps) == {};
    } else {
      ElementsCons(ps);
      CountInIsSize(s, ps[1..]);
      MeetAdd(s, ps[0], Elements(ps[1..]));
    }
  }

  /** The probe order lists each Moore neighbour exactly once. */
  lemma NeighboursListMoore(c: Point)
    ensures Distinct(Neighbours(c))
    ensures Elements(Neighbours(c)) == Moore(c)
  {
    MooreListed(c);
  }

  /**
   * The neighbour count, taken offset by offset, is the number of live cells
   * in the Moore neighbourhood.
   */
  lemma LiveNeighboursIsSize(s: set<Point>, c: Point)
    ensures LiveNeighbours(s, c) == |s * Moore(c)|
  {
    NeighboursListMoore(c);
    CountInIsSize(s, Neighbours(c));
  }

  /** A neighbour count never exceeds 8, and the cell itself is never counted. */
  lemma LiveNeighboursBound(s: set<Point>, c: Point)
    ensures LiveNeighbours(s, c) <= 8
    ensures LiveNeighbours(s, c) == LiveNeighbours(s - {c}, c)
  {
    LiveNeighboursIsSize(s, c);
    LiveNeighboursIsSize(s - {c}, c);
    MooreSize(c);
    SubsetSize(s * Moore(c), Moore(c));
    assert s * Moore(c) == (s - {c}) * Moore(c);
  }

  /**
   * The candidate set is exactly the live cells together with all their
   * Moore neighbours.
   */
  lemma CandidatesExactly(s: set<Point>, q: Point)
    ensures q in Candidates(s) <==> q in s || exists c :: c in s && q in Moore(c)
    ensures q in Candidates(s) <==> exists c :: c in s && Near(c, q)
  {
    if q in s {
      assert q == Shift(q, 0, 0);
    }
    if c :| c in s && Near(c, q) {
      assert q == Shift(c, q.x - c.x, q.y - c.y);
      MooreIsAdjacency(c, q);
    }
    if c :| c in s && q in Moore(c) {
      MooreIsAdjacency(c, q);
    }
  }

  /** Every live cell is a candidate. */
  lemma LiveCellsAreCandidates(s: set<Point>)
    ensures s <= Candidates(s)
  {
    forall q | q in s ensures q in Candidates(s) {
      assert q == Shift(q, 0, 0);
    }
  }

  /** Seeding the candidates with the live cells adds nothing new. */
  lemma CandidatesAbsorbLive(s: set<Point>)
    ensures s + Candidates(s) == Candidates(s)
  {
    LiveCellsAreCandidates(s);
  }

  /**
   * A cell outside the candidate set is dead and has no live neighbour, so
   * the rule can never bring it to life.
   */
  lemma OutsideCandidatesIsQuiet(s: set<Point>, q: Point)
    requires q !in Candidates(s)
    ensures q !in s && LiveNeighbours(s, q) == 0
    ensures !Lives(q in s, LiveNeighbours(s, q))
  {
    LiveCellsAreCandidates(s);
    forall c | c in s * Moore(q) ensures false {
      MooreIsAdjacency(q, c);
      CandidatesExactly(s, q);
    }
    assert s * Moore(q) == {};
    LiveNeighboursIsSize(s, q);
  }

  /**
   * The rule holds of every cell of the plane: a cell is alive in the next
   * generation iff it was alive with 2 or 3 live neighbours, or dead with
   * exactly 3, neighbours being counted in s.
   */
  lemma NextGenRule(s: set<Point>, q: Point)
    ensures q in NextGen(s) <==> Lives(q in s, LiveNeighbours(s, q))
    ensures q in NextGen(s) <==>
              (q in s && (LiveNeighbours(s, q) == 2 || LiveNeighbours(s, q) == 3)) ||
              (q !in s && LiveNeighbours(s, q) == 3)
  {
    if q !in Candidates(s) {
      OutsideCandidatesIsQuiet(s, q);
    }
  }

  /** Every cell of the next generation lies within distance 1 of a live cell. */
  lemma NextGenNear(s: set<Point>, q: Point)
    ensures q in NextGen(s) ==> exists c :: c in s && Near(c, q)
  {
    CandidatesExactly(s, q);
  }

  /** An empty board stays empty. */
  lemma EmptyStaysEmpty()
    ensures NextGen({}) == {}
  {
    forall q | q in NextGen({}) ensures false {
      NextGenNear({}, q);
    }
  }

  /** A single live cell has no live neighbour and dies; nothing is born around it. */
  lemma LonelyCellDies(c: Point)
    ensures NextGen({c}) == {}
  {
    forall q | q in NextGen({c}) ensures false {
      LiveNeighboursIsSize({c}, q);
      SubsetSize({c} * Moore(q), {c});
    }
  }

  /** Counting one more cell of a list adds one iff that cell is live. */
  lemma {:induction false} CountInPrefix(s: set<Point>, ps: seq<Point>, k: nat)
    requires k < |ps|
    ensures CountIn(s, ps[..k + 1]) == CountIn(s, ps[..k]) + (if ps[k] in s then 1 else 0)
    decreases k
  {
    if k == 0 {
      assert ps[..1] == [ps[0]];
      assert ps[..1][1..] == [];
    } else {
      CountInPrefix(s, ps[1..], k - 1);
      assert ps[..k + 1][1..] == ps[1..][..k];
      assert ps[..k][1..] == ps[1..][..k - 1];
    }
  }

  /** Adding a live cell adds its 3x3 block to the candidates. */
  lemma CandidatesAdd(s: set<Point>, c: Point)
    ensures Candidates(s + {c}) == Candidates(s) + Block(c)
  {
  }

  /** Deciding one more cell adds it to the survivors iff the rule keeps it alive. */
  lemma SurvivorsAdd(s: set<Point>, cells: set<Point>, c: Point)
    ensures Survivors(s, cells + {c})
         == Survivors(s, cells) + (if Lives(c in s, LiveNeighbours(s, c)) then {c} else {})
  {
  }

  /** Translating a set does not change its size. */
  lemma {:induction false} TranslateSize(s: set<Point>, dx: int, dy: int)
    ensures |Translate(s, dx, dy)| == |s|
    decreases |s|
  {
    if s != {} {
      var c :| c in s;
      var rest := s - {c};
      TranslateSize(rest, dx, dy);
      assert Translate(s, dx, dy) == Translate(rest, dx, dy) + {Shift(c, dx, dy)};
      assert Shift(c, dx, dy) !in Translate(rest, dx, dy);
    } else {
      assert Translate(s, dx, dy) == {};
    }
  }

  /** q is in the translated set iff its preimage is in s. */
  lemma TranslateMember(s: set<Point>, dx: int, dy: int, q: Point)
    ensures q in Translate(s, dx, dy) <==> Shift(q, -dx, -dy) in s
  {
    if Shift(q, -dx, -dy) in s {
      assert q == Shift(Shift(q, -dx, -dy), dx, dy);
    }
  }

  /** Neighbour counts depend only on relative positions. */
  lemma TranslateNeighbours(s: set<Point>, dx: int, dy: int, q: Point)
    ensures LiveNeighbours(Translate(s, dx, dy), Shift(q, dx, dy)) == LiveNeighbours(s, q)
  {
    var t := Translate(s, dx, dy);
    var q' := Shift(q, dx, dy);
    forall p ensures p in t * Moore(q') <==> p in Translate(s * Moore(q), dx, dy) {
      TranslateMember(s, dx, dy, p);
      TranslateMember(s * Moore(q), dx, dy, p);
      MooreIsAdjacency(q', p);
      MooreIsAdjacency(q, Shift(p, -dx, -dy));
    }
    assert t * Moore(q') == Translate(s * Moore(q), dx, dy);
    TranslateSize(s * Moore(q), dx, dy);
    LiveNeighboursIsSize(s, q);
    LiveNeighboursIsSize(t, q');
  }

  /** The rule is translation invariant: advancing commutes with moving the pattern. */
  lemma NextGenTranslate(s: set<Point>, dx: int, dy: int)
    ensures NextGen(Translate(s, dx, dy)) == Translate(NextGen(s), dx, dy)
  {
    var t := Translate(s, dx, dy);
    forall q' ensures q' in NextGen(t) <==> q' in Translate(NextGen(s), dx, dy) {
      var q := Shift(q', -dx, -dy);
      assert q' == Shift(q, dx, dy);
      NextGenRule(t, q');
      NextGenRule(s, q);
      TranslateMember(s, dx, dy, q');
      TranslateMember(NextGen(s), dx, dy, q');
      TranslateNeighbours(s, dx, dy, q);
    }
  }

  /** Toggling the same cell twice restores the board. */
  lemma ToggleTwice(s: set<Point>, p: Point)
    ensures Toggle(Toggle(s, p), p) == s
  {
  }
}
