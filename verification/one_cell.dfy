/**
 * The single-cell inorganic automaton: cells move one at a time, in place.
 * For each movement angle in enumeration order, a worklist of the cells
 * allowed to move that far is drained; a cell that moves marks its
 * destination as updated and puts its neighbours back on the worklist.
 *
 * The angles, each state's largest angle and the "is empty for" relation
 * between states are not defined in InorganicCA.java or
 * InorganicCAOneCell.java: they are the parameters in `Physics`, constrained
 * only by `Assumed`.
 */
module OneCell {
  import opened Cells
  import opened Inorganic

  /** A movement angle: its position in the enumeration and its displacement. */
  datatype Angle = Angle(ordinal: nat, dx: int, dy: int)

  /** A grid coordinate: `x` is the row and `y` the column. */
  datatype Point = Point(x: int, y: int)

  datatype Option<T> = None | Some(value: T)

  /**
   * The members of Angle and CellState the engine relies on:
   * `angles` is Angle.values(), `none` is Angle.NONE, `isBiggerThan(a, b)`
   * is a.isBiggerThan(b), `maxAngle(s)` is s.maxAngle and
   * `isEmptyFor(t, s)` is t.isEmptyFor(s) (a cell holding t may receive s).
   */
  datatype Physics = Physics(
    angles: seq<Angle>,
    none: Angle,
    isBiggerThan: (Angle, Angle) -> bool,
    maxAngle: CellState -> Angle,
    isEmptyFor: (CellState, CellState) -> bool)

  /**
   * What this model assumes of them: the angles are the enumeration
   * (ordinal k at position k, so no two alike) and contain NONE,
   * isBiggerThan is a strict order, no state is empty for itself, and
   * WALL is empty for nothing.
   */
  ghost predicate Assumed(ph: Physics)
  {
    && (forall k :: 0 <= k < |ph.angles| ==> ph.angles[k].ordinal == k)
    && ph.none in ph.angles
    && (forall a :: !ph.isBiggerThan(a, a))
    && (forall a, b, c :: ph.isBiggerThan(a, b) && ph.isBiggerThan(b, c) ==> ph.isBiggerThan(a, c))
    && (forall s :: !ph.isEmptyFor(s, s))
    && (forall s :: !ph.isEmptyFor(Wall, s))
  }

  /** q is one of the up to eight cells around p. */
  predicate Adjacent(p: Point, q: Point)
  {
    q != p && -1 <= q.x - p.x <= 1 && -1 <= q.y - p.y <= 1
  }

  /** p comes strictly before q in row-major order. */
  predicate RowMajorBefore(p: Point, q: Point)
  {
    p.x < q.x || (p.x == q.x && p.y < q.y)
  }

  /**
   * Where the cell at (i, j) of `g` moves at `angle`, if anywhere: nowhere
   * when the angle is bigger than its state's largest angle; otherwise into
   * row i + dy, column j + dx if that cell is empty for it, else column
   * j - dx if that one is, else nowhere.
   */
  function MoveTarget(ph: Physics, g: seq<CellState>, width: nat, height: nat, i: int, j: int, angle: Angle): (r: Option<Point>)
    requires |g| == width * height && Assumed(ph)
    ensures ph.isBiggerThan(angle, ph.maxAngle(At(g, width, height, i, j))) ==> r == None
    ensures r.Some? ==>
      && InBounds(width, height, r.value.x, r.value.y)
      && r.value != Point(i, j)
      && r.value.x == i + angle.dy
      && (r.value.y == j + angle.dx || r.value.y == j - angle.dx)
      && ph.isEmptyFor(At(g, width, height, r.value.x, r.value.y), At(g, width, height, i, j))
    // the mirror column is tried only when the first one refuses
    ensures r == Some(Point(i + angle.dy, j - angle.dx)) && angle.dx != 0 ==>
      !ph.isEmptyFor(At(g, width, height, i + angle.dy, j + angle.dx), At(g, width, height, i, j))
    // and a target that accepts is not passed over
    ensures !ph.isBiggerThan(angle, ph.maxAngle(At(g, width, height, i, j)))
            && ph.isEmptyFor(At(g, width, height, i + angle.dy, j + angle.dx), At(g, width, height, i, j))
            ==> r == Some(Point(i + angle.dy, j + angle.dx))
    ensures !ph.isBiggerThan(angle, ph.maxAngle(At(g, width, height, i, j)))
            && !ph.isEmptyFor(At(g, width, height, i + angle.dy, j + angle.dx), At(g, width, height, i, j))
            && ph.isEmptyFor(At(g, width, height, i + angle.dy, j - angle.dx), At(g, width, height, i, j))
            ==> r == Some(Point(i + angle.dy, j - angle.dx))
  {
    var here := At(g, width, height, i, j);
    if ph.isBiggerThan(angle, ph.maxAngle(here)) then None
    else if ph.isEmptyFor(At(g, width, height, i + angle.dy, j + angle.dx), here) then
      Some(Point(i + angle.dy, j + angle.dx))
    else if ph.isEmptyFor(At(g, width, height, i + angle.dy, j - angle.dx), here) then
      Some(Point(i + angle.dy, j - angle.dx))
    else None
  }

  /** The cell at q of `g` may move at `angle`: the angle is not bigger than its state's largest. */
  predicate MayMove(ph: Physics, g: seq<CellState>, width: nat, height: nat, q: Point, angle: Angle)
    requires |g| == width * height
  {
    !ph.isBiggerThan(angle, ph.maxAngle(At(g, width, height, q.x, q.y)))
  }

  /** A sequence without repeats, all of whose elements lie in `s`, is no longer than `s` is large. */
  lemma {:induction false} NoLongerThanSet(ps: seq<Point>, s: set<Point>)
    requires forall a, b :: 0 <= a < b < |ps| ==> ps[a] != ps[b]
    requires forall q :: q in ps ==> q in s
    ensures |ps| <= |s|
  {
    if ps != [] {
      var last := ps[|ps| - 1];
      var init := ps[..|ps| - 1];
      forall q | q in init
        ensures q in s - {last}
      {
        var a :| 0 <= a < |init| && init[a] == q;
        assert ps[a] != ps[|ps| - 1];
      }
      NoLongerThanSet(init, s - {last});
    }
  }

  /** A point has at most eight neighbours, so a list of distinct neighbours has at most eight entries. */
  lemma AtMostEightNeighbours(p: Point, ns: seq<Point>)
    requires forall a, b :: 0 <= a < b < |ns| ==> RowMajorBefore(ns[a], ns[b])
    requires forall q :: q in ns ==> Adjacent(p, q)
    ensures |ns| <= 8
  {
    var around := {Point(p.x - 1, p.y - 1), Point(p.x - 1, p.y), Point(p.x - 1, p.y + 1),
                   Point(p.x, p.y - 1), Point(p.x, p.y + 1),
                   Point(p.x + 1, p.y - 1), Point(p.x + 1, p.y), Point(p.x + 1, p.y + 1)};
    forall q | q in ns
      ensures q in around
    {
    }
    NoLongerThanSet(ns, around);
  }

  /** Java's Math.max and Math.min. */
  function Max(a: int, b: int): (m: int)
    ensures m >= a && m >= b && (m == a || m == b)
  {
    if a >= b then a else b
  }

  function Min(a: int, b: int): (m: int)
    ensures m <= a && m <= b && (m == a || m == b)
  {
    if a <= b then a else b
  }

  /**
   * Which points a grid scan keeps: every point but the centre (the
   * neighbour list), or the cells of `g` that may move at `angle` (the
   * worklist).
   */
  datatype Selector =
    | AllBut(centre: Point)
    | MayMoveAt(ph: Physics, g: seq<CellState>, width: nat, height: nat, angle: Angle)

  predicate Selects(keep: Selector, q: Point)
  {
    match keep
    case AllBut(centre) => q != centre
    case MayMoveAt(ph, g, width, height, angle) => |g| == width * height && MayMove(ph, g, width, height, q, angle)
  }

  /** The points of row i, from column j up to but excluding hiJ, that `keep` selects, left to right. */
  function ScanRow(keep: Selector, i: int, j: int, hiJ: int): seq<Point>
    decreases hiJ - j
  {
    if j >= hiJ then []
    else (if Selects(keep, Point(i, j)) then [Point(i, j)] else []) + ScanRow(keep, i, j + 1, hiJ)
  }

  /** The points of rows i .. hiI-1 and columns loJ .. hiJ-1 that `keep` selects, in row-major order. */
  function Scan(keep: Selector, i: int, hiI: int, loJ: int, hiJ: int): seq<Point>
    decreases hiI - i
  {
    if i >= hiI then []
    else ScanRow(keep, i, loJ, hiJ) + Scan(keep, i + 1, hiI, loJ, hiJ)
  }

  /** A row scan lists exactly the selected points of its range. */
  lemma {:induction false} ScanRowMembers(keep: Selector, i: int, j: int, hiJ: int)
    ensures forall q :: q in ScanRow(keep, i, j, hiJ) <==> q.x == i && j <= q.y < hiJ && Selects(keep, q)
    decreases hiJ - j
  {
    if j < hiJ {
      ScanRowMembers(keep, i, j + 1, hiJ);
      var head := if Selects(keep, Point(i, j)) then [Point(i, j)] else [];
      assert ScanRow(keep, i, j, hiJ) == head + ScanRow(keep, i, j + 1, hiJ);
    }
  }

  /** A row scan lists its points left to right. */
  lemma {:induction false} ScanRowIncreasing(keep: Selector, i: int, j: int, hiJ: int)
    ensures forall a, b :: 0 <= a < b < |ScanRow(keep, i, j, hiJ)| ==>
      ScanRow(keep, i, j, hiJ)[a].y < ScanRow(keep, i, j, hiJ)[b].y
    decreases hiJ - j
  {
    if j < hiJ {
      ScanRowIncreasing(keep, i, j + 1, hiJ);
      ScanRowMembers(keep, i, j + 1, hiJ);
      var head := if Selects(keep, Point(i, j)) then [Point(i, j)] else [];
      var rest := ScanRow(keep, i, j + 1, hiJ);
      var row := head + rest;
      assert ScanRow(keep, i, j, hiJ) == row;
      forall a, b | 0 <= a < b < |row|
        ensures row[a].y < row[b].y
      {
        if a < |head| {
          assert row[a] == Point(i, j);
          assert row[b] == rest[b - |head|];
          assert rest[b - |head|] in rest;
        } else {
          assert row[a] == rest[a - |head|] && row[b] == rest[b - |head|];
        }
      }
    }
  }

  /** A scan lists exactly the selected points of its rectangle, in strict row-major order. */
  lemma {:induction false} ScanSpec(keep: Selector, i: int, hiI: int, loJ: int, hiJ: int)
    ensures forall q :: q in Scan(keep, i, hiI, loJ, hiJ) <==>
      i <= q.x < hiI && loJ <= q.y < hiJ && Selects(keep, q)
    ensures forall a, b :: 0 <= a < b < |Scan(keep, i, hiI, loJ, hiJ)| ==>
      RowMajorBefore(Scan(keep, i, hiI, loJ, hiJ)[a], Scan(keep, i, hiI, loJ, hiJ)[b])
    decreases hiI - i
  {
    if i < hiI {
      ScanRowMembers(keep, i, loJ, hiJ);
      ScanRowIncreasing(keep, i, loJ, hiJ);
      ScanSpec(keep, i + 1, hiI, loJ, hiJ);
      var row := ScanRow(keep, i, loJ, hiJ);
      var rest := Scan(keep, i + 1, hiI, loJ, hiJ);
      var all := row + rest;
      assert Scan(keep, i, hiI, loJ, hiJ) == all;
      forall a, b | 0 <= a < b < |all|
        ensures RowMajorBefore(all[a], all[b])
      {
        if b < |row| {
          assert all[a] == row[a] && all[b] == row[b];
          assert row[a] in row && row[b] in row;
        } else if a < |row| {
          assert all[a] == row[a] && row[a] in row;
          assert all[b] == rest[b - |row|] && rest[b - |row|] in rest;
        } else {
          assert all[a] == rest[a - |row|] && all[b] == rest[b - |row|];
        }
      }
    }
  }

  /**
   * The steps of a loop that builds `whole` by scanning: `done` is the list
   * built so far and the scan that is left, followed by `tail`, completes it.
   */
  lemma ScanEnterRow(done: seq<Point>, keep: Selector, i: int, hiI: int, loJ: int, hiJ: int, whole: seq<Point>)
    requires i < hiI && done + Scan(keep, i, hiI, loJ, hiJ) == whole
    ensures done + (ScanRow(keep, i, loJ, hiJ) + Scan(keep, i + 1, hiI, loJ, hiJ)) == whole
  {
  }

  lemma ScanRowStep(done: seq<Point>, keep: Selector, i: int, j: int, hiJ: int, tail: seq<Point>,
                    whole: seq<Point>, done': seq<Point>)
    requires j < hiJ && done + (ScanRow(keep, i, j, hiJ) + tail) == whole
    requires done' == if Selects(keep, Point(i, j)) then done + [Point(i, j)] else done
    ensures done' + (ScanRow(keep, i, j + 1, hiJ) + tail) == whole
  {
    var head := if Selects(keep, Point(i, j)) then [Point(i, j)] else [];
    var rest := ScanRow(keep, i, j + 1, hiJ);
    assert ScanRow(keep, i, j, hiJ) == head + rest;
    Regroup(done, head, rest, tail);
    assert done + head == done';
  }

  /** Regrouping a concatenation of four lists. */
  lemma Regroup(a: seq<Point>, b: seq<Point>, c: seq<Point>, d: seq<Point>)
    ensures a + ((b + c) + d) == (a + b) + (c + d)
  {
  }

  lemma ScanLeaveRow(done: seq<Point>, keep: Selector, i: int, j: int, hiJ: int, tail: seq<Point>, whole: seq<Point>)
    requires j >= hiJ && done + (ScanRow(keep, i, j, hiJ) + tail) == whole
    ensures done + tail == whole
  {
  }

  /**
   * The neighbour list of p as the nested loops build it: rows from
   * max(p.x-1, 0) below min(p.x+2, height), columns from max(p.y-1, 0) below
   * min(p.y+2, width), skipping p itself.
   */
  function NeighbourList(p: Point, width: nat, height: nat): seq<Point>
  {
    var loI, loJ := Max(p.x - 1, 0), Max(p.y - 1, 0);
    Scan(AllBut(p), loI, Max(loI, Min(p.x + 2, height)), loJ, Max(loJ, Min(p.y + 2, width)))
  }

  /** The neighbour list holds the in-bounds cells around p, each once, in row-major order, at most eight. */
  lemma NeighbourListSpec(p: Point, width: nat, height: nat, ns: seq<Point>)
    requires ns == NeighbourList(p, width, height)
    ensures forall q :: q in ns <==> InBounds(width, height, q.x, q.y) && Adjacent(p, q)
    ensures forall a, b :: 0 <= a < b < |ns| ==> RowMajorBefore(ns[a], ns[b])
    ensures |ns| <= 8
  {
    var loI, loJ := Max(p.x - 1, 0), Max(p.y - 1, 0);
    ScanSpec(AllBut(p), loI, Max(loI, Min(p.x + 2, height)), loJ, Max(loJ, Min(p.y + 2, width)));
    AtMostEightNeighbours(p, ns);
  }

  /** Every point of `ps` lies on the grid. */
  predicate OnGrid(width: nat, height: nat, ps: seq<Point>)
  {
    forall a :: 0 <= a < |ps| ==> InBounds(width, height, ps[a].x, ps[a].y)
  }

  /** Dropping the first entry of a worklist on the grid, and appending points on the grid, keep it on the grid. */
  lemma OnGridNext(width: nat, height: nat, ps: seq<Point>, ns: seq<Point>)
    requires ps != [] && OnGrid(width, height, ps)
    requires forall q :: q in ns ==> InBounds(width, height, q.x, q.y)
    ensures InBounds(width, height, ps[0].x, ps[0].y)
    ensures OnGrid(width, height, ps[1..]) && OnGrid(width, height, ps[1..] + ns)
  {
    forall a | 0 <= a < |ps[1..] + ns|
      ensures InBounds(width, height, (ps[1..] + ns)[a].x, (ps[1..] + ns)[a].y)
    {
      if a >= |ps| - 1 {
        assert (ps[1..] + ns)[a] in ns;
      }
    }
  }

  /** The worklist an angle starts from, as the nested loops build it. */
  function Worklist(ph: Physics, g: seq<CellState>, width: nat, height: nat, angle: Angle): seq<Point>
  {
    Scan(MayMoveAt(ph, g, width, height, angle), 0, height, 0, width)
  }

  /** The worklist holds exactly the in-bounds cells that may move at the angle, in row-major order. */
  lemma WorklistSpec(ph: Physics, g: seq<CellState>, width: nat, height: nat, angle: Angle)
    requires |g| == width * height
    ensures forall q :: q in Worklist(ph, g, width, height, angle) <==>
      InBounds(width, height, q.x, q.y) && MayMove(ph, g, width, height, q, angle)
    ensures forall a, b :: 0 <= a < b < |Worklist(ph, g, width, height, angle)| ==>
      RowMajorBefore(Worklist(ph, g, width, height, angle)[a], Worklist(ph, g, width, height, angle)[b])
  {
    ScanSpec(MayMoveAt(ph, g, width, height, angle), 0, height, 0, width);
  }

  /** One recorded move: the angle it was made at, where from and where to. */
  datatype Move = Move(angle: Angle, source: Point, target: Point)

  /** The grid after exchanging the source and target of `m`. */
  function ApplyMove(g: seq<CellState>, width: nat, height: nat, m: Move): (r: seq<CellState>)
    requires |g| == width * height
    ensures |r| == |g|
  {
    if InBounds(width, height, m.source.x, m.source.y) && InBounds(width, height, m.target.x, m.target.y) then
      Swap(g, Index(width, height, m.source.x, m.source.y), Index(width, height, m.target.x, m.target.y))
    else g
  }

  /** The grid after the moves of `ms`, in order. */
  function Replay(g: seq<CellState>, width: nat, height: nat, ms: seq<Move>): (r: seq<CellState>)
    requires |g| == width * height
    ensures |r| == |g|
    decreases |ms|
  {
    if ms == [] then g
    else ApplyMove(Replay(g, width, height, ms[..|ms| - 1]), width, height, ms[|ms| - 1])
  }

  /** Every move of `ms` is what MoveTarget chooses on the grid the earlier moves left. */
  ghost predicate Legal(ph: Physics, g: seq<CellState>, width: nat, height: nat, ms: seq<Move>)
    requires |g| == width * height && Assumed(ph)
    decreases |ms|
  {
    ms == [] ||
    (var m := ms[|ms| - 1];
     && Legal(ph, g, width, height, ms[..|ms| - 1])
     && InBounds(width, height, m.source.x, m.source.y)
     && MoveTarget(ph, Replay(g, width, height, ms[..|ms| - 1]), width, height,
                   m.source.x, m.source.y, m.angle) == Some(m.target))
  }

  /** A move MoveTarget chooses on the current grid extends a legal history. */
  lemma LegalExtend(ph: Physics, g: seq<CellState>, width: nat, height: nat, ms: seq<Move>, m: Move)
    requires |g| == width * height && Assumed(ph)
    requires Legal(ph, g, width, height, ms)
    requires InBounds(width, height, m.source.x, m.source.y)
    requires MoveTarget(ph, Replay(g, width, height, ms), width, height, m.source.x, m.source.y, m.angle)
             == Some(m.target)
    ensures InBounds(width, height, m.target.x, m.target.y)
    ensures Legal(ph, g, width, height, ms + [m])
    ensures Replay(g, width, height, ms + [m])
         == Swap(Replay(g, width, height, ms), Index(width, height, m.source.x, m.source.y),
                 Index(width, height, m.target.x, m.target.y))
  {
    assert (ms + [m])[..|ms|] == ms;
  }

  /**
   * What a pass has kept so far: its moves are legal from `g`; every target
   * is in `visited`; no move starts where an earlier one ended; the angles
   * are not NONE, do not go back in the enumeration and have ordinal at most
   * `bound`.
   */
  ghost predicate Progress(ph: Physics, g: seq<CellState>, width: nat, height: nat,
                           ms: seq<Move>, visited: set<Point>, bound: int)
    requires |g| == width * height && Assumed(ph)
  {
    && Legal(ph, g, width, height, ms)
    && (forall a :: 0 <= a < |ms| ==> ms[a].target in visited)
    && (forall a, b :: 0 <= a < b < |ms| ==> ms[b].source != ms[a].target)
    && (forall a, b :: 0 <= a < b < |ms| ==> ms[a].angle.ordinal <= ms[b].angle.ordinal)
    && (forall a :: 0 <= a < |ms| ==> ms[a].angle in ph.angles && ms[a].angle != ph.none)
    && (forall a :: 0 <= a < |ms| ==> ms[a].angle.ordinal <= bound)
  }

  /**
   * A move from a cell outside `visited`, at the angle of ordinal `bound`,
   * chosen by MoveTarget on the current grid, keeps Progress once its target
   * is added to `visited`.
   */
  lemma ProgressExtend(ph: Physics, g: seq<CellState>, width: nat, height: nat,
                       ms: seq<Move>, visited: set<Point>, bound: int, m: Move)
    requires |g| == width * height && Assumed(ph)
    requires Progress(ph, g, width, height, ms, visited, bound)
    requires m.source !in visited
    requires m.angle in ph.angles && m.angle != ph.none && m.angle.ordinal == bound
    requires InBounds(width, height, m.source.x, m.source.y)
    requires MoveTarget(ph, Replay(g, width, height, ms), width, height, m.source.x, m.source.y, m.angle)
             == Some(m.target)
    ensures Progress(ph, g, width, height, ms + [m], visited + {m.target}, bound)
    ensures Replay(g, width, height, ms + [m])
         == Swap(Replay(g, width, height, ms), Index(width, height, m.source.x, m.source.y),
                 Index(width, height, m.target.x, m.target.y))
  {
    LegalExtend(ph, g, width, height, ms, m);
  }

  /** Moving cells by swaps creates and destroys no material. */
  lemma {:induction false} ReplayPreservesMultiset(g: seq<CellState>, width: nat, height: nat, ms: seq<Move>)
    requires |g| == width * height
    ensures multiset(Replay(g, width, height, ms)) == multiset(g)
    decreases |ms|
  {
    if ms != [] {
      var m := ms[|ms| - 1];
      var before := Replay(g, width, height, ms[..|ms| - 1]);
      ReplayPreservesMultiset(g, width, height, ms[..|ms| - 1]);
      if InBounds(width, height, m.source.x, m.source.y) && InBounds(width, height, m.target.x, m.target.y) {
        SwapPreservesMultiset(before, Index(width, height, m.source.x, m.source.y),
                              Index(width, height, m.target.x, m.target.y));
      }
    }
  }

  /** Per material, the number of cells is the same after any moves. */
  lemma ReplayPreservesCounts(g: seq<CellState>, width: nat, height: nat, ms: seq<Move>, s: CellState)
    requires |g| == width * height
    ensures Count(Replay(g, width, height, ms), s) == Count(g, s)
  {
    ReplayPreservesMultiset(g, width, height, ms);
    CountIsMultiplicity(g, s);
    CountIsMultiplicity(Replay(g, width, height, ms), s);
  }

  /**
   * What a pass carries from one worklist entry to the next: the grid, the
   * cells that received a moved cell, the moves made so far and the number
   * of worklist entries it may still take.
   */
  datatype PassState = PassState(grid: seq<CellState>, visited: set<Point>, moves: seq<Move>, fuel: nat)

  /** The state a pass ends in, and whether every worklist was emptied. */
  datatype Outcome = Outcome(state: PassState, drained: bool)

  /**
   * Draining the worklist `todo` at `angle`: take the first entry; skip it if
   * it already received a moved cell; otherwise try to move it, and if it
   * moved, mark the target, log the move and append the neighbours of the
   * moved cell to the worklist. Each entry taken costs one unit of fuel;
   * with entries left and no fuel the drain stops undrained. (Entries off the
   * grid, which the pass never lists, are skipped.)
   */
  function Drain(ph: Physics, width: nat, height: nat, angle: Angle, st: PassState, todo: seq<Point>): (r: Outcome)
    requires |st.grid| == width * height && Assumed(ph)
    ensures |r.state.grid| == |st.grid|
    ensures r.state.fuel <= st.fuel
    ensures |st.moves| <= |r.state.moves| <= |st.moves| + (st.fuel - r.state.fuel)
    ensures !r.drained ==> r.state.fuel == 0 && todo != []
    decreases st.fuel
  {
    if todo == [] then Outcome(st, true)
    else if st.fuel == 0 then Outcome(st, false)
    else
      var p, rest := todo[0], todo[1..];
      if p in st.visited || !InBounds(width, height, p.x, p.y) then
        Drain(ph, width, height, angle, st.(fuel := st.fuel - 1), rest)
      else
        match MoveTarget(ph, st.grid, width, height, p.x, p.y, angle)
        case None =>
          Drain(ph, width, height, angle, st.(fuel := st.fuel - 1), rest)
        case Some(t) =>
          Drain(ph, width, height, angle,
                PassState(Swap(st.grid, Index(width, height, p.x, p.y), Index(width, height, t.x, t.y)),
                          st.visited + {t}, st.moves + [Move(angle, p, t)], st.fuel - 1),
                rest + NeighbourList(p, width, height))
  }

  /** Taking a worklist entry that does not move costs one unit of fuel and nothing else. */
  lemma DrainSkips(ph: Physics, width: nat, height: nat, angle: Angle, st: PassState, todo: seq<Point>,
                   st': PassState, todo': seq<Point>)
    requires |st.grid| == width * height && Assumed(ph) && todo != [] && st.fuel > 0
    requires todo[0] in st.visited
             || MoveTarget(ph, st.grid, width, height, todo[0].x, todo[0].y, angle) == None
    requires st' == st.(fuel := st.fuel - 1) && todo' == todo[1..]
    ensures Drain(ph, width, height, angle, st, todo) == Drain(ph, width, height, angle, st', todo')
  {
  }

  /**
   * Taking a worklist entry that moves swaps it with its target, marks the
   * target, logs the move and appends the entry's neighbours.
   */
  lemma DrainMoves(ph: Physics, width: nat, height: nat, angle: Angle, st: PassState, todo: seq<Point>, t: Point,
                   st': PassState, todo': seq<Point>)
    requires |st.grid| == width * height && Assumed(ph) && todo != [] && st.fuel > 0
    requires todo[0] !in st.visited && InBounds(width, height, todo[0].x, todo[0].y)
    requires MoveTarget(ph, st.grid, width, height, todo[0].x, todo[0].y, angle) == Some(t)
    requires st' == PassState(Swap(st.grid, Index(width, height, todo[0].x, todo[0].y), Index(width, height, t.x, t.y)),
                              st.visited + {t}, st.moves + [Move(angle, todo[0], t)], st.fuel - 1)
    requires todo' == todo[1..] + NeighbourList(todo[0], width, height)
    ensures Drain(ph, width, height, angle, st, todo) == Drain(ph, width, height, angle, st', todo')
  {
  }

  /**
   * A pass from the angle at position k on: every angle but NONE, in
   * enumeration order, drains the worklist built from the grid as it is
   * when that angle starts; a drain that runs out of fuel ends the pass.
   */
  function Pass(ph: Physics, width: nat, height: nat, k: nat, st: PassState): (r: Outcome)
    requires |st.grid| == width * height && Assumed(ph) && k <= |ph.angles|
    ensures |r.state.grid| == |st.grid|
    ensures r.state.fuel <= st.fuel
    ensures |st.moves| <= |r.state.moves| <= |st.moves| + (st.fuel - r.state.fuel)
    ensures !r.drained ==> r.state.fuel == 0
    decreases |ph.angles| - k
  {
    if k == |ph.angles| then Outcome(st, true)
    else if ph.angles[k] == ph.none then Pass(ph, width, height, k + 1, st)
    else
      var o := Drain(ph, width, height, ph.angles[k], st, Worklist(ph, st.grid, width, height, ph.angles[k]));
      if !o.drained then o else Pass(ph, width, height, k + 1, o.state)
  }

  /** Draining a worklist keeps the pass invariant: its moves are legal, replay to its grid, and so on. */
  lemma {:induction false} DrainKeepsProgress(ph: Physics, g: seq<CellState>, width: nat, height: nat,
                                              angle: Angle, st: PassState, todo: seq<Point>)
    requires |g| == width * height && Assumed(ph) && |st.grid| == |g|
    requires angle in ph.angles && angle != ph.none
    requires st.grid == Replay(g, width, height, st.moves)
    requires Progress(ph, g, width, height, st.moves, st.visited, angle.ordinal)
    ensures var r := Drain(ph, width, height, angle, st, todo);
      && r.state.grid == Replay(g, width, height, r.state.moves)
      && Progress(ph, g, width, height, r.state.moves, r.state.visited, angle.ordinal)
    decreases st.fuel
  {
    if todo != [] && st.fuel != 0 {
      var p, rest := todo[0], todo[1..];
      if p in st.visited || !InBounds(width, height, p.x, p.y) {
        DrainKeepsProgress(ph, g, width, height, angle, st.(fuel := st.fuel - 1), rest);
      } else {
        match MoveTarget(ph, st.grid, width, height, p.x, p.y, angle)
        case None =>
          DrainKeepsProgress(ph, g, width, height, angle, st.(fuel := st.fuel - 1), rest);
        case Some(t) =>
          var m := Move(angle, p, t);
          ProgressExtend(ph, g, width, height, st.moves, st.visited, angle.ordinal, m);
          var next := PassState(Swap(st.grid, Index(width, height, p.x, p.y), Index(width, height, t.x, t.y)),
                                st.visited + {t}, st.moves + [m], st.fuel - 1);
          DrainKeepsProgress(ph, g, width, height, angle, next, rest + NeighbourList(p, width, height));
      }
    }
  }

  /**
   * The pass invariant of a state reached from `g`: its grid is its moves
   * replayed on `g`, and its moves keep Progress with angles up to `bound`.
   */
  ghost predicate Kept(ph: Physics, g: seq<CellState>, width: nat, height: nat, st: PassState, bound: int)
    requires |g| == width * height && Assumed(ph)
  {
    st.grid == Replay(g, width, height, st.moves) && Progress(ph, g, width, height, st.moves, st.visited, bound)
  }

  /** The pass invariant with a bound on the angles holds with any larger bound. */
  lemma KeptWeaken(ph: Physics, g: seq<CellState>, width: nat, height: nat, st: PassState, bound: int, bound': int)
    requires |g| == width * height && Assumed(ph)
    requires bound <= bound' && Kept(ph, g, width, height, st, bound)
    ensures Kept(ph, g, width, height, st, bound')
  {
  }

  /** Draining the worklist of the angle at position k keeps the pass invariant, now bounded by k. */
  lemma AngleKeepsProgress(ph: Physics, g: seq<CellState>, width: nat, height: nat, k: nat, st: PassState)
    requires |g| == width * height && Assumed(ph) && |st.grid| == |g| && k < |ph.angles|
    requires ph.angles[k] != ph.none
    requires Kept(ph, g, width, height, st, k - 1)
    ensures Kept(ph, g, width, height,
                 Drain(ph, width, height, ph.angles[k], st, Worklist(ph, st.grid, width, height, ph.angles[k])).state, k)
  {
    var angle := ph.angles[k];
    KeptWeaken(ph, g, width, height, st, k - 1, angle.ordinal);
    DrainKeepsProgress(ph, g, width, height, angle, st, Worklist(ph, st.grid, width, height, angle));
  }

  /** Every angle of a pass keeps the pass invariant. */
  lemma {:induction false} PassKeepsProgress(ph: Physics, g: seq<CellState>, width: nat, height: nat,
                                             k: nat, st: PassState)
    requires |g| == width * height && Assumed(ph) && |st.grid| == |g| && k <= |ph.angles|
    requires Kept(ph, g, width, height, st, k - 1)
    ensures Kept(ph, g, width, height, Pass(ph, width, height, k, st).state, |ph.angles|)
    decreases |ph.angles| - k, 2
  {
    if k == |ph.angles| {
      KeptWeaken(ph, g, width, height, st, k - 1, |ph.angles|);
    } else if ph.angles[k] == ph.none {
      SkipKeepsProgress(ph, g, width, height, k, st);
    } else {
      DrainThenPassKeepsProgress(ph, g, width, height, k, st);
    }
  }

  /** The pass invariant survives skipping NONE. */
  lemma {:induction false} SkipKeepsProgress(ph: Physics, g: seq<CellState>, width: nat, height: nat,
                                             k: nat, st: PassState)
    requires |g| == width * height && Assumed(ph) && |st.grid| == |g| && k < |ph.angles|
    requires ph.angles[k] == ph.none
    requires Kept(ph, g, width, height, st, k - 1)
    ensures Kept(ph, g, width, height, Pass(ph, width, height, k, st).state, |ph.angles|)
    decreases |ph.angles| - k, 1
  {
    KeptWeaken(ph, g, width, height, st, k - 1, k);
    PassKeepsProgress(ph, g, width, height, k + 1, st);
  }

  /** The pass invariant survives draining an angle's worklist and the rest of the pass. */
  lemma {:induction false} DrainThenPassKeepsProgress(ph: Physics, g: seq<CellState>, width: nat, height: nat,
                                                      k: nat, st: PassState)
    requires |g| == width * height && Assumed(ph) && |st.grid| == |g| && k < |ph.angles|
    requires ph.angles[k] != ph.none
    requires Kept(ph, g, width, height, st, k - 1)
    ensures Kept(ph, g, width, height, Pass(ph, width, height, k, st).state, |ph.angles|)
    decreases |ph.angles| - k, 1
  {
    AngleKeepsProgress(ph, g, width, height, k, st);
    var o := Drain(ph, width, height, ph.angles[k], st, Worklist(ph, st.grid, width, height, ph.angles[k]));
    PassAtAngle(ph, width, height, k, st, o);
    if o.drained {
      PassKeepsProgress(ph, g, width, height, k + 1, o.state);
    } else {
      KeptWeaken(ph, g, width, height, o.state, k, |ph.angles|);
    }
  }

  /** At an angle other than NONE, a pass drains that angle's worklist and goes on only if it emptied. */
  lemma PassAtAngle(ph: Physics, width: nat, height: nat, k: nat, st: PassState, o: Outcome)
    requires |st.grid| == width * height && Assumed(ph) && k < |ph.angles| && ph.angles[k] != ph.none
    requires o == Drain(ph, width, height, ph.angles[k], st, Worklist(ph, st.grid, width, height, ph.angles[k]))
    ensures o.drained ==> Pass(ph, width, height, k, st) == Pass(ph, width, height, k + 1, o.state)
    ensures !o.drained ==> Pass(ph, width, height, k, st) == o
  {
  }

  /**
   * A drain that empties its worklist without moving anything leaves the
   * grid and the updated cells as they were, and no entry it took could
   * have moved.
   */
  lemma {:induction false} QuietDrain(ph: Physics, width: nat, height: nat, angle: Angle, st: PassState, todo: seq<Point>)
    requires |st.grid| == width * height && Assumed(ph)
    requires Drain(ph, width, height, angle, st, todo).drained
    requires |Drain(ph, width, height, angle, st, todo).state.moves| == |st.moves|
    ensures Drain(ph, width, height, angle, st, todo).state.grid == st.grid
    ensures Drain(ph, width, height, angle, st, todo).state.visited == st.visited
    ensures forall q :: q in todo && InBounds(width, height, q.x, q.y) && q !in st.visited ==>
      MoveTarget(ph, st.grid, width, height, q.x, q.y, angle) == None
    decreases st.fuel
  {
    if todo != [] {
      var p, rest := todo[0], todo[1..];
      if p in st.visited || !InBounds(width, height, p.x, p.y) {
        QuietDrain(ph, width, height, angle, st.(fuel := st.fuel - 1), rest);
      } else {
        match MoveTarget(ph, st.grid, width, height, p.x, p.y, angle)
        case None =>
          QuietDrain(ph, width, height, angle, st.(fuel := st.fuel - 1), rest);
        case Some(t) =>
          assert false;
      }
    }
  }

  /** When no cell of the grid can move at the angle, a drain moves nothing. */
  lemma {:induction false} StillDrain(ph: Physics, width: nat, height: nat, angle: Angle, st: PassState, todo: seq<Point>)
    requires |st.grid| == width * height && Assumed(ph)
    requires forall q: Point :: InBounds(width, height, q.x, q.y) ==>
      MoveTarget(ph, st.grid, width, height, q.x, q.y, angle) == None
    ensures Drain(ph, width, height, angle, st, todo).state.grid == st.grid
    ensures Drain(ph, width, height, angle, st, todo).state.visited == st.visited
    ensures Drain(ph, width, height, angle, st, todo).state.moves == st.moves
    decreases st.fuel
  {
    if todo != [] && st.fuel != 0 {
      StillDrain(ph, width, height, angle, st.(fuel := st.fuel - 1), todo[1..]);
    }
  }

  /**
   * A pass from position k that empties every worklist without moving
   * anything shows that, on the grid it started from, no cell outside
   * `visited` can move at any of the angles from k on.
   */
  lemma {:induction false} QuietPass(ph: Physics, width: nat, height: nat, k: nat, st: PassState)
    requires |st.grid| == width * height && Assumed(ph) && k <= |ph.angles|
    requires Pass(ph, width, height, k, st).drained
    requires |Pass(ph, width, height, k, st).state.moves| == |st.moves|
    ensures forall k', q: Point ::
      k <= k' < |ph.angles| && ph.angles[k'] != ph.none && InBounds(width, height, q.x, q.y) && q !in st.visited
      ==> MoveTarget(ph, st.grid, width, height, q.x, q.y, ph.angles[k']) == None
    decreases |ph.angles| - k, 2
  {
    if k < |ph.angles| {
      if ph.angles[k] == ph.none {
        QuietPass(ph, width, height, k + 1, st);
      } else {
        QuietAngleThenPass(ph, width, height, k, st);
      }
    }
  }

  /** A quiet pass from position k, at an angle other than NONE. */
  lemma {:induction false} QuietAngleThenPass(ph: Physics, width: nat, height: nat, k: nat, st: PassState)
    requires |st.grid| == width * height && Assumed(ph) && k < |ph.angles| && ph.angles[k] != ph.none
    requires Pass(ph, width, height, k, st).drained
    requires |Pass(ph, width, height, k, st).state.moves| == |st.moves|
    ensures forall k', q: Point ::
      k <= k' < |ph.angles| && ph.angles[k'] != ph.none && InBounds(width, height, q.x, q.y) && q !in st.visited
      ==> MoveTarget(ph, st.grid, width, height, q.x, q.y, ph.angles[k']) == None
    decreases |ph.angles| - k, 1
  {
    QuietAngle(ph, width, height, k, st);
    var o := Drain(ph, width, height, ph.angles[k], st, Worklist(ph, st.grid, width, height, ph.angles[k]));
    QuietPass(ph, width, height, k + 1, o.state);
  }

  /** The first angle of a quiet pass: its drain was quiet, and no cell it did not list could move. */
  lemma QuietAngle(ph: Physics, width: nat, height: nat, k: nat, st: PassState)
    requires |st.grid| == width * height && Assumed(ph) && k < |ph.angles| && ph.angles[k] != ph.none
    requires Pass(ph, width, height, k, st).drained
    requires |Pass(ph, width, height, k, st).state.moves| == |st.moves|
    ensures var o := Drain(ph, width, height, ph.angles[k], st, Worklist(ph, st.grid, width, height, ph.angles[k]));
      && o.drained && o.state.grid == st.grid && o.state.visited == st.visited
      && Pass(ph, width, height, k + 1, o.state) == Pass(ph, width, height, k, st)
      && |o.state.moves| == |st.moves|
    ensures forall q: Point :: InBounds(width, height, q.x, q.y) && q !in st.visited ==>
      MoveTarget(ph, st.grid, width, height, q.x, q.y, ph.angles[k]) == None
  {
    var angle := ph.angles[k];
    var todo := Worklist(ph, st.grid, width, height, angle);
    QuietDrain(ph, width, height, angle, st, todo);
    WorklistSpec(ph, st.grid, width, height, angle);
  }

  /** When no cell can move at any angle from position k on, the rest of the pass moves nothing. */
  lemma {:induction false} StillPass(ph: Physics, width: nat, height: nat, k: nat, st: PassState)
    requires |st.grid| == width * height && Assumed(ph) && k <= |ph.angles|
    requires forall k', q: Point ::
      k <= k' < |ph.angles| && ph.angles[k'] != ph.none && InBounds(width, height, q.x, q.y)
      ==> MoveTarget(ph, st.grid, width, height, q.x, q.y, ph.angles[k']) == None
    ensures Pass(ph, width, height, k, st).state.moves == st.moves
    decreases |ph.angles| - k, 2
  {
    if k < |ph.angles| {
      if ph.angles[k] == ph.none {
        StillPass(ph, width, height, k + 1, st);
      } else {
        StillAngleThenPass(ph, width, height, k, st);
      }
    }
  }

  /** A still pass from position k, at an angle other than NONE. */
  lemma {:induction false} StillAngleThenPass(ph: Physics, width: nat, height: nat, k: nat, st: PassState)
    requires |st.grid| == width * height && Assumed(ph) && k < |ph.angles| && ph.angles[k] != ph.none
    requires forall k', q: Point ::
      k <= k' < |ph.angles| && ph.angles[k'] != ph.none && InBounds(width, height, q.x, q.y)
      ==> MoveTarget(ph, st.grid, width, height, q.x, q.y, ph.angles[k']) == None
    ensures Pass(ph, width, height, k, st).state.moves == st.moves
    decreases |ph.angles| - k, 1
  {
    var angle := ph.angles[k];
    var todo := Worklist(ph, st.grid, width, height, angle);
    StillDrain(ph, width, height, angle, st, todo);
    StillPass(ph, width, height, k + 1, Drain(ph, width, height, angle, st, todo).state);
  }

  /** A whole pass moves nothing when no cell can move at any angle. */
  lemma StablePassMovesNothing(ph: Physics, width: nat, height: nat, g: seq<CellState>, fuel: nat)
    requires |g| == width * height && Assumed(ph)
    requires forall a, q: Point :: a in ph.angles && a != ph.none && InBounds(width, height, q.x, q.y) ==>
      MoveTarget(ph, g, width, height, q.x, q.y, a) == None
    ensures Pass(ph, width, height, 0, PassState(g, {}, [], fuel)).state.moves == []
  {
    forall k', q: Point | 0 <= k' < |ph.angles| && ph.angles[k'] != ph.none && InBounds(width, height, q.x, q.y)
      ensures MoveTarget(ph, g, width, height, q.x, q.y, ph.angles[k']) == None
    {
      assert ph.angles[k'] in ph.angles;
    }
    StillPass(ph, width, height, 0, PassState(g, {}, [], fuel));
  }

  /** A whole pass that empties every worklist without moving anything shows that no cell can move at any angle. */
  lemma QuietPassMeansStable(ph: Physics, width: nat, height: nat, g: seq<CellState>, fuel: nat)
    requires |g| == width * height && Assumed(ph)
    requires Pass(ph, width, height, 0, PassState(g, {}, [], fuel)).drained
    requires Pass(ph, width, height, 0, PassState(g, {}, [], fuel)).state.moves == []
    ensures forall a, q: Point :: a in ph.angles && a != ph.none && InBounds(width, height, q.x, q.y) ==>
      MoveTarget(ph, g, width, height, q.x, q.y, a) == None
  {
    QuietPass(ph, width, height, 0, PassState(g, {}, [], fuel));
    forall a, q: Point | a in ph.angles && a != ph.none && InBounds(width, height, q.x, q.y)
      ensures MoveTarget(ph, g, width, height, q.x, q.y, a) == None
    {
      var k' :| 0 <= k' < |ph.angles| && ph.angles[k'] == a;
    }
  }

  /**
   * What a whole pass from grid `g`, with nothing updated yet, guarantees:
   * its moves are legal and replay to its grid, materials are conserved, no
   * move starts where an earlier one ended, the angles come in enumeration
   * order and are never NONE, and at most one move is made per entry taken.
   */
  lemma PassGuarantees(ph: Physics, width: nat, height: nat, g: seq<CellState>, fuel: nat)
    requires |g| == width * height && Assumed(ph)
    ensures var r := Pass(ph, width, height, 0, PassState(g, {}, [], fuel)); var ms := r.state.moves;
      && Legal(ph, g, width, height, ms)
      && r.state.grid == Replay(g, width, height, ms)
      && multiset(r.state.grid) == multiset(g)
      && (forall a, b :: 0 <= a < b < |ms| ==> ms[b].source != ms[a].target)
      && (forall a, b :: 0 <= a < b < |ms| ==> ms[a].angle.ordinal <= ms[b].angle.ordinal)
      && (forall a :: 0 <= a < |ms| ==> ms[a].angle in ph.angles && ms[a].angle != ph.none)
  {
    var r := Pass(ph, width, height, 0, PassState(g, {}, [], fuel));
    PassKeepsProgress(ph, g, width, height, 0, PassState(g, {}, [], fuel));
    ReplayPreservesMultiset(g, width, height, r.state.moves);
  }

  /** The nested loops of the neighbour list: every point of the rectangle but p, row by row. */
  method NeighboursWithin(p: Point, loI: int, hiI: int, loJ: int, hiJ: int) returns (ns: seq<Point>)
    requires loI <= hiI && loJ <= hiJ
    ensures ns == Scan(AllBut(p), loI, hiI, loJ, hiJ)
  {
    ns := [];
    ghost var keep, whole := AllBut(p), Scan(AllBut(p), loI, hiI, loJ, hiJ);
    for i := loI to hiI
      invariant ns + Scan(keep, i, hiI, loJ, hiJ) == whole
    {
      ScanEnterRow(ns, keep, i, hiI, loJ, hiJ, whole);
      for j := loJ to hiJ
        invariant ns + (ScanRow(keep, i, j, hiJ) + Scan(keep, i + 1, hiI, loJ, hiJ)) == whole
      {
        ghost var before := ns;
        if !(i == p.x && j == p.y) {
          ns := ns + [Point(i, j)];
        }
        ScanRowStep(before, keep, i, j, hiJ, Scan(keep, i + 1, hiI, loJ, hiJ), whole, ns);
      }
      ScanLeaveRow(ns, keep, i, hiJ, hiJ, Scan(keep, i + 1, hiI, loJ, hiJ), whole);
    }
  }

  /**
   * The single-cell automaton over a grid of the synchronous one (the Java
   * class InorganicCAOneCell extends InorganicCA); it moves cells of
   * `ca.cells` in place.
   */
  class InorganicCAOneCell {
    const ca: InorganicCA
    const physics: Physics

    ghost predicate Valid()
    {
      ca.Valid() && Assumed(physics)
    }

    /** A new grid of the given size, every cell empty. */
    constructor (width: nat, height: nat, physics: Physics)
      requires Assumed(physics)
      ensures Valid() && ca.width == width && ca.height == height && this.physics == physics
      ensures fresh(ca) && fresh(ca.cells) && fresh(ca.cellsNext)
      ensures forall k :: 0 <= k < ca.cells.Length ==> ca.cells[k] == Empty
      ensures forall k :: 0 <= k < ca.cellsNext.Length ==> ca.cellsNext[k] == Empty
    {
      ca := new InorganicCA(width, height);
      this.physics := physics;
    }

    /** Exchanges the states of two in-bounds cells of the current grid. */
    method SwapStates(i1: int, j1: int, i2: int, j2: int)
      requires Valid()
      requires InBounds(ca.width, ca.height, i1, j1) && InBounds(ca.width, ca.height, i2, j2)
      modifies ca.cells
      ensures ca.cells[..] == Swap(old(ca.cells[..]), Index(ca.width, ca.height, i1, j1),
                                   Index(ca.width, ca.height, i2, j2))
    {
      var k1, k2 := Index(ca.width, ca.height, i1, j1), Index(ca.width, ca.height, i2, j2);
      ca.cells[k1], ca.cells[k2] := ca.cells[k2], ca.cells[k1];
    }

    /**
     * Moves the state of (i1, j1) into (i2, j2), swapping the two, exactly
     * when the target's state is empty for the source's; otherwise nothing
     * changes.
     */
    method PushState(i1: int, j1: int, i2: int, j2: int) returns (pushed: bool)
      requires Valid() && InBounds(ca.width, ca.height, i1, j1)
      modifies ca.cells
      ensures pushed == physics.isEmptyFor(At(old(ca.cells[..]), ca.width, ca.height, i2, j2),
                                           At(old(ca.cells[..]), ca.width, ca.height, i1, j1))
      ensures pushed ==>
        && InBounds(ca.width, ca.height, i2, j2)
        && ca.cells[..] == Swap(old(ca.cells[..]), Index(ca.width, ca.height, i1, j1),
                                Index(ca.width, ca.height, i2, j2))
      ensures !pushed ==> ca.cells[..] == old(ca.cells[..])
    {
      if physics.isEmptyFor(ca.GetCellState(i2, j2), ca.GetCellState(i1, j1)) {
        SwapStates(i1, j1, i2, j2);
        return true;
      }
      return false;
    }

    /**
     * Tries to move the cell at (i, j) at `angle`; returns where it went, or
     * None when it did not move.
     */
    method UpdateCell(i: int, j: int, angle: Angle) returns (updated: Option<Point>)
      requires Valid() && InBounds(ca.width, ca.height, i, j)
      modifies ca.cells
      ensures updated == MoveTarget(physics, old(ca.cells[..]), ca.width, ca.height, i, j, angle)
      ensures updated == None ==> ca.cells[..] == old(ca.cells[..])
      ensures updated.Some? ==>
        ca.cells[..] == Swap(old(ca.cells[..]), Index(ca.width, ca.height, i, j),
                             Index(ca.width, ca.height, updated.value.x, updated.value.y))
    {
      if physics.isBiggerThan(angle, physics.maxAngle(ca.GetCellState(i, j))) {
        return None;
      }
      var nextI := i + angle.dy;
      var dX := angle.dx;
      var pushed := PushState(i, j, nextI, j + dX);
      if pushed {
        return Some(Point(nextI, j + dX));
      }
      pushed := PushState(i, j, nextI, j - dX);
      if pushed {
        return Some(Point(nextI, j - dX));
      }
      return None;
    }
  
    /**
     * The in-bounds cells around p, at most eight, each once, in row-major
     * order. (A range whose start is not below its end is empty.)
     */
    method Neighbours(p: Point) returns (ns: seq<Point>)
      ensures ns == NeighbourList(p, ca.width, ca.height)
      ensures forall q :: q in ns <==> InBounds(ca.width, ca.height, q.x, q.y) && Adjacent(p, q)
      ensures forall a, b :: 0 <= a < b < |ns| ==> RowMajorBefore(ns[a], ns[b])
      ensures |ns| <= 8
    {
      var loI, loJ := Max(p.x - 1, 0), Max(p.y - 1, 0);
      ns := NeighboursWithin(p, loI, Max(loI, Min(p.x + 2, ca.height)), loJ, Max(loJ, Min(p.y + 2, ca.width)));
      NeighbourListSpec(p, ca.width, ca.height, ns);
    }

    /**
     * The worklist an angle starts from: every in-bounds cell that may move
     * at that angle, in row-major order.
     */
    method InitialWorklist(angle: Angle) returns (todo: seq<Point>)
      requires Valid()
      ensures todo == Worklist(physics, ca.cells[..], ca.width, ca.height, angle)
      ensures forall q :: q in todo <==>
        InBounds(ca.width, ca.height, q.x, q.y) && MayMove(physics, ca.cells[..], ca.width, ca.height, q, angle)
      ensures forall a, b :: 0 <= a < b < |todo| ==> RowMajorBefore(todo[a], todo[b])
    {
      ghost var keep := MayMoveAt(physics, ca.cells[..], ca.width, ca.height, angle);
      ghost var whole := Worklist(physics, ca.cells[..], ca.width, ca.height, angle);
      todo := [];
      for i := 0 to ca.height
        invariant todo + Scan(keep, i, ca.height, 0, ca.width) == whole
      {
        ScanEnterRow(todo, keep, i, ca.height, 0, ca.width, whole);
        for j := 0 to ca.width
          invariant todo + (ScanRow(keep, i, j, ca.width) + Scan(keep, i + 1, ca.height, 0, ca.width)) == whole
        {
          ghost var before := todo;
          if !physics.isBiggerThan(angle, physics.maxAngle(ca.GetCellState(i, j))) {
            todo := todo + [Point(i, j)];
          }
          ScanRowStep(before, keep, i, j, ca.width, Scan(keep, i + 1, ca.height, 0, ca.width), whole, todo);
        }
        ScanLeaveRow(todo, keep, i, ca.width, ca.width, Scan(keep, i + 1, ca.height, 0, ca.width), whole);
      }
      WorklistSpec(physics, ca.cells[..], ca.width, ca.height, angle);
    }

    /**
     * Drains the worklist `todo` at `angle`: takes entries from the front
     * while any are left and the budget `fuel` lasts, moves each entry that
     * is not among the updated cells, marks its target as updated, logs the
     * move and appends the mover's neighbours. Returns the entries left, the
     * updated cells, the budget left and the moves logged so far.
     */
    method DrainWorklist(angle: Angle, todo: seq<Point>, visited: set<Point>, fuel: nat, ghost done: seq<Move>)
      returns (toCheck: seq<Point>, updatedCells: set<Point>, budget: nat, ghost moves: seq<Move>)
      requires Valid() && OnGrid(ca.width, ca.height, todo)
      modifies ca.cells
      ensures Drain(physics, ca.width, ca.height, angle, PassState(old(ca.cells[..]), visited, done, fuel), todo)
           == Outcome(PassState(ca.cells[..], updatedCells, moves, budget), toCheck == [])
    {
      toCheck, updatedCells, budget, moves := todo, visited, fuel, done;
      ghost var drainedTo := Drain(physics, ca.width, ca.height, angle,
                                   PassState(ca.cells[..], updatedCells, moves, budget), toCheck);
      while toCheck != [] && budget > 0
        invariant OnGrid(ca.width, ca.height, toCheck)
        invariant Drain(physics, ca.width, ca.height, angle,
                        PassState(ca.cells[..], updatedCells, moves, budget), toCheck) == drainedTo
        decreases budget
      {
        ghost var before := PassState(ca.cells[..], updatedCells, moves, budget);
        ghost var entries := toCheck;
        OnGridNext(ca.width, ca.height, toCheck, []);
        var p := toCheck[0];
        toCheck := toCheck[1..];
        budget := budget - 1;
        if p !in updatedCells {
          var updated := UpdateCell(p.x, p.y, angle);
          if updated.Some? {
            updatedCells := updatedCells + {updated.value};
            var ns := Neighbours(p);
            OnGridNext(ca.width, ca.height, entries, ns);
            toCheck := toCheck + ns;
            moves := moves + [Move(angle, p, updated.value)];
            DrainMoves(physics, ca.width, ca.height, angle, before, entries, updated.value,
                       PassState(ca.cells[..], updatedCells, moves, budget), toCheck);
          } else {
            DrainSkips(physics, ca.width, ca.height, angle, before, entries,
                       PassState(ca.cells[..], updatedCells, moves, budget), toCheck);
          }
        } else {
          DrainSkips(physics, ca.width, ca.height, angle, before, entries,
                     PassState(ca.cells[..], updatedCells, moves, budget), toCheck);
        }
      }
    }

    /**
     * One pass: for every angle but NONE, in enumeration order, drain the
     * worklist of that angle, moving each listed cell that has not received
     * a moved cell in this pass, and putting the neighbours of every cell
     * that moved back on the worklist. At most `fuel` worklist entries are
     * taken in all; `drained` says whether every worklist was emptied.
     * `moves` records the moves made, in order, and `taken` the entries taken.
     */
    method UpdateStates(fuel: nat) returns (drained: bool, ghost moves: seq<Move>, ghost taken: nat)
      requires Valid()
      modifies ca.cells
      // the pass is Pass on the old grid, with nothing updated yet
      ensures var r := Pass(physics, ca.width, ca.height, 0, PassState(old(ca.cells[..]), {}, [], fuel));
        && ca.cells[..] == r.state.grid && moves == r.state.moves
        && drained == r.drained && taken == fuel - r.state.fuel
      ensures Legal(physics, old(ca.cells[..]), ca.width, ca.height, moves)
      ensures ca.cells[..] == Replay(old(ca.cells[..]), ca.width, ca.height, moves)
      ensures multiset(ca.cells[..]) == multiset(old(ca.cells[..]))
      // a cell that received a moved cell is never again the source of a move
      ensures forall a, b :: 0 <= a < b < |moves| ==> moves[b].source != moves[a].target
      // angles are handled one after the other, in enumeration order
      ensures forall a, b :: 0 <= a < b < |moves| ==> moves[a].angle.ordinal <= moves[b].angle.ordinal
      ensures forall a :: 0 <= a < |moves| ==> moves[a].angle in physics.angles && moves[a].angle != physics.none
      ensures |moves| <= taken <= fuel
      ensures !drained ==> taken == fuel
      // a pass that empties its worklists without moving anything found the grid stable, and only then
      ensures drained && moves == [] ==>
        forall a, q: Point :: a in physics.angles && a != physics.none && InBounds(ca.width, ca.height, q.x, q.y) ==>
          MoveTarget(physics, old(ca.cells[..]), ca.width, ca.height, q.x, q.y, a) == None
      ensures (forall a, q: Point :: a in physics.angles && a != physics.none && InBounds(ca.width, ca.height, q.x, q.y) ==>
                 MoveTarget(physics, old(ca.cells[..]), ca.width, ca.height, q.x, q.y, a) == None)
              ==> moves == []
    {
      ghost var g := ca.cells[..];
      ghost var outcome := Pass(physics, ca.width, ca.height, 0, PassState(g, {}, [], fuel));
      var updatedCells: set<Point> := {};
      var budget := fuel;
      moves, drained := [], true;
      var k := 0;
      while k < |physics.angles|
        invariant 0 <= k <= |physics.angles| && drained
        invariant Pass(physics, ca.width, ca.height, k, PassState(ca.cells[..], updatedCells, moves, budget)) == outcome
      {
        var angle := physics.angles[k];
        if angle != physics.none {
          var toCheck := InitialWorklist(angle);
          assert OnGrid(ca.width, ca.height, toCheck) by {
            forall a | 0 <= a < |toCheck| ensures InBounds(ca.width, ca.height, toCheck[a].x, toCheck[a].y) {
              assert toCheck[a] in toCheck;
            }
          }
          toCheck, updatedCells, budget, moves := DrainWorklist(angle, toCheck, updatedCells, budget, moves);
          if toCheck != [] {
            drained := false;
            assert outcome == Outcome(PassState(ca.cells[..], updatedCells, moves, budget), false);
            break;
          }
        }
        k := k + 1;
      }
      assert outcome == Outcome(PassState(ca.cells[..], updatedCells, moves, budget), drained);
      taken := fuel - budget;
      PassGuarantees(physics, ca.width, ca.height, g, fuel);
      if drained && moves == [] {
        QuietPassMeansStable(physics, ca.width, ca.height, g, fuel);
      }
      if forall a, q: Point :: a in physics.angles && a != physics.none && InBounds(ca.width, ca.height, q.x, q.y) ==>
           MoveTarget(physics, g, ca.width, ca.height, q.x, q.y, a) == None {
        StablePassMovesNothing(physics, ca.width, ca.height, g, fuel);
      }
    }
  }
}
