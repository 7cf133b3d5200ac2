/**
 * The synchronous inorganic automaton: a double-buffered grid whose every
 * cell is recomputed from the old grid by a fixed list of falling and
 * subsiding rules for dirt, plus the flat text dump of the grid.
 */
module Inorganic {
  import opened Cells

  // ---------------------------------------------------------------------
  // The next-state rule
  // ---------------------------------------------------------------------

  /**
   * The state cell (i, j) of `g` takes in the next step. The rules are tried
   * in order; the first that applies decides, and a cell no rule applies to
   * keeps its state. Only dirt ever moves: an empty cell fills under dirt and
   * a dirt cell empties over an empty cell.
   */
  function NextState(g: seq<CellState>, width: nat, height: nat, i: int, j: int): CellState
    requires |g| == width * height
  {
    var here := At(g, width, height, i, j);
    // dirt falls down
    if here == Empty && At(g, width, height, i - 1, j) == Dirt then Dirt
    else if here == Dirt && At(g, width, height, i + 1, j) == Empty then Empty
    // dirt subsides
    else if here == Empty && At(g, width, height, i, j + 1) == Dirt
                          && At(g, width, height, i - 1, j + 1) == Dirt then Dirt
    else if here == Empty && At(g, width, height, i, j - 1) == Dirt
                          && At(g, width, height, i - 1, j - 1) == Dirt then Dirt
    else if here == Dirt && At(g, width, height, i + 1, j) == Dirt
                         && At(g, width, height, i + 1, j + 1) == Empty then Empty
    else if here == Dirt && At(g, width, height, i + 1, j) == Dirt
                         && At(g, width, height, i + 1, j - 1) == Empty then Empty
    else here
  }

  /**
   * Only dirt moves: a cell either keeps its state, or an empty cell fills
   * with dirt because a cell of the row above holds dirt, or a dirt cell
   * empties because a cell of the row below is empty.
   */
  lemma NextStateMovesOnlyDirt(g: seq<CellState>, width: nat, height: nat, i: int, j: int)
    requires |g| == width * height
    ensures var r, here := NextState(g, width, height, i, j), At(g, width, height, i, j);
      || r == here
      || (here == Empty && r == Dirt &&
          (At(g, width, height, i - 1, j - 1) == Dirt || At(g, width, height, i - 1, j) == Dirt
           || At(g, width, height, i - 1, j + 1) == Dirt))
      || (here == Dirt && r == Empty &&
          (At(g, width, height, i + 1, j - 1) == Empty || At(g, width, height, i + 1, j) == Empty
           || At(g, width, height, i + 1, j + 1) == Empty))
  {
  }

  /** Water and steam cells, and wall cells set by hand, never change. */
  lemma InertStatesKeep(g: seq<CellState>, width: nat, height: nat, i: int, j: int)
    requires |g| == width * height
    requires At(g, width, height, i, j) in {Water, Steam, Wall}
    ensures NextState(g, width, height, i, j) == At(g, width, height, i, j)
  {
  }

  /**
   * The next state of a cell depends only on the 3x3 block around it: two
   * grids that read alike there give the cell the same next state.
   */
  lemma NextStateIsLocal(g: seq<CellState>, h: seq<CellState>, width: nat, height: nat, i: int, j: int)
    requires |g| == width * height && |h| == width * height
    requires forall r, c :: i - 1 <= r <= i + 1 && j - 1 <= c <= j + 1 ==>
      At(g, width, height, r, c) == At(h, width, height, r, c)
    ensures NextState(g, width, height, i, j) == NextState(h, width, height, i, j)
  {
  }

  /**
   * One synchronous step: every cell's next state computed from the old
   * grid, stored at that cell's position.
   */
  function Step(g: seq<CellState>, width: nat, height: nat): (r: seq<CellState>)
    requires |g| == width * height
    ensures |r| == |g|
    ensures forall i, j :: InBounds(width, height, i, j) ==>
      r[Index(width, height, i, j)] == NextState(g, width, height, i, j)
  {
    var r := seq(|g|, k requires 0 <= k < |g| =>
                        CoordinatesOf(width, height, k);
                        NextState(g, width, height, k / width, k % width));
    assert forall i, j :: InBounds(width, height, i, j) ==>
      r[Index(width, height, i, j)] == NextState(g, width, height, i, j) by {
      forall i, j | InBounds(width, height, i, j)
        ensures r[Index(width, height, i, j)] == NextState(g, width, height, i, j)
      {
        IndexCoordinates(width, height, i, j);
      }
    }
    r
  }

  /** Without dirt there is nothing to move: the grid is a fixed point. */
  lemma {:induction false} NoDirtIsFixedPoint(g: seq<CellState>, width: nat, height: nat)
    requires |g| == width * height
    requires forall k :: 0 <= k < |g| ==> g[k] != Dirt
    ensures Step(g, width, height) == g
  {
    var r := Step(g, width, height);
    forall k | 0 <= k < |g|
      ensures r[k] == g[k]
    {
      CoordinatesOf(width, height, k);
      var i, j := k / width, k % width;
      assert r[Index(width, height, i, j)] == NextState(g, width, height, i, j);
    }
  }

  /** (i, j) is the only dirt cell of `g`. */
  ghost predicate LoneDirt(g: seq<CellState>, width: nat, height: nat, i: int, j: int)
    requires |g| == width * height
  {
    && InBounds(width, height, i, j)
    && g[Index(width, height, i, j)] == Dirt
    && forall k :: 0 <= k < |g| && k != Index(width, height, i, j) ==> g[k] != Dirt
  }

  /** Under a lone dirt cell, no other coordinate reads as dirt. */
  lemma OnlyDirtAt(g: seq<CellState>, width: nat, height: nat, i: int, j: int, c: int, d: int)
    requires |g| == width * height && LoneDirt(g, width, height, i, j)
    ensures At(g, width, height, c, d) == Dirt <==> c == i && d == j
  {
    if InBounds(width, height, c, d) {
      IndexInjective(width, height, c, d, i, j);
    }
  }

  /**
   * Under a lone dirt cell, a cell that is neither the dirt nor the cell
   * right below it keeps its state.
   */
  lemma LoneDirtLeavesOthers(g: seq<CellState>, width: nat, height: nat, i: int, j: int, a: int, b: int)
    requires |g| == width * height && LoneDirt(g, width, height, i, j)
    requires !(a == i && b == j) && !(a == i + 1 && b == j)
    ensures NextState(g, width, height, a, b) == At(g, width, height, a, b)
  {
    OnlyDirtAt(g, width, height, i, j, a, b);
    OnlyDirtAt(g, width, height, i, j, a - 1, b);
    OnlyDirtAt(g, width, height, i, j, a, b + 1);
    OnlyDirtAt(g, width, height, i, j, a - 1, b + 1);
    OnlyDirtAt(g, width, height, i, j, a, b - 1);
    OnlyDirtAt(g, width, height, i, j, a - 1, b - 1);
  }

  /** The position-wise content of LoneDirtFalls. */
  lemma LoneDirtFallsAt(g: seq<CellState>, width: nat, height: nat, i: int, j: int, k: int)
    requires |g| == width * height
    requires LoneDirt(g, width, height, i, j)
    requires InBounds(width, height, i + 1, j) && At(g, width, height, i + 1, j) == Empty
    requires 0 <= k < |g|
    ensures Step(g, width, height)[k]
         == g[Index(width, height, i, j) := Empty][Index(width, height, i + 1, j) := Dirt][k]
  {
    CoordinatesOf(width, height, k);
    var a, b := k / width, k % width;
    assert Step(g, width, height)[k] == NextState(g, width, height, a, b);
    IndexInjective(width, height, a, b, i, j);
    IndexInjective(width, height, a, b, i + 1, j);
    if a == i + 1 && b == j {
      OnlyDirtAt(g, width, height, i, j, a, b);
    } else if !(a == i && b == j) {
      LoneDirtLeavesOthers(g, width, height, i, j, a, b);
    }
  }

  /**
   * A single dirt cell with an empty cell directly below it falls by exactly
   * one row in a step, and nothing else changes.
   */
  lemma {:induction false} LoneDirtFalls(g: seq<CellState>, width: nat, height: nat, i: int, j: int)
    requires |g| == width * height
    requires LoneDirt(g, width, height, i, j)
    requires At(g, width, height, i + 1, j) == Empty
    ensures InBounds(width, height, i + 1, j)
    ensures Step(g, width, height)
         == g[Index(width, height, i, j) := Empty][Index(width, height, i + 1, j) := Dirt]
  {
    var e := g[Index(width, height, i, j) := Empty][Index(width, height, i + 1, j) := Dirt];
    forall k | 0 <= k < |g|
      ensures Step(g, width, height)[k] == e[k]
    {
      LoneDirtFallsAt(g, width, height, i, j, k);
    }
  }

  /**
   * A single dirt cell whose cell below is not empty stays where it is and
   * the grid does not change. This covers the bottom row, where the cell
   * below is out of range and reads as WALL.
   */
  lemma {:induction false} LoneDirtRests(g: seq<CellState>, width: nat, height: nat, i: int, j: int)
    requires |g| == width * height
    requires LoneDirt(g, width, height, i, j)
    requires At(g, width, height, i + 1, j) != Empty
    ensures Step(g, width, height) == g
  {
    var r := Step(g, width, height);
    forall k | 0 <= k < |g|
      ensures r[k] == g[k]
    {
      CoordinatesOf(width, height, k);
      var a, b := k / width, k % width;
      assert r[k] == NextState(g, width, height, a, b);
      if a == i && b == j {
        OnlyDirtAt(g, width, height, i, j, a + 1, b);
        OnlyDirtAt(g, width, height, i, j, a + 1, b + 1);
        OnlyDirtAt(g, width, height, i, j, a + 1, b - 1);
      } else if a == i + 1 && b == j {
        OnlyDirtAt(g, width, height, i, j, a, b);
      } else {
        LoneDirtLeavesOthers(g, width, height, i, j, a, b);
      }
    }
  }

  /**
   * A one-wide, three-high column with dirt on top: the dirt reaches the
   * middle row after one step, the bottom row after two, and stays there.
   */
  lemma SingleDirtDrop(top: seq<CellState>, middle: seq<CellState>, bottom: seq<CellState>)
    requires top == [Dirt, Empty, Empty]
    requires middle == [Empty, Dirt, Empty]
    requires bottom == [Empty, Empty, Dirt]
    ensures Step(top, 1, 3) == middle
    ensures Step(middle, 1, 3) == bottom
    ensures Step(bottom, 1, 3) == bottom
  {
    LoneDirtFalls(top, 1, 3, 0, 0);
    assert top[0 := Empty][1 := Dirt] == middle;
    LoneDirtFalls(middle, 1, 3, 1, 0);
    assert middle[1 := Empty][2 := Dirt] == bottom;
    LoneDirtRests(bottom, 1, 3, 2, 0);
  }

  /** The next states of the six cells of the grid in DirtNotConserved. */
  lemma SubsidingPairNextStates(g: seq<CellState>)
    requires g == [Empty, Dirt, Empty,
                   Empty, Dirt, Empty]
    ensures NextState(g, 3, 2, 0, 0) == Empty && NextState(g, 3, 2, 0, 1) == Empty
    ensures NextState(g, 3, 2, 0, 2) == Empty && NextState(g, 3, 2, 1, 0) == Dirt
    ensures NextState(g, 3, 2, 1, 1) == Dirt && NextState(g, 3, 2, 1, 2) == Dirt
  {
    assert At(g, 3, 2, 0, 1) == Dirt && At(g, 3, 2, 1, 1) == Dirt;
    assert At(g, 3, 2, 0, 0) == Empty && At(g, 3, 2, 0, 2) == Empty;
    assert At(g, 3, 2, 1, 0) == Empty && At(g, 3, 2, 1, 2) == Empty;
  }

  /**
   * The rules do not conserve dirt: in a three-wide, two-high grid with dirt
   * in the middle column of both rows, the top dirt empties once but both
   * empty cells beside the lower dirt fill, so two dirt cells become three.
   */
  lemma DirtNotConserved(g: seq<CellState>, h: seq<CellState>)
    requires g == [Empty, Dirt, Empty,
                   Empty, Dirt, Empty]
    requires h == [Empty, Empty, Empty,
                   Dirt, Dirt, Dirt]
    ensures Step(g, 3, 2) == h
    ensures multiset(g)[Dirt] == 2 && multiset(h)[Dirt] == 3
  {
    SubsidingPairNextStates(g);
    var r := Step(g, 3, 2);
    assert r[Index(3, 2, 0, 0)] == Empty && r[Index(3, 2, 0, 1)] == Empty && r[Index(3, 2, 0, 2)] == Empty;
    assert r[Index(3, 2, 1, 0)] == Dirt && r[Index(3, 2, 1, 1)] == Dirt && r[Index(3, 2, 1, 2)] == Dirt;
    assert r == h;
  }

  // ---------------------------------------------------------------------
  // The text dump
  // ---------------------------------------------------------------------

  /** The decimal digit for d. */
  function Digit(d: nat): (c: char)
    requires d < 10
    ensures '0' <= c <= '9'
  {
    ('0' as int + d) as char
  }

  /** Every character of `s` is a decimal digit. */
  predicate IsDigits(s: string)
  {
    forall k :: 0 <= k < |s| ==> '0' <= s[k] <= '9'
  }

  /** What Java's `StringBuilder.append(int)` writes for a non-negative int. */
  function DecimalString(n: nat): (s: string)
    ensures |s| >= 1 && IsDigits(s)
    ensures s[0] == '0' ==> n == 0
    decreases n
  {
    if n < 10 then [Digit(n)] else DecimalString(n / 10) + [Digit(n % 10)]
  }

  /** The number a string of decimal digits denotes. */
  function DecimalValue(s: string): nat
    requires IsDigits(s)
  {
    if s == [] then 0
    else DecimalValue(s[..|s| - 1]) * 10 + (s[|s| - 1] as int - '0' as int)
  }

  /** Reading the decimal text of n gives n back. */
  lemma {:induction false} DecimalRoundTrip(n: nat)
    ensures DecimalValue(DecimalString(n)) == n
  {
    var s := DecimalString(n);
    if n >= 10 {
      DecimalRoundTrip(n / 10);
      assert s[..|s| - 1] == DecimalString(n / 10);
    }
  }

  /** The ordinals of the cells, comma-separated, with no spaces. */
  function StatesText(g: seq<CellState>): string
  {
    if g == [] then ""
    else if |g| == 1 then DecimalString(Ordinal(g[0]))
    else StatesText(g[..|g| - 1]) + "," + DecimalString(Ordinal(g[|g| - 1]))
  }

  /** The dump of a width x height grid with cells `g`. */
  function Serialization(width: nat, height: nat, g: seq<CellState>): string
  {
    "{" + "\"width\": " + DecimalString(width) + ", \"height\": " + DecimalString(height)
      + ", \"states\": [" + StatesText(g) + "]}"
  }

  /**
   * The states text holds one digit per cell, at even positions, the cell's
   * ordinal, and a comma at every odd position between them.
   */
  lemma {:induction false} StatesTextLayout(g: seq<CellState>)
    ensures |StatesText(g)| == if g == [] then 0 else 2 * |g| - 1
    ensures forall k :: 0 <= k < |g| ==> StatesText(g)[2 * k] == Digit(Ordinal(g[k]))
    ensures forall k :: 0 <= k < |g| - 1 ==> StatesText(g)[2 * k + 1] == ','
  {
    if |g| > 1 {
      var init := g[..|g| - 1];
      StatesTextLayout(init);
      var t := StatesText(g);
      assert t == StatesText(init) + "," + [Digit(Ordinal(g[|g| - 1]))];
      forall k | 0 <= k < |g|
        ensures t[2 * k] == Digit(Ordinal(g[k]))
      {
        if k < |g| - 1 {
          assert init[k] == g[k];
        }
      }
    }
  }

  /** The states text loses no cell: two grids with the same text are the same grid. */
  lemma StatesTextDeterminesCells(g: seq<CellState>, h: seq<CellState>)
    requires StatesText(g) == StatesText(h)
    ensures g == h
  {
    StatesTextLayout(g);
    StatesTextLayout(h);
    forall k | 0 <= k < |g|
      ensures g[k] == h[k]
    {
      assert Digit(Ordinal(g[k])) == Digit(Ordinal(h[k]));
      OrdinalInjective(g[k], h[k]);
    }
  }

  /** The dump of a grid of given size loses no cell: the same dump means the same cells. */
  lemma SerializationDeterminesCells(width: nat, height: nat, g: seq<CellState>, h: seq<CellState>)
    requires Serialization(width, height, g) == Serialization(width, height, h)
    ensures g == h
  {
    var header := "{" + "\"width\": " + DecimalString(width) + ", \"height\": " + DecimalString(height)
      + ", \"states\": [";
    var s, t := Serialization(width, height, g), Serialization(width, height, h);
    assert s == header + StatesText(g) + "]}";
    assert t == header + StatesText(h) + "]}";
    assert StatesText(g) == s[|header|..|s| - 2];
    assert StatesText(h) == t[|header|..|t| - 2];
    StatesTextDeterminesCells(g, h);
  }

  /** A write result: the Java code throws where this says the cell is a wall. */
  datatype WriteResult = Written | CannotAlterWallCells

  // ---------------------------------------------------------------------
  // The automaton
  // ---------------------------------------------------------------------

  /**
   * A width x height grid held twice: `cells`, which every read sees, and
   * `cellsNext`, into which the next states are written before they are
   * copied back.
   */
  class InorganicCA {
    const width: nat
    const height: nat
    const cells: array<CellState>
    const cellsNext: array<CellState>

    ghost predicate Valid()
    {
      cells.Length == width * height && cellsNext.Length == width * height && cells != cellsNext
    }

    /** A new grid: both buffers of width * height cells, every cell empty. */
    constructor (width: nat, height: nat)
      ensures Valid() && this.width == width && this.height == height
      ensures fresh(cells) && fresh(cellsNext)
      ensures forall k :: 0 <= k < cells.Length ==> cells[k] == Empty
      ensures forall k :: 0 <= k < cellsNext.Length ==> cellsNext[k] == Empty
    {
      var current := new CellState[width * height];
      var next := new CellState[width * height];
      for k := 0 to current.Length
        invariant forall m :: 0 <= m < k ==> current[m] == Empty && next[m] == Empty
      {
        current[k] := Empty;
        next[k] := Empty;
      }
      this.width, this.height := width, height;
      cells, cellsNext := current, next;
    }

    /** The state at (i, j); never fails, and reads WALL outside the grid. */
    function GetCellState(i: int, j: int): (s: CellState)
      requires Valid()
      reads cells
      ensures !InBounds(width, height, i, j) ==> s == Wall
      ensures InBounds(width, height, i, j) ==> s == cells[Index(width, height, i, j)]
    {
      At(cells[..], width, height, i, j)
    }

    /** Writes `newState` into the next-state buffer only; walls cannot be altered. */
    method SetCellState(i: int, j: int, newState: CellState) returns (result: WriteResult)
      requires Valid()
      modifies cellsNext
      ensures result == Written <==> InBounds(width, height, i, j)
      ensures result == Written ==>
        cellsNext[..] == old(cellsNext[..])[Index(width, height, i, j) := newState]
      ensures result != Written ==> cellsNext[..] == old(cellsNext[..])
      ensures unchanged(cells)
    {
      if !InBounds(width, height, i, j) {
        return CannotAlterWallCells;
      }
      cellsNext[Index(width, height, i, j)] := newState;
      result := Written;
    }

    /** Writes `newState` at the same position of both buffers; walls cannot be altered. */
    method SetCellStateNow(i: int, j: int, newState: CellState) returns (result: WriteResult)
      requires Valid()
      modifies cells, cellsNext
      ensures result == Written <==> InBounds(width, height, i, j)
      ensures result == Written ==>
        && cells[..] == old(cells[..])[Index(width, height, i, j) := newState]
        && cellsNext[..] == old(cellsNext[..])[Index(width, height, i, j) := newState]
      ensures result != Written ==> cells[..] == old(cells[..]) && cellsNext[..] == old(cellsNext[..])
    {
      if !InBounds(width, height, i, j) {
        return CannotAlterWallCells;
      }
      var k := Index(width, height, i, j);
      cells[k] := newState;
      cellsNext[k] := newState;
      result := Written;
    }

    /** Copies the next-state buffer over the current one. */
    method AcceptNewStates()
      requires Valid()
      modifies cells
      ensures cells[..] == cellsNext[..]
    {
      for k := 0 to cells.Length
        invariant forall m :: 0 <= m < k ==> cells[m] == cellsNext[m]
      {
        cells[k] := cellsNext[k];
      }
    }

    /**
     * One synchronous step: every cell's next state is computed from the
     * current grid into the next-state buffer, row by row, and then copied
     * back. Writes made with SetCellState since the last step are overwritten.
     */
    method UpdateStates()
      requires Valid()
      modifies cells, cellsNext
      ensures cells[..] == Step(old(cells[..]), width, height)
      ensures cellsNext[..] == cells[..]
    {
      ghost var g := cells[..];
      ghost var stepped := Step(g, width, height);
      ghost var done := 0;
      for i := 0 to height
        invariant cells[..] == g
        invariant done == i * width && done <= cellsNext.Length
        invariant forall k :: 0 <= k < done ==> cellsNext[k] == stepped[k]
      {
        for j := 0 to width
          invariant cells[..] == g
          invariant done == i * width + j && done <= cellsNext.Length
          invariant forall k :: 0 <= k < done ==> cellsNext[k] == stepped[k]
        {
          var next := NextState(cells[..], width, height, i, j);
          var result := SetCellState(i, j, next);
          assert Index(width, height, i, j) == done;
          assert stepped[done] == next;
          done := done + 1;
        }
        MulSuccessor(i, width);
      }
      assert done == cellsNext.Length;
      assert cellsNext[..] == stepped;
      AcceptNewStates();
    }

    /** The per-state cell counts that `toString` prints. */
    method Histogram() returns (counts: map<CellState, nat>)
      requires Valid()
      ensures counts.Keys == {Empty, Dirt, Water, Steam, Wall}
      ensures forall s :: s in counts ==> counts[s] == Count(cells[..], s)
    {
      counts := map[Empty := 0, Dirt := 0, Water := 0, Steam := 0, Wall := 0];
      assert cells[..0] == [];
      for k := 0 to cells.Length
        invariant counts.Keys == {Empty, Dirt, Water, Steam, Wall}
        invariant forall s :: s in counts ==> counts[s] == Count(cells[..k], s)
      {
        assert cells[..k + 1] == cells[..k] + [cells[k]];
        forall s | s in counts
          ensures Count(cells[..k + 1], s) == Count(cells[..k], s) + (if cells[k] == s then 1 else 0)
        {
          CountAppend(cells[..k], cells[k], s);
        }
        counts := counts[cells[k] := counts[cells[k]] + 1];
      }
      assert cells[..cells.Length] == cells[..];
    }

    /** The text dump: width, height and every cell's ordinal in row-major order. */
    method Serialize() returns (text: string)
      requires Valid()
      ensures text == Serialization(width, height, cells[..])
    {
      text := "{";
      text := text + "\"width\": " + DecimalString(width);
      text := text + ", \"height\": " + DecimalString(height);
      text := text + ", \"states\": [";
      ghost var header := text;
      assert cells[..0] == [];
      for k := 0 to cells.Length
        invariant text == header + StatesText(cells[..k])
      {
        assert cells[..k + 1][..k] == cells[..k];
        if k > 0 {
          text := text + ",";
        }
        text := text + DecimalString(Ordinal(cells[k]));
      }
      assert cells[..cells.Length] == cells[..];
      text := text + "]}";
    }
  }
}
