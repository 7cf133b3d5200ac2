/**
 * The grid shared by both inorganic automata: the cell states, the row-major
 * layout of a width*height grid, reading a cell (out-of-range reads are WALL)
 * and the per-material counts of a grid.
 */
module Cells {

  /** The materials a cell can hold, in the order of their declaration. */
  datatype CellState = Empty | Dirt | Water | Steam | Wall

  /** Position of a state in its declaration, as Java's `ordinal()` gives it. */
  function Ordinal(s: CellState): (n: nat)
    ensures n < 5
  {
    match s
    case Empty => 0
    case Dirt => 1
    case Water => 2
    case Steam => 3
    case Wall => 4
  }

  /** Distinct states have distinct ordinals. */
  lemma OrdinalInjective(s: CellState, t: CellState)
    ensures Ordinal(s) == Ordinal(t) ==> s == t
  {
  }

  /** Row i lies in [0, height) and column j in [0, width). */
  predicate InBounds(width: int, height: int, i: int, j: int)
  {
    0 <= i < height && 0 <= j < width
  }

  lemma MulMonotone(a: int, b: int, c: nat)
    requires a <= b
    ensures a * c <= b * c
  {
  }

  lemma MulSuccessor(a: int, c: int)
    ensures (a + 1) * c == a * c + c
  {
  }

  /** Row-major position of an in-bounds cell. */
  function Index(width: nat, height: nat, i: int, j: int): (k: nat)
    requires InBounds(width, height, i, j)
    ensures k < width * height
  {
    MulMonotone(i, height - 1, width);
    i * width + j
  }

  /** Row and column are recovered from the row-major position. */
  lemma {:induction false} IndexCoordinates(width: nat, height: nat, i: int, j: int)
    requires InBounds(width, height, i, j)
    ensures Index(width, height, i, j) / width == i
    ensures Index(width, height, i, j) % width == j
  {
    var k := Index(width, height, i, j);
    var q, r := k / width, k % width;
    assert k == q * width + r;
    assert i * width + j == q * width + r;
    if q < i {
      MulMonotone(q + 1, i, width);
      assert false;
    } else if q > i {
      MulMonotone(i + 1, q, width);
      assert false;
    }
  }

  /** Distinct in-bounds cells occupy distinct positions. */
  lemma IndexInjective(width: nat, height: nat, i1: int, j1: int, i2: int, j2: int)
    requires InBounds(width, height, i1, j1) && InBounds(width, height, i2, j2)
    ensures Index(width, height, i1, j1) == Index(width, height, i2, j2) <==> i1 == i2 && j1 == j2
  {
    IndexCoordinates(width, height, i1, j1);
    IndexCoordinates(width, height, i2, j2);
  }

  /** Every position of the grid is the position of exactly one cell. */
  lemma CoordinatesOf(width: nat, height: nat, k: int)
    requires 0 <= k < width * height
    ensures width > 0
    ensures InBounds(width, height, k / width, k % width)
    ensures Index(width, height, k / width, k % width) == k
  {
  }

  /** The state read at (i, j) from a row-major grid `g`: WALL outside it. */
  function At(g: seq<CellState>, width: nat, height: nat, i: int, j: int): CellState
    requires |g| == width * height
  {
    if InBounds(width, height, i, j) then g[Index(width, height, i, j)] else Wall
  }

  /**
   * Writing a state into an in-bounds cell is read back there, and no other
   * coordinate, in range or not, reads differently.
   */
  lemma ReadAfterWrite(g: seq<CellState>, width: nat, height: nat, i: int, j: int, s: CellState, i': int, j': int)
    requires |g| == width * height && InBounds(width, height, i, j)
    ensures At(g[Index(width, height, i, j) := s], width, height, i', j')
         == if i' == i && j' == j then s else At(g, width, height, i', j')
  {
    if InBounds(width, height, i', j') {
      IndexInjective(width, height, i, j, i', j');
    }
  }

  /** The grid with the entries at positions a and b exchanged. */
  function Swap(g: seq<CellState>, a: nat, b: nat): (r: seq<CellState>)
    requires a < |g| && b < |g|
    ensures |r| == |g|
  {
    g[a := g[b]][b := g[a]]
  }

  /** Exchanging two entries creates and destroys no material. */
  lemma SwapPreservesMultiset(g: seq<CellState>, a: nat, b: nat)
    requires a < |g| && b < |g|
    ensures multiset(Swap(g, a, b)) == multiset(g)
  {
  }

  /** Number of cells of `g` holding `s`. */
  function Count(g: seq<CellState>, s: CellState): (n: nat)
    ensures n <= |g|
  {
    if g == [] then 0
    else Count(g[..|g| - 1], s) + (if g[|g| - 1] == s then 1 else 0)
  }

  /** Appending a cell adds one to its own state's count only. */
  lemma CountAppend(g: seq<CellState>, x: CellState, s: CellState)
    ensures Count(g + [x], s) == Count(g, s) + (if x == s then 1 else 0)
  {
    assert (g + [x])[..|g|] == g;
  }

  /** The count of a state is its multiplicity in the grid's multiset. */
  lemma {:induction false} CountIsMultiplicity(g: seq<CellState>, s: CellState)
    ensures Count(g, s) == multiset(g)[s]
  {
    if g != [] {
      var init := g[..|g| - 1];
      CountIsMultiplicity(init, s);
      assert g == init + [g[|g| - 1]];
      assert multiset(g) == multiset(init) + multiset{g[|g| - 1]};
    }
  }

  /** The five per-material counts add up to the number of cells. */
  lemma {:induction false} CountsSumToSize(g: seq<CellState>)
    ensures Count(g, Empty) + Count(g, Dirt) + Count(g, Water) + Count(g, Steam) + Count(g, Wall) == |g|
  {
    if g != [] {
      CountsSumToSize(g[..|g| - 1]);
    }
  }
}
