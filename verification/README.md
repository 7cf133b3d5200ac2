# Terrarium inorganic automata in Dafny

Terrarium simulates a small world on a rectangular grid of cells. Each cell
holds one material: EMPTY, DIRT, WATER, STEAM or WALL. This project models
the two cellular automata that move that inorganic material.

- **`InorganicCA`** is the synchronous automaton. It has a current grid and a
  next grid, both stored row-major. One update computes every cell's next
  state from the current grid using a fixed list of rules, then copies the
  next grid over the current one. Dirt falls into an empty cell below it.
  Dirt also subsides sideways, in two pairs of rules:
  - an empty cell fills with dirt when the cell beside it, and the cell
    diagonally above it on that side, both hold dirt;
  - a dirt cell resting on dirt empties when the cell diagonally below it is
    empty.

  Out-of-range coordinates read as WALL. Writing to them is refused.
  `serialize` dumps the grid as flat JSON-like text, and `toString` prints a
  histogram of the materials.
- **`InorganicCAOneCell`** is the single-cell automaton. It works on the same
  grid but moves cells one at a time, in place. It takes the movement angles
  in enumeration order. For each angle it builds a worklist of the cells that
  may move that far and drains it. A cell moves by swapping with a target
  that is "empty for" it: first the target at `+dx`, then the mirror target
  at `-dx`. Each move marks its destination as updated for the rest of the
  pass and puts the mover's neighbours back on the worklist. The whole pass
  is also written as a function, `OneCell.Pass`, built from the drain of one
  worklist, `OneCell.Drain`. The method `UpdateStates` is proved to compute
  exactly `Pass`, and the properties of a pass are proved as lemmas about
  `Pass`.

The `Angle` type, each material's `maxAngle`, the relation
`isEmptyFor` and `swapStates` are not defined in InorganicCA.java or
InorganicCAOneCell.java. They are parameters, gathered in
`OneCell.Physics`, and `OneCell.Assumed` states what the model assumes about
them:
- the angles are an enumeration and contain NONE;
- `isBiggerThan` is a strict order;
- no material is empty for itself;
- WALL is empty for nothing.

Files:

- `cells.dfy` (module `Cells`): the materials, the row-major layout, reading
  a cell, swapping two cells and counting a material.
- `inorganic_ca.dfy` (module `Inorganic`) holds four things:
  - the next-state rule as a function over the grid;
  - one synchronous step, `Step`, with the properties proved about it;
  - the serialization text;
  - the class `InorganicCA`, whose methods are proved against those functions.
- `one_cell.dfy` (module `OneCell`) holds five things:
  - the choice of where a cell moves (`MoveTarget`);
  - the neighbour list and the worklist, as row-major scans (`Scan`);
  - a ghost log of the moves made (`Move`, `Replay`, `Legal`);
  - the pass as functions (`Drain`, `Pass`), with the lemmas about it;
  - the class `InorganicCAOneCell`, which wraps an `InorganicCA` grid
    because InorganicCAOneCell extends InorganicCA.

The step of the synchronous automaton does not conserve dirt.
`Inorganic.DirtNotConserved` proves that a 3x2 grid with two dirt cells has
three of them after one step. Swapping cells conserves every material: see
`OneCell.ReplayPreservesMultiset`.

## Model

| member | source | states |
|---|---|---|
| Cells.OrdinalInjective | src/terrarium/InorganicCA.java:32 | distinct materials have distinct ordinals |
| Cells.IndexCoordinates | src/terrarium/InorganicCA.java:51 | row and column are recovered from the row-major position i*width+j |
| Cells.IndexInjective | src/terrarium/InorganicCA.java:51 | two in-bounds cells share a position exactly when they are the same cell |
| Cells.CoordinatesOf | src/terrarium/InorganicCA.java:41-44 | every array position 0..width*height-1 is the position of exactly one in-bounds cell |
| Cells.At | src/terrarium/InorganicCA.java:47-52 | reads WALL outside the grid and otherwise the state at row-major position i*width+j of a grid snapshot; ReadAfterWrite proves that a write is read back at its own cell and changes no other read |
| Cells.ReadAfterWrite | src/terrarium/InorganicCA.java:47-59 | after writing s at an in-bounds cell, that cell reads s and every other coordinate, in range or not, reads as before |
| Cells.Swap | src/terrarium/InorganicCAOneCell.java:39 | the grid keeps its length and has the entries at two positions exchanged; SwapPreservesMultiset proves that this conserves every material |
| Cells.SwapPreservesMultiset | src/terrarium/InorganicCAOneCell.java:37-43 | exchanging two cells leaves the multiset of materials unchanged |
| Cells.Count | src/terrarium/InorganicCA.java:122-128 | the histogram count of a material is at most the number of cells; CountIsMultiplicity and CountsSumToSize prove it is the material's multiplicity and that the five counts add up to the size |
| Cells.CountIsMultiplicity | src/terrarium/InorganicCA.java:122-128 | the histogram count of a material is its multiplicity in the grid |
| Cells.CountsSumToSize | src/terrarium/InorganicCA.java:122-128 | the five histogram counts add up to the number of cells |
| Inorganic.NextState | src/terrarium/InorganicCA.java:75-108 | the six rules in source order, the first that applies deciding, and otherwise the state kept; NextStateMovesOnlyDirt, InertStatesKeep and NextStateIsLocal prove that only dirt moves, that water, steam and wall stay, and that only the 3x3 block matters |
| Inorganic.NextStateMovesOnlyDirt | src/terrarium/InorganicCA.java:75-108 | a cell keeps its state, or EMPTY becomes DIRT with dirt in the row above, or DIRT becomes EMPTY with an empty cell in the row below |
| Inorganic.InertStatesKeep | src/terrarium/InorganicCA.java:75-108 | WATER, STEAM and WALL cells never change state |
| Inorganic.NextStateIsLocal | src/terrarium/InorganicCA.java:75-108 | the next state depends only on the 3x3 block around the cell |
| Inorganic.Step | src/terrarium/InorganicCA.java:110-118 | every in-bounds cell's position holds that cell's next state, computed from the old grid |
| Inorganic.NoDirtIsFixedPoint | src/terrarium/InorganicCA.java:110-118 | a grid without dirt is left unchanged by a step |
| Inorganic.LoneDirtFalls | src/terrarium/InorganicCA.java:79-83 | a single dirt cell above an empty cell moves down by one row and nothing else changes |
| Inorganic.LoneDirtRests | src/terrarium/InorganicCA.java:75-108 | a single dirt cell whose cell below is not empty stays put, and the grid is unchanged |
| Inorganic.SingleDirtDrop | src/terrarium/InorganicCA.java:110-118 | in a one-wide column of three, dirt reaches the bottom in two steps and then stays |
| Inorganic.DirtNotConserved | src/terrarium/InorganicCA.java:85-105 | the subsiding rules can turn two dirt cells into three in one step |
| Inorganic.SubsidingPairNextStates | src/terrarium/InorganicCA.java:85-105 | in that grid the top dirt empties and both empty cells beside the lower dirt fill by the subsiding rules |
| Inorganic.DecimalString | src/terrarium/InorganicCA.java:147 | a number is printed as a non-empty digit string with no leading zero |
| Inorganic.DecimalRoundTrip | src/terrarium/InorganicCA.java:141-147 | reading back the printed decimal gives the number |
| Inorganic.StatesText | src/terrarium/InorganicCA.java:144-148 | the ordinals of the cells, comma-separated; StatesTextLayout fixes its layout and StatesTextDeterminesCells shows it loses no cell |
| Inorganic.StatesTextLayout | src/terrarium/InorganicCA.java:144-148 | the state list has 2n-1 characters: cell k's ordinal digit at position 2k and commas between them |
| Inorganic.StatesTextDeterminesCells | src/terrarium/InorganicCA.java:144-148 | two grids with the same states text are the same grid, because distinct states have distinct ordinals |
| Inorganic.Serialization | src/terrarium/InorganicCA.java:138-152 | the header with width and height, the states text and the closing brackets; SerializationDeterminesCells shows the dump loses no cell |
| Inorganic.SerializationDeterminesCells | src/terrarium/InorganicCA.java:138-152 | two grids of the same size with the same dump are the same grid |
| Inorganic.InorganicCA.constructor | src/terrarium/InorganicCA.java:35-45 | both grids have width*height cells, all EMPTY |
| Inorganic.InorganicCA.GetCellState | src/terrarium/InorganicCA.java:47-52 | WALL outside the grid, otherwise the current state at row-major position i*width+j |
| Inorganic.InorganicCA.SetCellState | src/terrarium/InorganicCA.java:54-59 | refused exactly when out of range; otherwise only that cell of the next grid changes; the current grid never changes |
| Inorganic.InorganicCA.SetCellStateNow | src/terrarium/InorganicCA.java:61-68 | refused exactly when out of range, with nothing changed; otherwise that cell changes in both grids and nothing else does |
| Inorganic.InorganicCA.AcceptNewStates | src/terrarium/InorganicCA.java:71-73 | the current grid becomes a copy of the next grid |
| Inorganic.InorganicCA.UpdateStates | src/terrarium/InorganicCA.java:110-118 | the current grid becomes Step of the old grid, and the next grid equals it |
| Inorganic.InorganicCA.Histogram | src/terrarium/InorganicCA.java:121-128 | one entry per material, each holding the number of cells of that material |
| Inorganic.InorganicCA.Serialize | src/terrarium/InorganicCA.java:138-152 | the text is the header with width and height, followed by the comma-separated ordinals of the cells in row-major order |
| OneCell.MoveTarget | src/terrarium/InorganicCAOneCell.java:52-72 | no move when the angle exceeds the material's largest angle; a move goes to an in-bounds cell in row i+dy and column j±dx that is empty for the mover, never to the mover itself; the -dx column is chosen only when the +dx column refuses; conversely, when the angle is allowed, an accepting +dx column is always chosen, and an accepting -dx column is chosen when +dx refuses |
| OneCell.AtMostEightNeighbours | src/terrarium/InorganicCAOneCell.java:74 | a list of distinct cells around a point has at most eight entries |
| OneCell.ScanRowMembers | src/terrarium/InorganicCAOneCell.java:78-82 | one row of a scan lists exactly the selected points of that row between its column bounds |
| OneCell.ScanRowIncreasing | src/terrarium/InorganicCAOneCell.java:78-82 | one row of a scan lists its points left to right |
| OneCell.ScanSpec | src/terrarium/InorganicCAOneCell.java:77-83 | a scan of a rectangle lists exactly its selected points, in strict row-major order |
| OneCell.NeighbourList | src/terrarium/InorganicCAOneCell.java:74-85 | the clamped nested loops as a row-major scan that skips p; NeighbourListSpec proves it holds exactly the in-bounds cells adjacent to p, each once, in row-major order, at most eight |
| OneCell.NeighbourListSpec | src/terrarium/InorganicCAOneCell.java:74-85 | the neighbour list holds exactly the in-bounds cells adjacent to p, not p itself, each once, in row-major order, at most eight |
| OneCell.Worklist | src/terrarium/InorganicCAOneCell.java:94-101 | the nested loops over the whole grid as a row-major scan of the cells that may move at the angle; WorklistSpec proves it holds exactly those in-bounds cells, in row-major order |
| OneCell.WorklistSpec | src/terrarium/InorganicCAOneCell.java:94-101 | the worklist of an angle holds exactly the in-bounds cells whose material may move at that angle, in row-major order |
| OneCell.OnGridNext | src/terrarium/InorganicCAOneCell.java:102-108 | taking the first entry of a worklist of in-bounds cells, and appending in-bounds neighbours, leaves a worklist of in-bounds cells |
| OneCell.LegalExtend | src/terrarium/InorganicCAOneCell.java:105-108 | a move chosen by MoveTarget on the current grid extends a legal history, and replaying it swaps source and target |
| OneCell.ProgressExtend | src/terrarium/InorganicCAOneCell.java:102-111 | a move from a cell not yet updated, at the current angle, keeps the pass invariant once its target is marked updated |
| OneCell.ReplayPreservesMultiset | src/terrarium/InorganicCAOneCell.java:87-113 | moving cells by swaps creates and destroys no material |
| OneCell.ReplayPreservesCounts | src/terrarium/InorganicCAOneCell.java:87-113 | each material's histogram count is the same after any moves |
| OneCell.Drain | src/terrarium/InorganicCAOneCell.java:102-111 | draining keeps the grid size, spends fuel, makes at most one move per entry taken, and stops undrained only with entries left and no fuel |
| OneCell.DrainSkips | src/terrarium/InorganicCAOneCell.java:103-106 | an entry already updated, or one that cannot move, is dropped at the cost of one unit of fuel, with nothing else changed |
| OneCell.DrainMoves | src/terrarium/InorganicCAOneCell.java:103-109 | an entry that moves is swapped with its target, the target is marked updated, the move is logged and the entry's neighbours are appended |
| OneCell.Pass | src/terrarium/InorganicCAOneCell.java:87-113 | a pass keeps the grid size, spends fuel, makes at most one move per entry taken, and stops undrained only when the fuel is spent |
| OneCell.PassAtAngle | src/terrarium/InorganicCAOneCell.java:90-112 | at an angle other than NONE the pass drains that angle's worklist, and goes on to the next angle exactly when the drain emptied it |
| OneCell.DrainKeepsProgress | src/terrarium/InorganicCAOneCell.java:102-111 | a drain keeps the pass invariant: its grid is its moves replayed, the moves are legal, every target is marked updated, no move starts at an earlier target, and the angles are ordered and never NONE |
| OneCell.KeptWeaken | src/terrarium/InorganicCAOneCell.java:90 | the pass invariant bounded by one angle position holds for every later position |
| OneCell.AngleKeepsProgress | src/terrarium/InorganicCAOneCell.java:94-111 | draining the worklist built at an angle keeps the pass invariant, now with that angle as the bound |
| OneCell.PassKeepsProgress | src/terrarium/InorganicCAOneCell.java:90-112 | every remaining angle of a pass keeps the pass invariant |
| OneCell.SkipKeepsProgress | src/terrarium/InorganicCAOneCell.java:91-93 | skipping NONE keeps the pass invariant for the rest of the pass |
| OneCell.DrainThenPassKeepsProgress | src/terrarium/InorganicCAOneCell.java:94-112 | draining an angle's worklist and then the rest of the pass keeps the pass invariant |
| OneCell.QuietDrain | src/terrarium/InorganicCAOneCell.java:102-111 | a drain that empties its worklist without moving anything leaves the grid and the updated cells unchanged, and none of its in-bounds entries that were not updated could move |
| OneCell.StillDrain | src/terrarium/InorganicCAOneCell.java:102-111 | when no in-bounds cell can move at the angle, a drain changes neither the grid, the updated cells nor the moves |
| OneCell.QuietAngle | src/terrarium/InorganicCAOneCell.java:94-111 | at the first angle of a quiet pass the drain is quiet, the rest of the pass is the same, and no cell that was not updated could move at that angle |
| OneCell.QuietPass | src/terrarium/InorganicCAOneCell.java:90-112 | a pass that empties every worklist without moving anything shows that no cell that was not updated could move at any later angle but NONE |
| OneCell.QuietAngleThenPass | src/terrarium/InorganicCAOneCell.java:94-112 | the same for a quiet pass whose first angle is not NONE |
| OneCell.StillPass | src/terrarium/InorganicCAOneCell.java:90-112 | when no cell can move at any remaining angle but NONE, the rest of the pass makes no move |
| OneCell.StillAngleThenPass | src/terrarium/InorganicCAOneCell.java:94-112 | the same when the first remaining angle is not NONE |
| OneCell.StablePassMovesNothing | src/terrarium/InorganicCAOneCell.java:87-113 | a whole pass over a grid where no cell can move at any angle but NONE makes no move |
| OneCell.QuietPassMeansStable | src/terrarium/InorganicCAOneCell.java:87-113 | a whole pass that empties every worklist without moving anything shows that no cell of the grid can move at any angle but NONE |
| OneCell.PassGuarantees | src/terrarium/InorganicCAOneCell.java:87-113 | a whole pass makes legal moves that replay to its grid, conserves materials, never moves a cell out of a cell that already received one, and takes the angles in enumeration order, never NONE |
| OneCell.NeighboursWithin | src/terrarium/InorganicCAOneCell.java:76-83 | the nested loops list every point of the rectangle except p, in row-major order |
| OneCell.InorganicCAOneCell.constructor | src/terrarium/InorganicCAOneCell.java:33-35 | a grid of the given size with every cell EMPTY, in the current and the next grid |
| OneCell.InorganicCAOneCell.SwapStates | src/terrarium/InorganicCAOneCell.java:39 | the two in-bounds cells exchange states and nothing else changes |
| OneCell.InorganicCAOneCell.PushState | src/terrarium/InorganicCAOneCell.java:37-43 | returns whether the target is empty for the source; if so the two are swapped (so the target is in range), otherwise the grid is unchanged |
| OneCell.InorganicCAOneCell.UpdateCell | src/terrarium/InorganicCAOneCell.java:52-72 | returns MoveTarget of the old grid, which takes every accepting target it may; if none, the grid is unchanged, otherwise mover and target are swapped |
| OneCell.InorganicCAOneCell.Neighbours | src/terrarium/InorganicCAOneCell.java:74-85 | exactly the in-bounds cells adjacent to p, excluding p, each once, in row-major order, at most eight |
| OneCell.InorganicCAOneCell.InitialWorklist | src/terrarium/InorganicCAOneCell.java:94-101 | exactly the in-bounds cells whose material may move at the angle, in row-major order |
| OneCell.InorganicCAOneCell.DrainWorklist | src/terrarium/InorganicCAOneCell.java:102-111 | the grid, updated cells, budget and moves it leaves are those of Drain on the old grid, and the worklist is empty exactly when Drain reports it drained |
| OneCell.InorganicCAOneCell.UpdateStates | src/terrarium/InorganicCAOneCell.java:87-113 | the result is exactly Pass on the old grid with no cell updated; so the final grid replays the logged moves, each chosen by MoveTarget on the grid before it; no cell moves after receiving a mover; angles are taken in enumeration order, never NONE; materials are conserved; the pass stops early only when the budget is spent; and a pass that empties every worklist makes no move exactly when no cell of the old grid can move at any angle but NONE |

## Left out

- OneCell.InorganicCAOneCell.UpdateStates: the worklist loop is bounded by a budget of `fuel` entries taken from the worklists, because the termination of the loop at InorganicCAOneCell.java:102-111 does not follow from its code (a neighbour can be put back on the worklist many times). The model does not prove that a pass with no budget ends. A pass that runs out of budget while a worklist still has entries stops and reports `drained == false`. So `drained == false` means the whole budget was spent. A pass whose last unit of budget empties the last worklist still reports `drained == true`. The same budget bounds the functions `OneCell.Drain` and `OneCell.Pass`.
- OneCell.Drain: skips a worklist entry that lies off the grid. The pass never lists one, because the worklist and the neighbour lists hold only in-bounds cells.
- OneCell.NeighbourList: when p is off the grid, the clamped lower bound of a range can exceed its upper bound. The range is then empty, just as the `for` loop at InorganicCAOneCell.java:77-78 runs no iteration.
- Inorganic.InorganicCA.constructor: takes natural-number dimensions, and `width*height` is not wrapped to 32 bits. In InorganicCA.java, one negative and one positive dimension make the array size negative, and the allocation throws. Two negative dimensions, such as -2 and -3, allocate 6 cells that no coordinate reaches: every read is WALL and every write is refused. A product past 2^31 wraps: width 65537 and height 65536 allocate 65536 cells, and then the in-bounds cell (1, 0) indexes position 65537, past the end of the array. None of these cases is modelled.
- Inorganic.InorganicCA.SetCellState and Inorganic.InorganicCA.SetCellStateNow: InorganicCA.java throws IllegalArgumentException for an out-of-range cell. Here they return `CannotAlterWallCells`, and nothing changes.
- OneCell.InorganicCAOneCell.PushState and OneCell.InorganicCAOneCell.UpdateCell: they require an in-bounds source cell. Every call from the pass meets that requirement. What swapStates does with an out-of-range cell is unknown.
- OneCell.InorganicCAOneCell.SwapStates: swapStates is not defined in InorganicCA.java or InorganicCAOneCell.java. Its behaviour is assumed to be an exchange of two in-bounds cells of the current grid.
- The Angle enumeration, CellState.maxAngle and CellState.isEmptyFor are not defined in InorganicCA.java or InorganicCAOneCell.java. They are parameters, constrained only by `OneCell.Assumed`.
- Inorganic.InorganicCA.Histogram: only the counts of `toString` are modelled. The text formatting of the enum names is left out.
- The commented-out random left/right choice in updateCell is not part of the behaviour and is not modelled.
- The user interface, rendering, the setup wizard and the application entry point are not modelled. They perform I/O and call the automata only from outside.
