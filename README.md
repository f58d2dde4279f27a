# Sudoku candidate propagation, modelled in Dafny

This project models the candidate-bookkeeping core of a 9x9 Sudoku solver
written in Rust. The core has three nested `Copy` types:

- **Cell** (`src/cell.rs`): an optional digit, an `is_given` flag and a `u16`
  candidate mask in which bit v set means "digit v is still possible".
- **Group** (`src/group.rs`): one 3x3 block. It holds nine cells, a
  `group_values` mask of the digits placed in the block, and six line masks:
  `group_candidates[0][i]` for internal row i, `group_candidates[1][i]` for
  internal column i.
  - `set_value` checks the target cell's candidate bit, then places the digit
    and propagates it inside the block.
  - `recive_propagation` takes a row and/or column elimination sent by a
    sibling block.
- **Grid** (`src/grid.rs`): 3x3 blocks plus one mask per absolute row and per
  absolute column. `set_value` sends absolute position (row, col) to block
  (row / 3, col / 3) at local position (row % 3, col % 3). `propagate_changes`
  then does two things:
  - It clears the digit from the masks of the whole band and the whole stack.
  - It passes a row elimination to the other two blocks of the band, and a
    column elimination to the other two blocks of the stack.

## How the model is built

- **Masks** (`masks.dfy`):
  - A `u16` mask is the set of positions of its one bits (`Mask = set<Shift>`,
    where `Shift` is 0..15). `m | 1 << v` is `m + {v}`, `m & !(1 << v)` is
    `m - {v}`, `m & (1 << v) != 0` is `v in m`, and `count_ones` is `|m|`.
    `SetBitValue` and `ClearBitValue` prove the first two against the integer
    value, adding or subtracting `2^v`. `TestBitValue` proves the third: bit v
    of the integer, `Bit(x, v)`, which is `(x >> v) & 1`, is one exactly when
    v is in the set.
  - `ToU16` gives the integer a mask stands for. The constant
    `0b11_1111_1110` is checked against it (`AllDigitsValue`).
- **Values and objects**: each type has a pure value (`CellState`,
  `GroupState`, `GridState`) whose functions define the operations. Each also
  has a class (`Cell`, `Group`, `Grid`) whose methods update fields and arrays
  in place. Every method that models a source function is proved to move its
  object from `old(State())` to the matching function of that state; the
  per-loop helper methods state their effect element by element against
  `old(...)`.
- **Loops**: the loops of the source are `for` loops with invariants. Where
  one source function holds a nested loop or several loops, these sit in helper
  methods named after what they do (`ClearFilledCells`, `ClearLineMasks`,
  `PropagateAlongBand`, ...), whose doc comments cite the lines they cover; a
  single flat loop, such as the mask loop of `Group::propagate_changes`, stays
  inline.
- **Arrays of values**: Rust's `[[Cell; 3]; 3]` and `[[Group; 3]; 3]` hold
  their elements inline, by value. So `Group.cells` is an `array2<CellState>`
  and `Grid.sudokuCells` an `array2<GroupState>`, and a method called on an
  element is an assignment to that element. For example,
  `cells[r, c] := cells[r, c].ClearCandidate(val)` is
  `self.cells[r][c].clear_candidate(val)`, and the `Cell` and `Group` classes
  state the same transitions for a single object.
- **Panics**: the panic in `Group::set_value` is a refusal. The function
  returns `None` and the method returns `false`, and in both cases nothing
  has changed. `Grid::set_value` is refused exactly when its block's call is
  refused.

### Behaviour of the code worth knowing

- **Filled cells only**: the clearing loops (`src/group.rs:47`, `:61`, `:70`)
  are guarded by `has_value()`. They reach only filled cells, whose masks
  `set_value` has already emptied, so the empty peers of a placed digit keep
  it as a candidate.
  - Empty cells never lose a candidate (`Groups.EmptyCellsAreNotTouched`,
    `Grids.SetValueLeavesEmptyCells`).
  - On a settled grid, a successful `set_value` changes no cell other than
    the one it sets (`Grids.SettledSetValueTouchesOneCell`).
  - So, against the Sudoku rule, the same digit can go twice in a row: after
    5 is placed at (0, 0), cell (0, 1) still admits 5 and accepts it
    (`Grids.SameDigitTwiceInRow`).
- **Block checks**: `Group::set_value` checks only the target cell's
  candidate bit (`src/group.rs:25`). A digit already in `group_values` is not
  refused (`Groups.SameDigitTwiceInBlock`). The code never tests whether the
  block is full: a settled block whose nine cells all hold a digit refuses
  every placement only because each filled cell's mask is empty
  (`Groups.FullSettledBlockRefuses`).
- **Comment and code**: the comment at `src/cell.rs:24` says the mask is reset
  to all candidates. The code sets it to `0b0`, and so does the model.

Also, the grid-level mask loop clears the digit from all three row masks of
the band and all three column masks of the stack, not only from the row and
column of the placed cell (`src/grid.rs:36-39`).

## Model

| member | source | states |
|---|---|---|
| Masks.ToU16 | src/cell.rs:7 | the integer value of a mask is a `u16`, below 0x1_0000 |
| Masks.AllDigitsValue | src/cell.rs:15 | the default mask, bits 1..9, is the constant 0x3FE = 0b11_1111_1110 with bit 0 clear; the empty mask is 0 |
| Masks.SetBitValue | src/cell.rs:37-39 | the or-assignment with `1 << val`, on the integer: setting bit val adds 2^val unless it was already set |
| Masks.ClearBitValue | src/cell.rs:41-42 | the and-assignment with `!(1 << val)`, on the integer: clearing bit val subtracts 2^val if it was set |
| Masks.TestBitValue | src/cell.rs:31-35 | `candidates & (1 << val) != 0`, on the integer: bit val of the value is one exactly when val is in the mask |
| Masks.SingleBit | src/cell.rs:51-53 | `count_ones() == 1` holds exactly when the mask is a single bit {k} |
| Cells.DefaultCell | src/cell.rs:10-18 | no value, not given, mask value 0x3FE, and digit w is a candidate exactly when 1 <= w <= 9 |
| Cells.CellState.SetValue | src/cell.rs:21-25 | value becomes Some(val), the flag is stored, the mask is 0, and no digit can be set afterwards |
| Cells.CellState.SetCandidate | src/cell.rs:37-39 | bit val becomes set; every other bit, the value and the flag are unchanged |
| Cells.CellState.ClearCandidate | src/cell.rs:41-45 | bit val becomes clear; every other bit, the value and the flag are unchanged |
| Cells.CellState.SetCandidateVal | src/cell.rs:47-49 | the candidates become exactly the given mask; value and flag unchanged |
| Cells.CellState.ClearIfFilled | src/group.rs:47-49 | the guarded clear: an empty cell is returned unchanged, a filled cell loses bit val and nothing else |
| Cells.CellState.HasValue | src/cell.rs:27-29 | `has_value` holds exactly when the value is not None |
| Cells.CellState.CanSetValue | src/cell.rs:31-35 | `can_set_value(val)` holds exactly when bit val of the mask's `u16` is one |
| Cells.CellState.IsSingleCandidate | src/cell.rs:51-53 | `_is_single_candidate` holds exactly when the mask is a single bit {k} |
| Cells.SingleCandidateIgnoresValue | src/cell.rs:51-53 | `_is_single_candidate` does not depend on the cell's value |
| Cells.ClearCandidateIdempotent | src/cell.rs:41-42 | clearing a bit twice equals clearing it once |
| Cells.SetThenTest | src/cell.rs:31-42 | after setting bit val, `can_set_value(val)` holds; after clearing it, it does not; set then clear equals clear |
| Cells.Cell.Default | src/cell.rs:10-18 | a new cell's state is the default cell |
| Cells.Cell.SetValue | src/cell.rs:21-25 | the fields become the value-level `set_value` of the old state |
| Cells.Cell.SetCandidate | src/cell.rs:37-39 | the fields become the value-level `_set_candidate` of the old state |
| Cells.Cell.ClearCandidate | src/cell.rs:41-45 | the fields become the value-level `clear_candidate` of the old state |
| Cells.Cell.SetCandidateVal | src/cell.rs:47-49 | the fields become the value-level `_set_candidate_val` of the old state |
| Groups.GroupState.PropagateChanges | src/group.rs:36-53 | a no-op unless val is in `group_values`; otherwise all six line masks lose val, every cell is cleared if filled, and `group_values` stays |
| Groups.GroupState.ClearColumn | src/group.rs:57-65 | only column mask col loses val; only cells of column col are cleared if filled; row masks and `group_values` stay |
| Groups.GroupState.ClearRow | src/group.rs:66-74 | only row mask row loses val; only cells of row row are cleared if filled; column masks and `group_values` stay |
| Groups.GroupState.ReceivePropagation | src/group.rs:55-75 | row mask i loses val exactly when row is Some(i), column mask j exactly when col is Some(j); exactly the cells on a named line are cleared if filled; `group_values` never changes |
| Groups.GroupState.SetValue | src/group.rs:23-34 | refused exactly when the cell does not admit val; otherwise the cell holds val with its flag, `group_values` gains exactly val, all six line masks lose val, and every other cell is cleared if filled |
| Groups.ClearIfFilledIdempotent | src/group.rs:55-75 | clearing the cell where the named row and column cross twice equals clearing it once |
| Groups.DefaultGroup | src/group.rs:12-19 | nine default cells, no digit placed, every line mask the all-digits mask; the block is settled |
| Groups.EmptyCellsAreNotTouched | src/group.rs:36-75 | both propagations keep every cell's value and flag, leave every empty cell exactly as it was, and take val from the filled cells they reach |
| Groups.SetValueLeavesOtherCells | src/group.rs:23-53 | outside the placed cell, `set_value` keeps values and flags, leaves empty cells unchanged, and takes val from filled cells |
| Groups.SettledIsPreserved | src/group.rs:23-75 | `set_value`, `propagate_changes` and `recive_propagation` keep every filled cell's mask empty |
| Groups.SettledCellIsFixed | src/group.rs:47-49 | the guarded clear leaves a cell unchanged when its mask is already empty or it has no value |
| Groups.PropagationLeavesSettledCells | src/group.rs:45-51 | on a settled block, `propagate_changes` changes no cell |
| Groups.ReceptionLeavesSettledCells | src/group.rs:55-75 | on a settled block, `recive_propagation` changes no cell |
| Groups.SecondSetValueFails | src/group.rs:23-34 | a second `set_value` on the same cell is always refused |
| Groups.SameDigitTwiceInBlock | src/group.rs:23-34 | the same digit can be placed in two cells of one default block |
| Groups.FullSettledBlockRefuses | src/group.rs:23-31 | with no test for a full block, a settled block with all nine cells filled refuses every placement through the cell check alone |
| Groups.Group.Default | src/group.rs:12-19 | a new block's state is the default block |
| Groups.Group.SetValue | src/group.rs:23-34 | returns false, with the state unchanged, exactly when the value-level `set_value` refuses; otherwise the state becomes its result |
| Groups.Group.PropagateChanges | src/group.rs:36-53 | the state becomes the value-level `propagate_changes` of the old state |
| Groups.Group.ClearFilledCells | src/group.rs:45-51 | every cell becomes its guarded clear of val |
| Groups.Group.ReceivePropagation | src/group.rs:55-75 | the state becomes the value-level `recive_propagation` of the old state |
| Groups.Group.ClearColumn | src/group.rs:57-65 | the state becomes the column half of `recive_propagation` |
| Groups.Group.ClearRow | src/group.rs:66-74 | the state becomes the row half of `recive_propagation` |
| Grids.GridState.At | src/grid.rs:22-25 | absolute position (row, col) is local position (row % 3, col % 3) of block (row / 3, col / 3) |
| Grids.GridState.AtBlockPosition | src/grid.rs:22-25 | the split is a round trip: local (r, k) of block (i, j) is absolute (3 * i + r, 3 * j + k) |
| Grids.GridState.PropagateChanges | src/grid.rs:32-56 | row mask k loses val exactly when k / 3 == row / 3, column mask k exactly when k / 3 == col / 3; band siblings receive a row-only and stack siblings a column-only elimination; the originating block and the four others are unchanged; no block's `group_values` changes |
| Grids.GridState.SetValue | src/grid.rs:21-30 | refused exactly when the cell does not admit val, that is exactly when block (row / 3, col / 3) refuses at (row % 3, col % 3); otherwise that block becomes the result of its own `set_value` and the cell holds val |
| Grids.DefaultGrid | src/grid.rs:11-18 | nine default blocks, every cell default, all eighteen line masks the all-digits mask; the grid is settled |
| Grids.OtherGroupValuesUnchanged | src/grid.rs:41-55 | after `set_value`, every block other than the originating one keeps its `group_values`; the originating one gains exactly val |
| Grids.SetValueLineMasks | src/grid.rs:36-39 | after `set_value`, exactly the band's row masks and the stack's column masks lose val |
| Grids.SetValueClearsPeers | src/grid.rs:21-56 | after `set_value`, the cell holds val, every cell sharing its row, column or block is cleared if filled, and every other cell is unchanged |
| Grids.SetValueLeavesEmptyCells | src/grid.rs:21-56 | apart from the cell being set, no value or flag changes and no empty cell changes |
| Grids.SettledSetValueTouchesOneCell | src/grid.rs:21-56 | on a settled grid, a successful `set_value` changes no other cell |
| Grids.GridSettledIsPreserved | src/grid.rs:21-56 | a successful `set_value` keeps the grid settled |
| Grids.GridSecondSetValueFails | src/grid.rs:21-30 | a second `set_value` on the same absolute cell is always refused |
| Grids.SameDigitTwiceInRow | src/grid.rs:21-56 | after 5 goes to (0, 0) of a default grid, (0, 1) still admits 5 and accepts it, giving two 5s in row 0 |
| Grids.Grid.Default | src/grid.rs:11-18 | a new grid's state is the default grid |
| Grids.Grid.SetValue | src/grid.rs:21-30 | returns false, with the state unchanged, exactly when the value-level `set_value` refuses; otherwise the state becomes its result |
| Grids.Grid.PropagateChanges | src/grid.rs:32-56 | the state becomes the value-level `propagate_changes` of the old state |
| Grids.Grid.ClearLineMasks | src/grid.rs:36-39 | row mask k loses val exactly when k / 3 is the band, column mask k exactly when k / 3 is the stack; nothing else |
| Grids.Grid.PropagateAlongBand | src/grid.rs:41-47 | exactly the two other blocks of the band receive the row-only elimination |
| Grids.Grid.PropagateAlongStack | src/grid.rs:48-55 | exactly the two other blocks of the stack receive the column-only elimination |

## Left out

- `src/main.rs`: argument handling, file paths and console output, which are I/O. The functions it calls (`load_from_file`, `solve`, `print_grid`, `get_remaining_values`) are not part of this model.
- `src/utility.rs`: plain record types with no behaviour, used only by code outside this model.
- Every `println!` (debug output with no effect on state) and the serde derives (a foreign library).
- Out-of-range inputs are preconditions, not modelled failures:
  - shift amounts are below 16, where `1 << val` on a `u16` would overflow;
  - local indices are below 3 and absolute indices below 9, where the array accesses would panic.
- `Option<u8>` row and column arguments of `recive_propagation` are `Option<nat>` below 3, so the `as u8` / `as usize` casts never truncate.
- A panic aborts the program; the model treats it as a refusal that leaves the state as it was.
- Aliasing across blocks and cells does not arise in the source, since every element is held by value. The model therefore keeps values in arrays rather than giving each block and cell its own object.
