/**
 * The whole puzzle: a 3x3 arrangement of blocks plus one candidate mask per
 * absolute row and per absolute column. An absolute position (row, col),
 * both below 9, lies in block (row / 3, col / 3) at local position
 * (row % 3, col % 3).
 */
module Grids {
  import opened Wrappers
  import opened Masks
  import opened Cells
  import opened Groups
  import Tables

  /**
   * The value of the grid at one moment. `rows[k]` and `cols[k]` are the
   * source's `candidates[0][k]` and `candidates[1][k]`.
   */
  datatype GridState = GridState(groups: seq<seq<GroupState>>, rows: seq<Mask>, cols: seq<Mask>) {

    predicate WellFormed()
    {
      && Tables.IsSquare(groups)
      && (forall i, j :: 0 <= i < 3 && 0 <= j < 3 ==> groups[i][j].WellFormed())
      && |rows| == 9 && |cols| == 9
    }

    /** The cell at absolute row `row` and absolute column `col`. */
    function At(row: nat, col: nat): CellState
      requires WellFormed() && row < 9 && col < 9
    {
      groups[row / 3][col / 3].cells[row % 3][col % 3]
    }

    /** Local position (r, k) of block (i, j) is absolute position (3 * i + r, 3 * j + k). */
    lemma AtBlockPosition(i: nat, j: nat, r: nat, k: nat)
      requires WellFormed() && i < 3 && j < 3 && r < 3 && k < 3
      ensures At(3 * i + r, 3 * j + k) == groups[i][j].cells[r][k]
    {
    }

    /** Every block is settled: each cell that holds a digit has an empty mask. */
    predicate Settled()
      requires WellFormed()
    {
      forall i, j :: 0 <= i < 3 && 0 <= j < 3 ==> groups[i][j].Settled()
    }

    /**
     * What the two fan-out loops of `propagate_changes` do to block (i, j):
     * the other blocks of the band receive the local row, the other blocks of
     * the stack receive the local column, and the rest are not called.
     */
    function Fanned(i: nat, j: nat, row: nat, col: nat, val: Shift): GroupState
      requires WellFormed() && i < 3 && j < 3 && row < 9 && col < 9
    {
      if i == row / 3 && j != col / 3 then groups[i][j].ReceivePropagation(Some(row % 3), None, val)
      else if j == col / 3 && i != row / 3 then groups[i][j].ReceivePropagation(None, Some(col % 3), val)
      else groups[i][j]
    }

    /**
     * `propagate_changes`: the three row masks of the band of `row` and the
     * three column masks of the stack of `col` lose `val`; the two other
     * blocks of the band get a row-only elimination at local row `row % 3`,
     * the two other blocks of the stack a column-only elimination at local
     * column `col % 3`; the originating block and the four blocks sharing
     * neither band nor stack are not touched.
     */
    function PropagateChanges(row: nat, col: nat, val: Shift): (s: GridState)
      requires WellFormed() && row < 9 && col < 9
      ensures s.WellFormed()
      ensures forall k :: 0 <= k < 9 ==> s.rows[k] == if k / 3 == row / 3 then rows[k] - {val} else rows[k]
      ensures forall k :: 0 <= k < 9 ==> s.cols[k] == if k / 3 == col / 3 then cols[k] - {val} else cols[k]
      ensures forall i: nat, j: nat :: i < 3 && j < 3 && i == row / 3 && j != col / 3 ==>
        s.groups[i][j] == groups[i][j].ReceivePropagation(Some(row % 3), None, val)
      ensures forall i: nat, j: nat :: i < 3 && j < 3 && j == col / 3 && i != row / 3 ==>
        s.groups[i][j] == groups[i][j].ReceivePropagation(None, Some(col % 3), val)
      ensures forall i: nat, j: nat :: i < 3 && j < 3 && (i == row / 3) == (j == col / 3) ==> s.groups[i][j] == groups[i][j]
      ensures forall i, j :: 0 <= i < 3 && 0 <= j < 3 ==> s.groups[i][j].groupValues == groups[i][j].groupValues
    {
      var band := 3 * (row / 3);
      var stack := 3 * (col / 3);
      GridState(
        seq(3, i requires 0 <= i < 3 => seq(3, j requires 0 <= j < 3 => Fanned(i, j, row, col, val))),
        seq(9, k requires 0 <= k < 9 => if band <= k < band + 3 then rows[k] - {val} else rows[k]),
        seq(9, k requires 0 <= k < 9 => if stack <= k < stack + 3 then cols[k] - {val} else cols[k]))
    }

    /**
     * `set_value`: refused exactly when the block's `set_value` is refused,
     * that is when the cell does not admit `val`. Otherwise the block of
     * (row, col) performs its own `set_value` at the local position, and then
     * the grid propagates.
     */
    function SetValue(row: nat, col: nat, val: Shift, isGiven: bool): (res: Option<GridState>)
      requires WellFormed() && row < 9 && col < 9
      ensures res.None? <==> !At(row, col).CanSetValue(val)
      ensures res.None? <==> groups[row / 3][col / 3].SetValue(row % 3, col % 3, val, isGiven).None?
      ensures res.Some? ==> res.value.WellFormed()
      ensures res.Some? ==>
        res.value.groups[row / 3][col / 3] == groups[row / 3][col / 3].SetValue(row % 3, col % 3, val, isGiven).value
      ensures res.Some? ==> res.value.At(row, col) == At(row, col).SetValue(val, isGiven)
    {
      match groups[row / 3][col / 3].SetValue(row % 3, col % 3, val, isGiven)
      case None => None
      case Some(g) =>
        var placed := this.(groups := groups[row / 3 := groups[row / 3][col / 3 := g]]);
        Some(placed.PropagateChanges(row, col, val))
    }
  }

  /** Two absolute positions share a row, a column or a block. */
  predicate Peers(row: nat, col: nat, r: nat, c: nat)
  {
    r == row || c == col || (r / 3 == row / 3 && c / 3 == col / 3)
  }

  /** `Grid::default()`: nine default blocks and all eighteen line masks `0b11_1111_1110`. */
  function DefaultGrid(): (g: GridState)
    ensures g.WellFormed() && g.Settled()
    ensures forall i, j :: 0 <= i < 3 && 0 <= j < 3 ==> g.groups[i][j] == DefaultGroup()
    ensures forall r, c :: 0 <= r < 9 && 0 <= c < 9 ==> g.At(r, c) == DefaultCell()
    ensures forall k :: 0 <= k < 9 ==> g.rows[k] == AllDigits && g.cols[k] == AllDigits
  {
    var d := DefaultGroup();
    GridState(seq(3, _ => seq(3, _ => d)), seq(9, _ => AllDigits), seq(9, _ => AllDigits))
  }

  /** What `Grid::set_value` does to block (i, j) other than the originating one: its digits stay. */
  lemma OtherGroupValuesUnchanged(g: GridState, row: nat, col: nat, val: Shift, isGiven: bool, i: nat, j: nat)
    requires g.WellFormed() && row < 9 && col < 9 && i < 3 && j < 3
    requires g.SetValue(row, col, val, isGiven).Some?
    ensures (i, j) != (row / 3, col / 3) ==> g.SetValue(row, col, val, isGiven).value.groups[i][j].groupValues == g.groups[i][j].groupValues
    ensures (i, j) == (row / 3, col / 3) ==> g.SetValue(row, col, val, isGiven).value.groups[i][j].groupValues == g.groups[i][j].groupValues + {val}
  {
    var s := g.SetValue(row, col, val, isGiven).value;
    var placed := g.(groups := g.groups[row / 3 := g.groups[row / 3][col / 3 := g.groups[row / 3][col / 3].SetValue(row % 3, col % 3, val, isGiven).value]]);
    assert s == placed.PropagateChanges(row, col, val);
  }

  /** The grid's row and column masks after `set_value`: the band of `row` and the stack of `col` lose `val`. */
  lemma SetValueLineMasks(g: GridState, row: nat, col: nat, val: Shift, isGiven: bool)
    requires g.WellFormed() && row < 9 && col < 9
    requires g.SetValue(row, col, val, isGiven).Some?
    ensures var s := g.SetValue(row, col, val, isGiven).value;
            forall k :: 0 <= k < 9 ==> s.rows[k] == if k / 3 == row / 3 then g.rows[k] - {val} else g.rows[k]
    ensures var s := g.SetValue(row, col, val, isGiven).value;
            forall k :: 0 <= k < 9 ==> s.cols[k] == if k / 3 == col / 3 then g.cols[k] - {val} else g.cols[k]
  {
    var placed := g.(groups := g.groups[row / 3 := g.groups[row / 3][col / 3 := g.groups[row / 3][col / 3].SetValue(row % 3, col % 3, val, isGiven).value]]);
    assert g.SetValue(row, col, val, isGiven).value == placed.PropagateChanges(row, col, val);
  }

  /**
   * Seen cell by cell, a successful `set_value` places the digit at (row, col),
   * clears `val` from exactly the filled cells among its peers (same row, same
   * column or same block), and leaves every other cell as it was.
   */
  lemma SetValueClearsPeers(g: GridState, row: nat, col: nat, val: Shift, isGiven: bool, r: nat, c: nat)
    requires g.WellFormed() && row < 9 && col < 9 && r < 9 && c < 9
    requires g.SetValue(row, col, val, isGiven).Some?
    ensures g.SetValue(row, col, val, isGiven).value.At(r, c) ==
      if r == row && c == col then g.At(r, c).SetValue(val, isGiven)
      else if Peers(row, col, r, c) then g.At(r, c).ClearIfFilled(val)
      else g.At(r, c)
  {
    var s := g.SetValue(row, col, val, isGiven).value;
    var origin := g.groups[row / 3][col / 3].SetValue(row % 3, col % 3, val, isGiven).value;
    var placed := g.(groups := g.groups[row / 3 := g.groups[row / 3][col / 3 := origin]]);
    assert s == placed.PropagateChanges(row, col, val);
    var i, j := r / 3, c / 3;
    if i == row / 3 && j == col / 3 {
      assert s.groups[i][j] == origin;
      if r != row || c != col {
        assert r % 3 != row % 3 || c % 3 != col % 3;
      }
    } else if i == row / 3 {
      assert s.groups[i][j] == g.groups[i][j].ReceivePropagation(Some(row % 3), None, val);
      assert c != col;
      assert r == row <==> r % 3 == row % 3;
    } else if j == col / 3 {
      assert s.groups[i][j] == g.groups[i][j].ReceivePropagation(None, Some(col % 3), val);
      assert r != row;
      assert c == col <==> c % 3 == col % 3;
    } else {
      assert s.groups[i][j] == g.groups[i][j];
    }
  }

  /**
   * The guard in the clearing loops: apart from the cell being set, no cell
   * without a digit changes at all, and no cell's digit or flag changes.
   */
  lemma SetValueLeavesEmptyCells(g: GridState, row: nat, col: nat, val: Shift, isGiven: bool, r: nat, c: nat)
    requires g.WellFormed() && row < 9 && col < 9 && r < 9 && c < 9 && (r != row || c != col)
    requires g.SetValue(row, col, val, isGiven).Some?
    ensures var x := g.SetValue(row, col, val, isGiven).value.At(r, c);
            && x.value == g.At(r, c).value && x.isGiven == g.At(r, c).isGiven
            && (!g.At(r, c).HasValue() ==> x == g.At(r, c))
  {
    SetValueClearsPeers(g, row, col, val, isGiven, r, c);
  }

  /**
   * On a settled grid the filled peers already have empty masks, so a
   * successful `set_value` changes no cell other than the one it sets.
   */
  lemma SettledSetValueTouchesOneCell(g: GridState, row: nat, col: nat, val: Shift, isGiven: bool, r: nat, c: nat)
    requires g.WellFormed() && g.Settled() && row < 9 && col < 9 && r < 9 && c < 9 && (r != row || c != col)
    requires g.SetValue(row, col, val, isGiven).Some?
    ensures g.SetValue(row, col, val, isGiven).value.At(r, c) == g.At(r, c)
  {
    SetValueClearsPeers(g, row, col, val, isGiven, r, c);
    assert g.groups[r / 3][c / 3].Settled();
    SettledCellIsFixed(g.At(r, c), val);
  }

  /** A successful `set_value` keeps the grid settled. */
  lemma GridSettledIsPreserved(g: GridState, row: nat, col: nat, val: Shift, isGiven: bool)
    requires g.WellFormed() && g.Settled() && row < 9 && col < 9
    requires g.SetValue(row, col, val, isGiven).Some?
    ensures g.SetValue(row, col, val, isGiven).value.Settled()
  {
    var s := g.SetValue(row, col, val, isGiven).value;
    var origin := g.groups[row / 3][col / 3].SetValue(row % 3, col % 3, val, isGiven).value;
    var placed := g.(groups := g.groups[row / 3 := g.groups[row / 3][col / 3 := origin]]);
    assert s == placed.PropagateChanges(row, col, val);
    forall i, j | 0 <= i < 3 && 0 <= j < 3
      ensures s.groups[i][j].Settled()
    {
      if i == row / 3 && j == col / 3 {
        SettledIsPreserved(g.groups[i][j], row % 3, col % 3, val, isGiven, None, None);
      } else if i == row / 3 {
        SettledIsPreserved(g.groups[i][j], 0, 0, val, isGiven, Some(row % 3), None);
      } else if j == col / 3 {
        SettledIsPreserved(g.groups[i][j], 0, 0, val, isGiven, None, Some(col % 3));
      }
    }
  }

  /** A second `set_value` on the same absolute cell is always refused. */
  lemma GridSecondSetValueFails(g: GridState, row: nat, col: nat, val: Shift, isGiven: bool, val2: Shift, isGiven2: bool)
    requires g.WellFormed() && row < 9 && col < 9
    requires g.SetValue(row, col, val, isGiven).Some?
    ensures g.SetValue(row, col, val, isGiven).value.SetValue(row, col, val2, isGiven2).None?
  {
  }

  /**
   * Nothing removes a placed digit from its empty peers: after 5 goes to
   * (0, 0) of a default grid, (0, 1) in the same row still admits 5, and
   * placing 5 there is accepted, which leaves two 5s in row 0.
   */
  lemma SameDigitTwiceInRow()
    ensures DefaultGrid().SetValue(0, 0, 5, true).Some?
    ensures var g := DefaultGrid().SetValue(0, 0, 5, true).value;
            && g.At(0, 1).CanSetValue(5)
            && g.SetValue(0, 1, 5, true).Some?
            && g.SetValue(0, 1, 5, true).value.At(0, 0).value == Some(5)
            && g.SetValue(0, 1, 5, true).value.At(0, 1).value == Some(5)
  {
    var d := DefaultGrid();
    assert d.At(0, 0) == DefaultCell();
    var g := d.SetValue(0, 0, 5, true).value;
    SettledSetValueTouchesOneCell(d, 0, 0, 5, true, 0, 1);
    GridSettledIsPreserved(d, 0, 0, 5, true);
    SettledSetValueTouchesOneCell(g, 0, 1, 5, true, 0, 0);
  }

  /**
   * The puzzle; the source's `Grid`. Its `[[Group; 3]; 3]` holds the blocks by
   * value, so `sudokuCells` is an array of block values and a block method
   * called on an element is an assignment of that element (`Group` states the
   * same transitions for a block object).
   */
  class Grid {
    var sudokuCells: array2<GroupState>
    var candidates: array2<Mask>

    ghost predicate Valid()
      reads this, sudokuCells
    {
      && sudokuCells.Length0 == 3 && sudokuCells.Length1 == 3
      && candidates.Length0 == 2 && candidates.Length1 == 9
      && (forall i, j :: 0 <= i < 3 && 0 <= j < 3 ==> sudokuCells[i, j].WellFormed())
    }

    ghost function State(): (s: GridState)
      reads this, sudokuCells, candidates
      requires Valid()
      ensures s.WellFormed()
      ensures forall i, j :: 0 <= i < 3 && 0 <= j < 3 ==> s.groups[i][j] == sudokuCells[i, j]
      ensures forall k :: 0 <= k < 9 ==> s.rows[k] == candidates[0, k] && s.cols[k] == candidates[1, k]
    {
      var a := sudokuCells;
      var m := candidates;
      GridState(
        seq(3, i requires 0 <= i < 3 reads a => seq(3, j requires 0 <= j < 3 reads a => a[i, j])),
        seq(9, k requires 0 <= k < 9 reads m => m[0, k]),
        seq(9, k requires 0 <= k < 9 reads m => m[1, k]))
    }

    /** Blocks and masks that agree with `s` make up the state `s`. */
    lemma FromParts(s: GridState)
      requires Valid() && s.WellFormed()
      requires forall i, j :: 0 <= i < 3 && 0 <= j < 3 ==> sudokuCells[i, j] == s.groups[i][j]
      requires forall k :: 0 <= k < 9 ==> candidates[0, k] == s.rows[k] && candidates[1, k] == s.cols[k]
      ensures State() == s
    {
      var t := State();
      Tables.SquareExt(t.groups, s.groups);
      assert t.rows == s.rows;
      assert t.cols == s.cols;
    }

    constructor Default()
      ensures Valid() && fresh(sudokuCells) && fresh(candidates)
      ensures State() == DefaultGrid()
    {
      sudokuCells := new GroupState[3, 3]((_, _) => DefaultGroup());
      candidates := new Mask[2, 9]((_, _) => AllDigits);
      new;
      FromParts(DefaultGrid());
    }

    /**
     * `set_value`: returns false where the block's `set_value` panics, and
     * then nothing has changed.
     */
    method SetValue(row: nat, col: nat, val: Shift, isGiven: bool) returns (ok: bool)
      requires Valid() && row < 9 && col < 9
      modifies sudokuCells, candidates
      ensures Valid()
      ensures ok <==> old(State()).SetValue(row, col, val, isGiven).Some?
      ensures ok ==> State() == old(State()).SetValue(row, col, val, isGiven).value
      ensures !ok ==> State() == old(State())
    {
      var gridRow := row / 3;
      var gridCol := col / 3;
      var cellRow := row % 3;
      var cellCol := col % 3;
      ghost var s0 := State();
      var placed := sudokuCells[gridRow, gridCol].SetValue(cellRow, cellCol, val, isGiven);
      if placed.None? {
        return false;
      }
      sudokuCells[gridRow, gridCol] := placed.value;
      FromParts(s0.(groups := s0.groups[gridRow := s0.groups[gridRow][gridCol := placed.value]]));
      PropagateChanges(row, col, val);
      ok := true;
    }

    /** `propagate_changes`: the mask loop, then the band fan-out, then the stack fan-out. */
    method PropagateChanges(row: nat, col: nat, val: Shift)
      requires Valid() && row < 9 && col < 9
      modifies sudokuCells, candidates
      ensures Valid()
      ensures State() == old(State()).PropagateChanges(row, col, val)
    {
      ghost var s0 := State();
      var gridRow := row / 3;
      var gridCol := col / 3;
      ClearLineMasks(gridRow, gridCol, val);
      PropagateAlongBand(gridRow, gridCol, row % 3, val);
      PropagateAlongStack(gridRow, gridCol, col % 3, val);
      FromParts(s0.PropagateChanges(row, col, val));
    }

    /** Lines 36-39 of `propagate_changes`: the band's three row masks and the stack's three column masks lose `val`. */
    method ClearLineMasks(gridRow: nat, gridCol: nat, val: Shift)
      requires Valid() && gridRow < 3 && gridCol < 3
      modifies candidates
      ensures forall k :: 0 <= k < 9 ==>
                && candidates[0, k] == (if k / 3 == gridRow then old(candidates[0, k]) - {val} else old(candidates[0, k]))
                && candidates[1, k] == (if k / 3 == gridCol then old(candidates[1, k]) - {val} else old(candidates[1, k]))
    {
      for idx := 0 to 3
        invariant forall k :: 0 <= k < 9 ==>
                    && candidates[0, k] == (if gridRow * 3 <= k < gridRow * 3 + idx then old(candidates[0, k]) - {val} else old(candidates[0, k]))
                    && candidates[1, k] == (if gridCol * 3 <= k < gridCol * 3 + idx then old(candidates[1, k]) - {val} else old(candidates[1, k]))
      {
        candidates[0, gridRow * 3 + idx] := candidates[0, gridRow * 3 + idx] - {val};
        candidates[1, gridCol * 3 + idx] := candidates[1, gridCol * 3 + idx] - {val};
      }
    }

    /** Lines 41-47 of `propagate_changes`: the other blocks of the band receive local row `cellRow`. */
    method PropagateAlongBand(gridRow: nat, gridCol: nat, cellRow: nat, val: Shift)
      requires Valid() && gridRow < 3 && gridCol < 3 && cellRow < 3
      modifies sudokuCells
      ensures Valid()
      ensures forall i, j :: 0 <= i < 3 && 0 <= j < 3 ==>
                sudokuCells[i, j] ==
                  if i == gridRow && j != gridCol then old(sudokuCells[i, j]).ReceivePropagation(Some(cellRow), None, val)
                  else old(sudokuCells[i, j])
    {
      for c := 0 to 3
        invariant Valid()
        invariant forall i, j :: 0 <= i < 3 && 0 <= j < 3 ==>
                    sudokuCells[i, j] ==
                      if i == gridRow && j != gridCol && j < c then old(sudokuCells[i, j]).ReceivePropagation(Some(cellRow), None, val)
                      else old(sudokuCells[i, j])
      {
        if c != gridCol {
          sudokuCells[gridRow, c] := sudokuCells[gridRow, c].ReceivePropagation(Some(cellRow), None, val);
        }
      }
    }

    /** Lines 48-55 of `propagate_changes`: the other blocks of the stack receive local column `cellCol`. */
    method PropagateAlongStack(gridRow: nat, gridCol: nat, cellCol: nat, val: Shift)
      requires Valid() && gridRow < 3 && gridCol < 3 && cellCol < 3
      modifies sudokuCells
      ensures Valid()
      ensures forall i, j :: 0 <= i < 3 && 0 <= j < 3 ==>
                sudokuCells[i, j] ==
                  if j == gridCol && i != gridRow then old(sudokuCells[i, j]).ReceivePropagation(None, Some(cellCol), val)
                  else old(sudokuCells[i, j])
    {
      for r := 0 to 3
        invariant Valid()
        invariant forall i, j :: 0 <= i < 3 && 0 <= j < 3 ==>
                    sudokuCells[i, j] ==
                      if j == gridCol && i != gridRow && i < r then old(sudokuCells[i, j]).ReceivePropagation(None, Some(cellCol), val)
                      else old(sudokuCells[i, j])
      {
        if r != gridRow {
          sudokuCells[r, gridCol] := sudokuCells[r, gridCol].ReceivePropagation(None, Some(cellCol), val);
        }
      }
    }
  }
}
