/**
 * One 3x3 block: nine cells, the mask of digits placed in the block, and one
 * candidate mask per internal row and per internal column.
 */
module Groups {
  import opened Wrappers
  import opened Masks
  import opened Cells
  import Tables

  /**
   * The value of a block at one moment. `rows[i]` and `cols[i]` are the source's
   * `group_candidates[0][i]` and `group_candidates[1][i]`.
   */
  datatype GroupState = GroupState(cells: seq<seq<CellState>>, groupValues: Mask, rows: seq<Mask>, cols: seq<Mask>) {

    predicate WellFormed()
    {
      && |cells| == 3 && (forall r :: 0 <= r < 3 ==> |cells[r]| == 3)
      && |rows| == 3 && |cols| == 3
    }

    /** Every cell that holds a digit has an empty candidate mask, as `set_value` leaves it. */
    predicate Settled()
      requires WellFormed()
    {
      forall r, c :: 0 <= r < 3 && 0 <= c < 3 && cells[r][c].HasValue() ==> cells[r][c].candidates == {}
    }

    /**
     * `propagate_changes`: when `val` is placed in the block, clear it from all
     * three row masks and all three column masks, and from every cell that holds
     * a digit. Cells without a digit are not touched.
     */
    function PropagateChanges(val: Shift): (s: GroupState)
      requires WellFormed()
      ensures s.WellFormed() && s.groupValues == groupValues
      ensures val !in groupValues ==> s == this
      ensures val in groupValues ==>
        forall i :: 0 <= i < 3 ==> s.rows[i] == rows[i] - {val} && s.cols[i] == cols[i] - {val}
      ensures val in groupValues ==>
        forall r, c :: 0 <= r < 3 && 0 <= c < 3 ==> s.cells[r][c] == cells[r][c].ClearIfFilled(val)
    {
      if val in groupValues then
        this.(rows := seq(3, i requires 0 <= i < 3 => rows[i] - {val}),
              cols := seq(3, i requires 0 <= i < 3 => cols[i] - {val}),
              cells := seq(3, r requires 0 <= r < 3 => seq(3, c requires 0 <= c < 3 => cells[r][c].ClearIfFilled(val))))
      else
        this
    }

    /** The `Some(col)` half of `recive_propagation`: column mask `col` and the filled cells of column `col` lose `val`. */
    function ClearColumn(col: nat, val: Shift): (s: GroupState)
      requires WellFormed() && col < 3
      ensures s.WellFormed() && s.groupValues == groupValues && s.rows == rows
      ensures forall i :: 0 <= i < 3 ==> s.cols[i] == if i == col then cols[i] - {val} else cols[i]
      ensures forall i, j :: 0 <= i < 3 && 0 <= j < 3 ==>
        s.cells[i][j] == if j == col then cells[i][j].ClearIfFilled(val) else cells[i][j]
    {
      this.(cols := cols[col := cols[col] - {val}],
            cells := seq(3, r requires 0 <= r < 3 => cells[r][col := cells[r][col].ClearIfFilled(val)]))
    }

    /** The `Some(row)` half of `recive_propagation`: row mask `row` and the filled cells of row `row` lose `val`. */
    function ClearRow(row: nat, val: Shift): (s: GroupState)
      requires WellFormed() && row < 3
      ensures s.WellFormed() && s.groupValues == groupValues && s.cols == cols
      ensures forall i :: 0 <= i < 3 ==> s.rows[i] == if i == row then rows[i] - {val} else rows[i]
      ensures forall i, j :: 0 <= i < 3 && 0 <= j < 3 ==>
        s.cells[i][j] == if i == row then cells[i][j].ClearIfFilled(val) else cells[i][j]
    {
      this.(rows := rows[row := rows[row] - {val}],
            cells := cells[row := seq(3, c requires 0 <= c < 3 => cells[row][c].ClearIfFilled(val))])
    }

    /**
     * `recive_propagation`: a sibling block placed `val` on the absolute line
     * through internal column `col` and/or internal row `row` of this block.
     * Exactly the named line masks lose `val`, exactly the cells on those lines
     * are cleared (if filled), and `groupValues` stays.
     */
    function ReceivePropagation(row: Option<nat>, col: Option<nat>, val: Shift): (s: GroupState)
      requires WellFormed()
      requires row.Some? ==> row.value < 3
      requires col.Some? ==> col.value < 3
      ensures s.WellFormed() && s.groupValues == groupValues
      ensures forall i: nat :: i < 3 ==> s.rows[i] == if row == Some(i) then rows[i] - {val} else rows[i]
      ensures forall i: nat :: i < 3 ==> s.cols[i] == if col == Some(i) then cols[i] - {val} else cols[i]
      ensures forall r: nat, c: nat :: r < 3 && c < 3 ==>
        s.cells[r][c] == if row == Some(r) || col == Some(c) then cells[r][c].ClearIfFilled(val) else cells[r][c]
    {
      var s := if col.Some? then ClearColumn(col.value, val) else this;
      if row.Some? then
        ClearIfFilledIdempotent(val);
        s.ClearRow(row.value, val)
      else
        s
    }

    /**
     * `set_value`: refused (the source panics) exactly when cell (row, col) does
     * not admit `val`; placed digits and a full block are not checked. Otherwise
     * the cell takes the digit, `groupValues` gains exactly `val`, every line
     * mask loses `val`, and every other cell is cleared if filled.
     */
    function SetValue(row: nat, col: nat, val: Shift, isGiven: bool): (res: Option<GroupState>)
      requires WellFormed() && row < 3 && col < 3
      ensures res.None? <==> !cells[row][col].CanSetValue(val)
      ensures res.Some? ==> res.value.WellFormed() && res.value.groupValues == groupValues + {val}
      ensures res.Some? ==>
        forall i :: 0 <= i < 3 ==> res.value.rows[i] == rows[i] - {val} && res.value.cols[i] == cols[i] - {val}
      ensures res.Some? ==> forall r, c :: 0 <= r < 3 && 0 <= c < 3 ==>
        res.value.cells[r][c] == if r == row && c == col then cells[r][c].SetValue(val, isGiven) else cells[r][c].ClearIfFilled(val)
    {
      if !cells[row][col].CanSetValue(val) then
        None
      else
        var placed := this.(cells := cells[row := cells[row][col := cells[row][col].SetValue(val, isGiven)]],
                            groupValues := groupValues + {val});
        Some(placed.PropagateChanges(val))
    }
  }

  /** Clearing the same digit from the same cells twice is clearing it once. */
  lemma ClearIfFilledIdempotent(val: Shift)
    ensures forall c: CellState :: c.ClearIfFilled(val).ClearIfFilled(val) == c.ClearIfFilled(val)
  {
    forall c: CellState
      ensures c.ClearIfFilled(val).ClearIfFilled(val) == c.ClearIfFilled(val)
    {
      if c.HasValue() {
        ClearCandidateIdempotent(c, val);
      }
    }
  }

  /** `Group::default()`: nine default cells, no digit placed, every line mask `0b11_1111_1110`. */
  function DefaultGroup(): (g: GroupState)
    ensures g.WellFormed() && g.Settled()
    ensures forall r, c :: 0 <= r < 3 && 0 <= c < 3 ==> g.cells[r][c] == DefaultCell()
    ensures g.groupValues == {}
    ensures forall i :: 0 <= i < 3 ==> g.rows[i] == AllDigits && g.cols[i] == AllDigits
  {
    var d := DefaultCell();
    GroupState(seq(3, _ => seq(3, _ => d)), {}, seq(3, _ => AllDigits), seq(3, _ => AllDigits))
  }

  /**
   * The clearing loops only visit cells that hold a digit: a cell without a
   * digit comes out of either propagation, and of a successful `set_value`
   * at another cell, exactly as it went in. Every cell keeps its digit and
   * its flag, and every filled cell loses `val`.
   */
  lemma EmptyCellsAreNotTouched(g: GroupState, val: Shift, row: Option<nat>, col: Option<nat>, r: nat, c: nat)
    requires g.WellFormed() && r < 3 && c < 3
    requires row.Some? ==> row.value < 3
    requires col.Some? ==> col.value < 3
    ensures var p := g.PropagateChanges(val).cells[r][c];
            && p.value == g.cells[r][c].value && p.isGiven == g.cells[r][c].isGiven
            && (!g.cells[r][c].HasValue() ==> p == g.cells[r][c])
            && (val in g.groupValues && g.cells[r][c].HasValue() ==> p.candidates == g.cells[r][c].candidates - {val})
    ensures var q := g.ReceivePropagation(row, col, val).cells[r][c];
            && q.value == g.cells[r][c].value && q.isGiven == g.cells[r][c].isGiven
            && (!g.cells[r][c].HasValue() ==> q == g.cells[r][c])
            && ((row == Some(r) || col == Some(c)) && g.cells[r][c].HasValue() ==> q.candidates == g.cells[r][c].candidates - {val})
  {
    var p := g.PropagateChanges(val).cells[r][c];
    var q := g.ReceivePropagation(row, col, val).cells[r][c];
    var x := g.cells[r][c];
    assert p == x || p == x.ClearIfFilled(val);
    assert q == x || q == x.ClearIfFilled(val);
    if x.HasValue() {
      assert x.ClearIfFilled(val).candidates == x.candidates - {val};
    }
  }

  /** Outside the placed cell, `set_value` changes no digit, no flag and no empty cell. */
  lemma SetValueLeavesOtherCells(g: GroupState, row: nat, col: nat, val: Shift, isGiven: bool, r: nat, c: nat)
    requires g.WellFormed() && row < 3 && col < 3 && r < 3 && c < 3 && (r != row || c != col)
    requires g.SetValue(row, col, val, isGiven).Some?
    ensures var p := g.SetValue(row, col, val, isGiven).value.cells[r][c];
            && p.value == g.cells[r][c].value && p.isGiven == g.cells[r][c].isGiven
            && (!g.cells[r][c].HasValue() ==> p == g.cells[r][c])
            && (g.cells[r][c].HasValue() ==> p.candidates == g.cells[r][c].candidates - {val})
  {
    var x := g.cells[r][c];
    if x.HasValue() {
      assert x.ClearIfFilled(val).candidates == x.candidates - {val};
    }
  }

  /** A successful `set_value` keeps every filled cell's mask empty, and so do both propagations. */
  lemma SettledIsPreserved(g: GroupState, row: nat, col: nat, val: Shift, isGiven: bool, r: Option<nat>, c: Option<nat>)
    requires g.WellFormed() && g.Settled() && row < 3 && col < 3
    requires r.Some? ==> r.value < 3
    requires c.Some? ==> c.value < 3
    ensures g.SetValue(row, col, val, isGiven).Some? ==> g.SetValue(row, col, val, isGiven).value.Settled()
    ensures g.PropagateChanges(val).Settled()
    ensures g.ReceivePropagation(r, c, val).Settled()
  {
  }

  /** On a settled block the filled cells already have empty masks, so clearing them changes nothing. */
  lemma SettledCellIsFixed(x: CellState, val: Shift)
    requires x.HasValue() ==> x.candidates == {}
    ensures x.ClearIfFilled(val) == x
  {
  }

  /**
   * Because the clearing loops only visit filled cells, whose masks are already
   * empty, `propagate_changes` changes no cell of a settled block.
   */
  lemma PropagationLeavesSettledCells(g: GroupState, val: Shift)
    requires g.WellFormed() && g.Settled()
    ensures g.PropagateChanges(val).cells == g.cells
  {
    var p := g.PropagateChanges(val);
    forall i, j | 0 <= i < 3 && 0 <= j < 3
      ensures p.cells[i][j] == g.cells[i][j]
    {
      SettledCellIsFixed(g.cells[i][j], val);
    }
    Tables.SquareExt(p.cells, g.cells);
  }

  /** Neither does `recive_propagation`: on a settled block it only narrows line masks. */
  lemma ReceptionLeavesSettledCells(g: GroupState, val: Shift, r: Option<nat>, c: Option<nat>)
    requires g.WellFormed() && g.Settled()
    requires r.Some? ==> r.value < 3
    requires c.Some? ==> c.value < 3
    ensures g.ReceivePropagation(r, c, val).cells == g.cells
  {
    var q := g.ReceivePropagation(r, c, val);
    forall i, j | 0 <= i < 3 && 0 <= j < 3
      ensures q.cells[i][j] == g.cells[i][j]
    {
      SettledCellIsFixed(g.cells[i][j], val);
    }
    Tables.SquareExt(q.cells, g.cells);
  }

  /** A second `set_value` on the same cell is always refused: the first emptied its mask. */
  lemma SecondSetValueFails(g: GroupState, row: nat, col: nat, val: Shift, isGiven: bool, val2: Shift, isGiven2: bool)
    requires g.WellFormed() && row < 3 && col < 3
    requires g.SetValue(row, col, val, isGiven).Some?
    ensures g.SetValue(row, col, val, isGiven).value.SetValue(row, col, val2, isGiven2).None?
  {
  }

  /**
   * No test for a full block exists: a settled block whose nine cells all hold
   * a digit refuses every placement only because each filled cell's mask is empty.
   */
  lemma FullSettledBlockRefuses(g: GroupState, row: nat, col: nat, val: Shift, isGiven: bool)
    requires g.WellFormed() && g.Settled() && row < 3 && col < 3
    requires forall r, c :: 0 <= r < 3 && 0 <= c < 3 ==> g.cells[r][c].HasValue()
    ensures g.SetValue(row, col, val, isGiven).None?
  {
  }

  /**
   * Nothing stops a digit from being placed twice in one block: after 5 goes
   * to (0, 0) of a default block, (0, 1) still admits 5 and accepts it.
   */
  lemma SameDigitTwiceInBlock()
    ensures DefaultGroup().SetValue(0, 0, 5, true).Some?
    ensures var g := DefaultGroup().SetValue(0, 0, 5, true).value;
            && g.SetValue(0, 1, 5, true).Some?
            && g.SetValue(0, 1, 5, true).value.cells[0][0].value == Some(5)
            && g.SetValue(0, 1, 5, true).value.cells[0][1].value == Some(5)
  {
    var g := DefaultGroup().SetValue(0, 0, 5, true).value;
    assert g.cells[0][1] == DefaultCell();
  }

  /**
   * A block of the puzzle; the source's `Group`. Its `[[Cell; 3]; 3]` holds the
   * cells by value, so `cells` is an array of cell values and a cell method
   * called on an element is an assignment of that element.
   */
  class Group {
    var cells: array2<CellState>
    var groupValues: Mask
    var groupCandidates: array2<Mask>

    /** The objects that hold the block's state. */
    ghost function Repr(): set<object>
      reads this
    {
      {this, cells, groupCandidates}
    }

    ghost predicate Valid()
      reads this
    {
      && cells.Length0 == 3 && cells.Length1 == 3
      && groupCandidates.Length0 == 2 && groupCandidates.Length1 == 3
    }

    ghost function State(): (s: GroupState)
      reads this, cells, groupCandidates
      requires Valid()
      ensures s.WellFormed() && s.groupValues == groupValues
      ensures forall i, j :: 0 <= i < 3 && 0 <= j < 3 ==> s.cells[i][j] == cells[i, j]
      ensures forall i :: 0 <= i < 3 ==> s.rows[i] == groupCandidates[0, i] && s.cols[i] == groupCandidates[1, i]
    {
      GroupState(
        [[cells[0, 0], cells[0, 1], cells[0, 2]],
         [cells[1, 0], cells[1, 1], cells[1, 2]],
         [cells[2, 0], cells[2, 1], cells[2, 2]]],
        groupValues,
        [groupCandidates[0, 0], groupCandidates[0, 1], groupCandidates[0, 2]],
        [groupCandidates[1, 0], groupCandidates[1, 1], groupCandidates[1, 2]])
    }

    /** Fields that agree with `s` cell by cell and mask by mask make up the state `s`. */
    lemma FromParts(s: GroupState)
      requires Valid() && s.WellFormed()
      requires groupValues == s.groupValues
      requires forall i, j :: 0 <= i < 3 && 0 <= j < 3 ==> cells[i, j] == s.cells[i][j]
      requires forall i :: 0 <= i < 3 ==> groupCandidates[0, i] == s.rows[i] && groupCandidates[1, i] == s.cols[i]
      ensures State() == s
    {
      var t := State();
      Tables.SquareExt(t.cells, s.cells);
      assert t.rows == s.rows;
      assert t.cols == s.cols;
    }

    constructor Default()
      ensures Valid() && fresh(Repr())
      ensures State() == DefaultGroup()
    {
      cells := new CellState[3, 3]((_, _) => DefaultCell());
      groupValues := {};
      groupCandidates := new Mask[2, 3]((_, _) => AllDigits);
      new;
      FromParts(DefaultGroup());
    }

    /**
     * `set_value`: returns false where the source panics, and then nothing has
     * changed; otherwise the digit is placed and propagated.
     */
    method SetValue(row: nat, col: nat, val: Shift, isGiven: bool) returns (ok: bool)
      requires Valid() && row < 3 && col < 3
      modifies this, cells, groupCandidates
      ensures Valid() && Repr() == old(Repr())
      ensures ok <==> old(State()).SetValue(row, col, val, isGiven).Some?
      ensures ok ==> State() == old(State()).SetValue(row, col, val, isGiven).value
      ensures !ok ==> State() == old(State())
    {
      if !cells[row, col].CanSetValue(val) {
        return false;
      }
      ghost var s0 := State();
      cells[row, col] := cells[row, col].SetValue(val, isGiven);
      groupValues := groupValues + {val};
      FromParts(s0.(cells := s0.cells[row := s0.cells[row][col := s0.cells[row][col].SetValue(val, isGiven)]],
                    groupValues := s0.groupValues + {val}));
      PropagateChanges(val);
      ok := true;
    }

    /** `propagate_changes`. */
    method PropagateChanges(val: Shift)
      requires Valid()
      modifies cells, groupCandidates
      ensures State() == old(State()).PropagateChanges(val)
    {
      if val in groupValues {
        ghost var s0 := State();
        for idx := 0 to 3
          modifies groupCandidates
          invariant forall i :: 0 <= i < 3 ==>
                      && groupCandidates[0, i] == (if i < idx then s0.rows[i] - {val} else s0.rows[i])
                      && groupCandidates[1, i] == (if i < idx then s0.cols[i] - {val} else s0.cols[i])
        {
          groupCandidates[0, idx] := groupCandidates[0, idx] - {val};
          groupCandidates[1, idx] := groupCandidates[1, idx] - {val};
        }
        ClearFilledCells(val);
        FromParts(s0.PropagateChanges(val));
      }
    }

    /** Lines 45-51 of `propagate_changes`: every cell that holds a digit loses `val`. */
    method ClearFilledCells(val: Shift)
      requires Valid()
      modifies cells
      ensures forall i, j :: 0 <= i < 3 && 0 <= j < 3 ==> cells[i, j] == old(cells[i, j]).ClearIfFilled(val)
    {
      for row := 0 to 3
        invariant forall i, j :: 0 <= i < 3 && 0 <= j < 3 ==>
                    cells[i, j] == if i < row then old(cells[i, j]).ClearIfFilled(val) else old(cells[i, j])
      {
        for col := 0 to 3
          invariant forall i, j :: 0 <= i < 3 && 0 <= j < 3 ==>
                      cells[i, j] == if i < row || (i == row && j < col) then old(cells[i, j]).ClearIfFilled(val) else old(cells[i, j])
        {
          if cells[row, col].HasValue() {
            cells[row, col] := cells[row, col].ClearCandidate(val);
          }
        }
      }
    }

    /** `recive_propagation`: the column half, then the row half. */
    method ReceivePropagation(row: Option<nat>, col: Option<nat>, val: Shift)
      requires Valid()
      requires row.Some? ==> row.value < 3
      requires col.Some? ==> col.value < 3
      modifies cells, groupCandidates
      ensures State() == old(State()).ReceivePropagation(row, col, val)
    {
      if col.Some? {
        ClearColumn(col.value, val);
      }
      if row.Some? {
        ClearRow(row.value, val);
      }
    }

    /** Lines 57-65 of `recive_propagation`. */
    method ClearColumn(col: nat, val: Shift)
      requires Valid() && col < 3
      modifies cells, groupCandidates
      ensures State() == old(State()).ClearColumn(col, val)
    {
      ghost var s0 := State();
      groupCandidates[1, col] := groupCandidates[1, col] - {val};
      for r := 0 to 3
        modifies cells
        invariant forall i, j :: 0 <= i < 3 && 0 <= j < 3 ==>
                    cells[i, j] == if i < r && j == col then s0.cells[i][j].ClearIfFilled(val) else s0.cells[i][j]
      {
        if cells[r, col].HasValue() {
          cells[r, col] := cells[r, col].ClearCandidate(val);
        }
      }
      FromParts(s0.ClearColumn(col, val));
    }

    /** Lines 66-74 of `recive_propagation`. */
    method ClearRow(row: nat, val: Shift)
      requires Valid() && row < 3
      modifies cells, groupCandidates
      ensures State() == old(State()).ClearRow(row, val)
    {
      ghost var s0 := State();
      groupCandidates[0, row] := groupCandidates[0, row] - {val};
      for c := 0 to 3
        modifies cells
        invariant forall i, j :: 0 <= i < 3 && 0 <= j < 3 ==>
                    cells[i, j] == if i == row && j < c then s0.cells[i][j].ClearIfFilled(val) else s0.cells[i][j]
      {
        if cells[row, c].HasValue() {
          cells[row, c] := cells[row, c].ClearCandidate(val);
        }
      }
      FromParts(s0.ClearRow(row, val));
    }
  }
}
