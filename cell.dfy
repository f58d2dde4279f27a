/**
 * One of the 81 positions of the puzzle: an optional digit, a flag saying
 * whether the digit came with the puzzle, and the candidate mask.
 */
module Cells {
  import opened Wrappers
  import opened Masks

  /** The value of a cell's three fields at one moment. */
  datatype CellState = CellState(value: Option<U8>, isGiven: bool, candidates: Mask) {

    /** `has_value`: the cell holds a digit, that is, its value is not `None`. */
    predicate HasValue()
      ensures HasValue() <==> value != None
    {
      value.Some?
    }

    /** `can_set_value`: bit `val` of the candidate mask's `u16` is one. */
    predicate CanSetValue(val: Shift)
      ensures CanSetValue(val) <==> Bit(ToU16(candidates), val) == 1
    {
      TestBitValue(candidates, val);
      val in candidates
    }

    /** `_is_single_candidate`: `count_ones() == 1`, so the mask is a single bit, whatever the cell's value. */
    predicate IsSingleCandidate()
      ensures IsSingleCandidate() <==> exists k: Shift :: candidates == {k}
    {
      SingleBit(candidates);
      |candidates| == 1
    }

    /** `set_value`: store the digit and the flag, and set the mask to `0b0`. */
    function SetValue(val: U8, isGiven: bool): (c: CellState)
      ensures c.value == Some(val) && c.isGiven == isGiven
      ensures ToU16(c.candidates) == 0
      ensures forall w: Shift :: !c.CanSetValue(w)
    {
      AllDigitsValue();
      CellState(Some(val), isGiven, {})
    }

    /** `_set_candidate`: set bit `val`, leave every other bit and both other fields. */
    function SetCandidate(val: Shift): (c: CellState)
      ensures c.value == value && c.isGiven == isGiven
      ensures c.CanSetValue(val)
      ensures forall w: Shift :: w != val ==> (c.CanSetValue(w) <==> CanSetValue(w))
    {
      this.(candidates := candidates + {val})
    }

    /** `clear_candidate`: clear bit `val`, leave every other bit and both other fields. */
    function ClearCandidate(val: Shift): (c: CellState)
      ensures c.value == value && c.isGiven == isGiven
      ensures !c.CanSetValue(val)
      ensures forall w: Shift :: w != val ==> (c.CanSetValue(w) <==> CanSetValue(w))
    {
      this.(candidates := candidates - {val})
    }

    /** `_set_candidate_val`: overwrite the whole mask. */
    function SetCandidateVal(m: Mask): (c: CellState)
      ensures c.value == value && c.isGiven == isGiven
      ensures forall w: Shift :: c.CanSetValue(w) <==> w in m
    {
      this.(candidates := m)
    }

    /** What the propagation loops of a block do to one cell: clear `val` only if the cell holds a digit. */
    function ClearIfFilled(val: Shift): (c: CellState)
      ensures c.value == value && c.isGiven == isGiven
      ensures !HasValue() ==> c == this
      ensures HasValue() ==> !c.CanSetValue(val)
      ensures forall w: Shift :: w != val ==> (c.CanSetValue(w) <==> CanSetValue(w))
    {
      if HasValue() then ClearCandidate(val) else this
    }
  }

  /** `Cell::default()`: no digit, not given, every digit 1..9 a candidate and bit 0 clear. */
  function DefaultCell(): (c: CellState)
    ensures !c.HasValue() && !c.isGiven
    ensures ToU16(c.candidates) == 0x3FE
    ensures forall w: Shift :: c.CanSetValue(w) <==> 1 <= w <= 9
  {
    AllDigitsValue();
    CellState(None, false, AllDigits)
  }

  /** `_is_single_candidate` looks at the mask only; the cell's value plays no part. */
  lemma SingleCandidateIgnoresValue(c: CellState, v: Option<U8>)
    ensures c.IsSingleCandidate() == c.(value := v).IsSingleCandidate()
  {
  }

  /** Clearing a bit twice is clearing it once. */
  lemma ClearCandidateIdempotent(c: CellState, val: Shift)
    ensures c.ClearCandidate(val).ClearCandidate(val) == c.ClearCandidate(val)
  {
  }

  /** Setting then testing agrees, and clearing then testing agrees. */
  lemma SetThenTest(c: CellState, val: Shift)
    ensures c.SetCandidate(val).CanSetValue(val)
    ensures !c.ClearCandidate(val).CanSetValue(val)
    ensures c.SetCandidate(val).ClearCandidate(val) == c.ClearCandidate(val)
  {
  }

  /** A cell of the puzzle; the source's `Cell`, whose `&mut self` methods overwrite its fields. */
  class Cell {
    var value: Option<U8>
    var isGiven: bool
    var candidates: Mask

    function State(): CellState
      reads this
    {
      CellState(value, isGiven, candidates)
    }

    constructor Default()
      ensures State() == DefaultCell()
    {
      value := None;
      isGiven := false;
      candidates := AllDigits;
    }

    method SetValue(val: U8, isGiven: bool)
      modifies this
      ensures State() == old(State()).SetValue(val, isGiven)
    {
      this.value := Some(val);
      this.isGiven := isGiven;
      this.candidates := {};
    }

    method SetCandidate(val: Shift)
      modifies this
      ensures State() == old(State()).SetCandidate(val)
    {
      candidates := candidates + {val};
    }

    method ClearCandidate(val: Shift)
      modifies this
      ensures State() == old(State()).ClearCandidate(val)
    {
      candidates := candidates - {val};
    }

    method SetCandidateVal(candidates: Mask)
      modifies this
      ensures State() == old(State()).SetCandidateVal(candidates)
    {
      this.candidates := candidates;
    }
  }
}
