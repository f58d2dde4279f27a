/** Option, as the source's `Option<T>`. */
module Wrappers {
  datatype Option<+T> = None | Some(value: T)
}

/** 3x3 tables, the shape of the source's `[[T; 3]; 3]` arrays. */
module Tables {

  predicate IsSquare<T>(a: seq<seq<T>>)
  {
    |a| == 3 && forall i :: 0 <= i < 3 ==> |a[i]| == 3
  }

  /** Two 3x3 tables that agree everywhere are equal. */
  lemma SquareExt<T>(a: seq<seq<T>>, b: seq<seq<T>>)
    requires IsSquare(a) && IsSquare(b)
    requires forall i, j :: 0 <= i < 3 && 0 <= j < 3 ==> a[i][j] == b[i][j]
    ensures a == b
  {
    assert a[0] == b[0];
    assert a[1] == b[1];
    assert a[2] == b[2];
  }
}

/**
 * Candidate masks. The source keeps every mask in a `u16` in which bit v set
 * means "digit v is still possible" (or, for a block's placed digits, "digit v
 * is placed"). A `u16` is modelled exactly by the set of positions (0..15) of
 * its one bits: `m | (1 << v)` is `m + {v}`, `m & !(1 << v)` is `m - {v}`,
 * `m & (1 << v) != 0` is `v in m` and `m.count_ones()` is `|m|`.
 */
module Masks {

  /** A shift amount `1 << v` accepts on a `u16` without overflow. */
  type Shift = v: int | 0 <= v < 16

  /** A `u8`. */
  type U8 = x: int | 0 <= x < 256

  /** A `u16` bitmask, as the set of positions of its one bits. */
  type Mask = set<Shift>

  /** `0b11_1111_1110`: bits 1..9 set, bit 0 and bits 10..15 clear. */
  const AllDigits: Mask := set w: Shift | 1 <= w <= 9

  function Pow2(n: nat): (p: nat)
    ensures p >= 1
  {
    if n == 0 then 1 else 2 * Pow2(n - 1)
  }

  /** The integer held by bits 0..n-1 of the mask: each set bit k adds `2^k`. */
  function ValueBelow(m: Mask, n: nat): nat
    requires n <= 16
  {
    if n == 0 then 0 else ValueBelow(m, n - 1) + (if n - 1 in m then Pow2(n - 1) else 0)
  }

  /** Bits 0..n-1 hold less than `2^n`. */
  lemma {:induction false} ValueBelowBound(m: Mask, n: nat)
    requires n <= 16
    ensures ValueBelow(m, n) < Pow2(n)
  {
    if n > 0 {
      ValueBelowBound(m, n - 1);
    }
  }

  /** The `u16` a mask stands for. */
  function ToU16(m: Mask): (n: nat)
    ensures n < 0x1_0000
  {
    ValueBelowBound(m, 16);
    Pow2Sixteen();
    ValueBelow(m, 16)
  }

  lemma Pow2Sixteen()
    ensures Pow2(16) == 0x1_0000
  {
    assert Pow2(4) == 16;
    assert Pow2(8) == 256;
    assert Pow2(12) == 4096;
  }

  /** The default candidate mask is the source's constant `0b11_1111_1110` (0x3FE), and the empty mask is `0b0`. */
  lemma AllDigitsValue()
    ensures ToU16(AllDigits) == 0x3FE  // 0b11_1111_1110
    ensures ToU16({}) == 0
  {
    assert ValueBelow(AllDigits, 1) == 0;
    assert ValueBelow(AllDigits, 2) == 2;
    assert ValueBelow(AllDigits, 3) == 6;
    assert ValueBelow(AllDigits, 4) == 14;
    assert ValueBelow(AllDigits, 5) == 30;
    assert ValueBelow(AllDigits, 6) == 62;
    assert ValueBelow(AllDigits, 7) == 126;
    assert ValueBelow(AllDigits, 8) == 254;
    assert ValueBelow(AllDigits, 9) == 510;
    assert ValueBelow(AllDigits, 10) == 1022;
    assert ValueBelow(AllDigits, 16) == 1022 by {
      assert ValueBelow(AllDigits, 11) == 1022;
      assert ValueBelow(AllDigits, 12) == 1022;
      assert ValueBelow(AllDigits, 13) == 1022;
      assert ValueBelow(AllDigits, 14) == 1022;
      assert ValueBelow(AllDigits, 15) == 1022;
    }
    EmptyValueBelow(16);
  }

  lemma {:induction false} EmptyValueBelow(n: nat)
    requires n <= 16
    ensures ValueBelow({}, n) == 0
  {
    if n > 0 {
      EmptyValueBelow(n - 1);
    }
  }

  /** Two masks that agree on bits 0..n-1 have the same value there. */
  lemma {:induction false} ValueBelowAgrees(m: Mask, m': Mask, n: nat)
    requires n <= 16
    requires forall k: Shift :: k < n ==> (k in m <==> k in m')
    ensures ValueBelow(m, n) == ValueBelow(m', n)
  {
    if n > 0 {
      ValueBelowAgrees(m, m', n - 1);
    }
  }

  /** Once bit v is among bits 0..n-1, a set bit v contributes `2^v` to their value. */
  lemma {:induction false} ValueBelowSetBit(m: Mask, v: Shift, n: nat)
    requires v < n <= 16
    requires v in m
    ensures ValueBelow(m, n) == ValueBelow(m - {v}, n) + Pow2(v)
  {
    if n == v + 1 {
      ValueBelowAgrees(m, m - {v}, v);
    } else {
      ValueBelowSetBit(m, v, n - 1);
      assert n - 1 in m <==> n - 1 in m - {v};
    }
  }

  /** Bit v contributes `2^v` to the value of the mask when it is set. */
  lemma ValueSplit(m: Mask, v: Shift)
    ensures ToU16(m) == ToU16(m - {v}) + (if v in m then Pow2(v) else 0)
  {
    if v in m {
      ValueBelowSetBit(m, v, 16);
    } else {
      assert m - {v} == m;
    }
  }

  /** `(x >> v) & 1`: bit v of the integer x. */
  function Bit(x: nat, v: nat): nat
  {
    if v == 0 then x % 2 else Bit(x / 2, v - 1)
  }

  /** `m >> 1`: every bit moves one place down, bit 0 drops out. */
  function Down(m: Mask): (d: Mask)
    ensures forall k: Shift :: k < 15 ==> (k in d <==> k + 1 in m)
  {
    var d := set k: Shift | k in m && k >= 1 :: k - 1;
    forall k: Shift | k < 15 && k + 1 in m
      ensures k in d
    {
      var w: Shift := k + 1;
      assert w - 1 == k;
    }
    d
  }

  /** The value of bits 0..n-1 is bit 0 plus twice the value of the shifted mask's bits 0..n-2. */
  lemma {:induction false} ValueBelowHalves(m: Mask, n: nat)
    requires 1 <= n <= 16
    ensures ValueBelow(m, n) == (if 0 in m then 1 else 0) + 2 * ValueBelow(Down(m), n - 1)
  {
    if n > 1 {
      ValueBelowHalves(m, n - 1);
    }
  }

  /** Bit v of the value of bits 0..n-1, for v below n, is one exactly when v is in the mask. */
  lemma {:induction false} BitOfValueBelow(m: Mask, v: Shift, n: nat)
    requires v < n <= 16
    ensures Bit(ValueBelow(m, n), v) == if v in m then 1 else 0
    decreases v
  {
    ValueBelowHalves(m, n);
    var x := ValueBelow(m, n);
    assert x % 2 == (if 0 in m then 1 else 0);
    if v > 0 {
      assert x / 2 == ValueBelow(Down(m), n - 1);
      BitOfValueBelow(Down(m), v - 1, n - 1);
    }
  }

  /** `m & (1 << v) != 0`: bit v of the value is one exactly when v is in the mask. */
  lemma TestBitValue(m: Mask, v: Shift)
    ensures Bit(ToU16(m), v) == if v in m then 1 else 0
  {
    BitOfValueBelow(m, v, 16);
  }

  /** `m | (1 << v)`: setting bit v adds `2^v` to the value unless the bit was already set. */
  lemma SetBitValue(m: Mask, v: Shift)
    ensures ToU16(m + {v}) == ToU16(m) + (if v in m then 0 else Pow2(v))
  {
    ValueSplit(m, v);
    ValueSplit(m + {v}, v);
    assert (m + {v}) - {v} == m - {v};
  }

  /** `m & !(1 << v)`: clearing bit v subtracts `2^v` from the value if the bit was set. */
  lemma ClearBitValue(m: Mask, v: Shift)
    ensures ToU16(m - {v}) == ToU16(m) - (if v in m then Pow2(v) else 0)
  {
    ValueSplit(m, v);
    assert (m - {v}) - {v} == m - {v};
  }

  /** `count_ones() == 1` holds exactly when the mask is a single bit. */
  lemma SingleBit(m: Mask)
    ensures |m| == 1 <==> exists k: Shift :: m == {k}
  {
    if |m| == 1 {
      var k :| k in m;
      assert |m - {k}| == 0;
      assert m == {k};
    }
  }
}
