/** 32-bit register words as coefficient lists, and bit-serial division on them.  The register
    is reflected: its least significant bit is the leading coefficient. */
module Word32 {
  import opened PolyDivision

  predicate Low(c: bv32) { c & 1 != 0 }

  function Shr(c: bv32): bv32 { c >> 1 }

  function Plus(c: bv32, d: bv32): bv32 { c ^ d }

  /** Coefficient `i` of a register value, counted from the least significant bit. */
  predicate BitAt(c: bv32, i: nat)
    decreases i
  {
    if i == 0 then Low(c) else BitAt(Shr(c), i - 1)
  }

  function WordBits(c: bv32): (r: Bits)
    ensures |r| == 32
    ensures forall i | 0 <= i < 32 :: r[i] == BitAt(c, i)
  {
    seq(32, i requires 0 <= i < 32 => BitAt(c, i))
  }

  lemma ShrPlus(c: bv32, d: bv32)
    ensures Shr(Plus(c, d)) == Plus(Shr(c), Shr(d))
  {
  }

  lemma LowPlus(c: bv32, d: bv32)
    ensures Low(Plus(c, d)) == (Low(c) != Low(d))
  {
  }

  lemma {:induction false} BitAtPlus(c: bv32, d: bv32, i: nat)
    ensures BitAt(Plus(c, d), i) == (BitAt(c, i) != BitAt(d, i))
    decreases i
  {
    hide Low, Shr, Plus;
    ShrPlus(c, d);
    LowPlus(c, d);
    if i > 0 {
      BitAtPlus(Shr(c), Shr(d), i - 1);
    }
  }

  function ShrN(c: bv32, n: nat): bv32
    decreases n
  {
    if n == 0 then c else ShrN(Shr(c), n - 1)
  }

  lemma {:induction false} BitAtShrN(c: bv32, n: nat, i: nat)
    ensures BitAt(ShrN(c, n), i) == BitAt(c, n + i)
    decreases n
  {
    hide Low, Shr;
    if n > 0 {
      BitAtShrN(Shr(c), n - 1, i);
    }
  }

  lemma {:induction false} ShrNSum(c: bv32, m: nat, n: nat)
    ensures ShrN(c, m + n) == ShrN(ShrN(c, m), n)
    decreases m
  {
    hide Shr;
    if m > 0 {
      ShrNSum(Shr(c), m - 1, n);
    }
  }

  lemma ShrFour(c: bv32)
    ensures ShrN(c, 4) == c >> 4
  {
    assert ShrN(c, 4) == ShrN(Shr(Shr(c)), 2) == Shr(Shr(Shr(Shr(c))));
  }

  lemma ShrThree(c: bv32)
    ensures ShrN(c, 3) == c >> 3
  {
    assert ShrN(c, 3) == ShrN(Shr(Shr(c)), 1) == Shr(Shr(Shr(c)));
  }

  lemma ShrEight(c: bv32)
    ensures ShrN(c, 8) == c >> 8
  {
    hide Shr;
    ShrNSum(c, 4, 4);
    ShrFour(c);
    ShrFour(c >> 4);
    assert (c >> 4) >> 4 == c >> 8;
  }

  lemma ShrSixteen(c: bv32)
    ensures ShrN(c, 16) == c >> 16
  {
    hide Shr;
    ShrNSum(c, 8, 8);
    ShrEight(c);
    ShrEight(c >> 8);
    assert (c >> 8) >> 8 == c >> 16;
  }

  lemma ShrAll(c: bv32)
    ensures ShrN(c, 32) == 0
  {
    hide Shr;
    ShrNSum(c, 16, 16);
    ShrSixteen(c);
    ShrSixteen(c >> 16);
    assert (c >> 16) >> 16 == 0;
  }

  lemma {:induction false} BitAtZero(i: nat)
    ensures !BitAt(0, i)
  {
    if i > 0 {
      BitAtZero(i - 1);
    }
  }

  /** No coefficient lies beyond the thirty-second. */
  lemma BitAtEnd(c: bv32, i: nat)
    requires 32 <= i
    ensures !BitAt(c, i)
  {
    hide Shr, Low;
    BitAtShrN(c, 32, i - 32);
    ShrAll(c);
    BitAtZero(i - 32);
  }

  lemma {:induction false} ShrNZero(c: bv32, n: nat)
    requires ShrN(c, n) == 0 && forall i: nat | i < n :: !BitAt(c, i)
    ensures c == 0
    decreases n
  {
    hide Shr, Low;
    if n > 0 {
      assert !BitAt(c, 0);
      forall i: nat | i < n - 1 ensures !BitAt(Shr(c), i) {
        assert !BitAt(c, i + 1);
      }
      ShrNZero(Shr(c), n - 1);
      ShrLowZero(c);
    }
  }

  lemma ShrLowZero(c: bv32)
    requires !Low(c) && Shr(c) == 0
    ensures c == 0
  {
  }

  lemma PlusZero(c: bv32, d: bv32)
    requires Plus(c, d) == 0
    ensures c == d
  {
  }

  /** Different register values have different coefficients. */
  lemma WordBitsInjective(c: bv32, d: bv32)
    requires WordBits(c) == WordBits(d)
    ensures c == d
  {
    hide Plus, BitAt;
    forall i: nat | i < 32 ensures !BitAt(Plus(c, d), i) {
      BitAtPlus(c, d, i);
      assert WordBits(c)[i] == WordBits(d)[i];
    }
    ShrAll(Plus(c, d));
    ShrNZero(Plus(c, d), 32);
    PlusZero(c, d);
  }

  // ---------- Bit-serial division on a register word ----------

  const POLY: bv32 := 0xEDB88320

  /** The generator's coefficients below x^32. */
  const REFLECTED: Bits := WordBits(POLY)

  /** The branchless clock with a zero bit: the mask is all ones exactly for an odd register. */
  function Advance(c: bv32): bv32 {
    (c >> 1) ^ (POLY & (0 - (c & 1)))
  }

  lemma AdvanceBranches(c: bv32)
    ensures Advance(c) == if Low(c) then Plus(Shr(c), POLY) else Shr(c)
  {
    assert c & 1 == 0 || c & 1 == 1;
  }

  function AdvanceN(c: bv32, n: nat): bv32
    decreases n
  {
    if n == 0 then c else AdvanceN(Advance(c), n - 1)
  }

  lemma AdvanceIsClock(c: bv32)
    ensures WordBits(Advance(c)) == Clock(WordBits(c), false, REFLECTED)
  {
    hide Plus, Shr, Low, Advance;
    AdvanceBranches(c);
    forall i: nat | i < 32 ensures WordBits(Advance(c))[i] == Clock(WordBits(c), false, REFLECTED)[i] {
      assert BitAt(Shr(c), i) == BitAt(c, i + 1);
      BitAtPlus(Shr(c), POLY, i);
      if i == 31 { BitAtEnd(c, 32); }
    }
  }

  lemma {:induction false} AdvanceNIsRun(c: bv32, n: nat)
    ensures WordBits(AdvanceN(c, n)) == Run(WordBits(c), Zeros(n), REFLECTED)
    decreases n
  {
    hide Advance, BitAt;
    if n > 0 {
      AdvanceIsClock(c);
      AdvanceNIsRun(Advance(c), n - 1);
      assert Zeros(n)[1..] == Zeros(n - 1);
    }
  }

  lemma ConstantTerm()
    ensures REFLECTED[31]
  {
    ShrNSum(POLY, 16, 15);
    ShrSixteen(POLY);
    ShrNSum(POLY >> 16, 8, 7);
    ShrEight(POLY >> 16);
    ShrNSum(0xED, 4, 3);
    ShrFour(0xED);
    ShrThree(0xE);
    BitAtShrN(POLY, 31, 0);
  }
}
