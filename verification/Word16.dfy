/** 16-bit register words as coefficient lists, and bit-serial division on them. */
module Word16 {
  import opened ByteMessages
  import opened PolyDivision

  predicate Top(c: bv16) { c & 0x8000 != 0 }

  function Shl(c: bv16): bv16 { c << 1 }

  function Plus(c: bv16, d: bv16): bv16 { c ^ d }

  /** Coefficient `i` of a register value, counted from the most significant. */
  predicate BitAt(c: bv16, i: nat)
    decreases i
  {
    if i == 0 then Top(c) else BitAt(Shl(c), i - 1)
  }

  function WordBits(c: bv16): (r: Bits)
    ensures |r| == 16
    ensures forall i | 0 <= i < 16 :: r[i] == BitAt(c, i)
  {
    seq(16, i requires 0 <= i < 16 => BitAt(c, i))
  }

  function Spread(b: byte): bv16 { (b as bv16) << 8 }

  /** A message byte, most significant bit first. */
  function ByteBits(b: byte): (r: Bits)
    ensures |r| == 8
  {
    WordBits(Spread(b))[..8]
  }

  function MessageBits(data: seq<byte>): (r: Bits)
    ensures |r| == 8 * |data|
  {
    Serial(ByteBits, data)
  }

  lemma ShlPlus(c: bv16, d: bv16)
    ensures Shl(Plus(c, d)) == Plus(Shl(c), Shl(d))
  {
  }

  lemma TopPlus(c: bv16, d: bv16)
    ensures Top(Plus(c, d)) == (Top(c) != Top(d))
  {
  }

  lemma {:induction false} BitAtPlus(c: bv16, d: bv16, i: nat)
    ensures BitAt(Plus(c, d), i) == (BitAt(c, i) != BitAt(d, i))
    decreases i
  {
    hide Top, Shl, Plus;
    ShlPlus(c, d);
    TopPlus(c, d);
    if i > 0 {
      BitAtPlus(Shl(c), Shl(d), i - 1);
    }
  }

  function ShlN(c: bv16, n: nat): bv16
    decreases n
  {
    if n == 0 then c else ShlN(Shl(c), n - 1)
  }

  lemma {:induction false} BitAtShlN(c: bv16, n: nat, i: nat)
    ensures BitAt(ShlN(c, n), i) == BitAt(c, n + i)
    decreases n
  {
    hide Top, Shl;
    if n > 0 {
      BitAtShlN(Shl(c), n - 1, i);
    }
  }

  lemma ShlFour(c: bv16)
    ensures ShlN(c, 4) == c << 4
  {
    assert ShlN(c, 4) == ShlN(Shl(Shl(c)), 2) == Shl(Shl(Shl(Shl(c))));
  }

  lemma ShlEight(c: bv16)
    ensures ShlN(c, 8) == c << 8
  {
    hide Shl;
    ShlNSum(c, 4, 4);
    ShlFour(c);
    ShlFour(c << 4);
    assert (c << 4) << 4 == c << 8;
  }

  /** No coefficient lies beyond the sixteenth. */
  lemma BitAtEnd(c: bv16, i: nat)
    requires 16 <= i
    ensures !BitAt(c, i)
  {
    BitAtShlN(c, 8, i - 8);
    ShlEight(c);
    BitAtShlN(c << 8, 8, i - 16);
    ShlEight(c << 8);
    assert (c << 8) << 8 == 0;
    BitAtZero(i - 16);
  }

  lemma {:induction false} BitAtZero(i: nat)
    ensures !BitAt(0, i)
  {
    if i > 0 {
      BitAtZero(i - 1);
    }
  }

  lemma {:induction false} ShlNZero(c: bv16, n: nat)
    requires n <= 16 && ShlN(c, n) == 0 && forall i | 0 <= i < n :: !BitAt(c, i)
    ensures c == 0
    decreases n
  {
    hide Shl, Top;
    if n > 0 {
      assert !BitAt(c, 0);
      forall i | 0 <= i < n - 1 ensures !BitAt(Shl(c), i) {
        assert !BitAt(c, i + 1);
      }
      ShlNZero(Shl(c), n - 1);
      ShlTopZero(c);
    }
  }

  lemma ShlTopZero(c: bv16)
    requires !Top(c) && Shl(c) == 0
    ensures c == 0
  {
  }

  lemma ShlSixteen(c: bv16)
    ensures ShlN(c, 16) == 0
  {
    hide Shl;
    ShlNSum(c, 8, 8);
    ShlEight(c);
    ShlEight(c << 8);
    assert (c << 8) << 8 == 0;
  }

  lemma {:induction false} ShlNSum(c: bv16, m: nat, n: nat)
    ensures ShlN(c, m + n) == ShlN(ShlN(c, m), n)
    decreases m
  {
    hide Shl;
    if m > 0 {
      ShlNSum(Shl(c), m - 1, n);
    }
  }

  /** Different register values have different coefficients. */
  lemma WordBitsInjective(c: bv16, d: bv16)
    requires WordBits(c) == WordBits(d)
    ensures c == d
  {
    hide Plus, BitAt;
    forall i: nat | i < 16 ensures !BitAt(Plus(c, d), i) {
      BitAtPlus(c, d, i);
      assert WordBits(c)[i] == WordBits(d)[i];
    }
    ShlSixteen(Plus(c, d));
    ShlNZero(Plus(c, d), 16);
    PlusZero(c, d);
  }

  lemma PlusZero(c: bv16, d: bv16)
    requires Plus(c, d) == 0
    ensures c == d
  {
  }

  // ---------- Bit-serial division on a register word ----------

  const POLY: bv16 := 0x1021

  /** The generator's coefficients below x^16. */
  const CCITT: Bits := WordBits(POLY)

  /** One clock with a zero bit. */
  function Advance(c: bv16): bv16 {
    if Top(c) then Plus(Shl(c), POLY) else Shl(c)
  }

  function AdvanceN(c: bv16, n: nat): bv16
    decreases n
  {
    if n == 0 then c else AdvanceN(Advance(c), n - 1)
  }

  lemma AdvanceIsClock(c: bv16)
    ensures WordBits(Advance(c)) == Clock(WordBits(c), false, CCITT)
  {
    hide Plus, Shl, Top;
    forall i | 0 <= i < 16 ensures WordBits(Advance(c))[i] == Clock(WordBits(c), false, CCITT)[i] {
      assert BitAt(Shl(c), i) == BitAt(c, i + 1);
      BitAtPlus(Shl(c), POLY, i);
      if i == 15 { BitAtEnd(c, 16); }
    }
  }

  lemma {:induction false} AdvanceNIsRun(c: bv16, n: nat)
    ensures WordBits(AdvanceN(c, n)) == Run(WordBits(c), Zeros(n), CCITT)
    decreases n
  {
    hide Advance, BitAt;
    if n > 0 {
      AdvanceIsClock(c);
      AdvanceNIsRun(Advance(c), n - 1);
      assert Zeros(n)[1..] == Zeros(n - 1);
    }
  }

  lemma PlusRegroup(a: bv16, b: bv16, p: bv16)
    ensures Plus(Plus(a, p), b) == Plus(Plus(a, b), p) == Plus(a, Plus(b, p))
    ensures Plus(Plus(a, p), Plus(b, p)) == Plus(a, b)
  {
  }

  lemma AdvancePlus(c: bv16, d: bv16)
    ensures Advance(Plus(c, d)) == Plus(Advance(c), Advance(d))
  {
    hide Plus, Shl, Top;
    ShlPlus(c, d);
    TopPlus(c, d);
    PlusRegroup(Shl(c), Shl(d), POLY);
  }

  lemma {:induction false} AdvanceNPlus(c: bv16, d: bv16, n: nat)
    ensures AdvanceN(Plus(c, d), n) == Plus(AdvanceN(c, n), AdvanceN(d, n))
    decreases n
  {
    hide Advance, Plus;
    if n > 0 {
      AdvancePlus(c, d);
      AdvanceNPlus(Advance(c), Advance(d), n - 1);
    }
  }

  lemma {:induction false} AdvanceNSum(c: bv16, m: nat, n: nat)
    ensures AdvanceN(c, m + n) == AdvanceN(AdvanceN(c, m), n)
    decreases m
  {
    hide Advance;
    if m > 0 {
      AdvanceNSum(Advance(c), m - 1, n);
    }
  }

  lemma AdvanceFour(c: bv16)
    requires c < 0x1000
    ensures AdvanceN(c, 4) == c << 4
  {
    assert Advance(c) == c << 1;
    assert Advance(c << 1) == c << 2;
    assert Advance(c << 2) == c << 3;
    assert Advance(c << 3) == c << 4;
    assert AdvanceN(c, 4) == AdvanceN(c << 1, 3) == AdvanceN(c << 2, 2) == AdvanceN(c << 3, 1) == AdvanceN(c << 4, 0);
  }

  /** Eight clocks leave the low byte unreduced: nothing has been carried out of it. */
  lemma AdvanceLowByte(c: bv16)
    requires c < 0x100
    ensures AdvanceN(c, 8) == c << 8
  {
    AdvanceFour(c);
    AdvanceFour(c << 4);
    AdvanceNSum(c, 4, 4);
    assert (c << 4) << 4 == c << 8;
  }
}
