/** The table-driven CRC-16 of the DMK analyser, proved to be division by
    x^16 + x^12 + x^5 + 1 (section 2 of ITU-T Recommendation V.41). */
module Crc16 {
  import opened ByteMessages
  import opened PolyDivision
  import opened Word16
  import opened Crc16Table

  function Upper(c: bv16): byte { (c >> 8) as byte }

  function TableStep(crc: bv16, b: byte): bv16 {
    (crc << 8) ^ Lookup(Upper(crc) ^ b)
  }

  /** The check of a message, by its bytes. */
  function CrcOf(data: seq<byte>, crc: bv16): bv16
    decreases |data|
  {
    if data == [] then crc else CrcOf(data[1..], TableStep(crc, data[0]))
  }

  lemma {:induction false} CrcOfAppend(a: seq<byte>, b: seq<byte>, crc: bv16)
    ensures CrcOf(a + b, crc) == CrcOf(b, CrcOf(a, crc))
    decreases |a|
  {
    hide TableStep;
    if a == [] {
      assert a + b == b;
    } else {
      assert (a + b)[1..] == a[1..] + b;
      CrcOfAppend(a[1..], b, TableStep(crc, a[0]));
    }
  }

  // ---------- The step is eight clocks ----------

  lemma EntryIsAdvance(x: byte)
    ensures Entry(x) == AdvanceN(Spread(x), 8)
  {
    hide Advance, Spread;
    var c := Advance(Advance(Advance(Advance(Spread(x)))));
    assert AdvanceN(Spread(x), 4) == c && AdvanceN(c, 4) == Entry(x);
    AdvanceNSum(Spread(x), 4, 4);
  }

  lemma SplitUpper(c: bv16)
    ensures c == Plus(Spread(Upper(c)), c & 0xFF)
  {
  }

  lemma SpreadPlus(x: byte, y: byte)
    ensures Spread(x ^ y) == Plus(Spread(x), Spread(y))
  {
  }

  lemma SplitWord(c: bv16, b: byte)
    ensures Plus(c, Spread(b)) == Plus(Spread(Upper(c) ^ b), c & 0xFF)
  {
    hide Plus, Spread, Upper;
    SplitUpper(c);
    SpreadPlus(Upper(c), b);
    PlusRegroup(Spread(Upper(c)), Spread(b), c & 0xFF);
  }

  lemma TableStepParts(c: bv16, b: byte)
    ensures TableStep(c, b) == Plus(Lookup(Upper(c) ^ b), (c & 0xFF) << 8)
  {
    hide Lookup, Plus, Upper;
    PlusShifted(c, Lookup(Upper(c) ^ b));
  }

  lemma PlusShifted(c: bv16, l: bv16)
    ensures (c << 8) ^ l == Plus(l, (c & 0xFF) << 8)
  {
  }

  lemma TableStepIsAdvance(c: bv16, b: byte)
    ensures TableStep(c, b) == AdvanceN(Plus(c, Spread(b)), 8)
  {
    hide AdvanceN, Lookup, Entry, Spread, TableStep, Plus, Upper;
    var x := Upper(c) ^ b;
    SplitWord(c, b);
    TableStepParts(c, b);
    EntryIsAdvance(x);
    TableRight(x);
    AdvanceNPlus(Spread(x), c & 0xFF, 8);
    AdvanceLowByte(c & 0xFF);
  }

  /** Adding a byte to the register adds its bits to the leading coefficients. */
  lemma WordBitsSpread(c: bv16, b: byte)
    ensures WordBits(Plus(c, Spread(b))) == XorLead(WordBits(c), ByteBits(b))
  {
    hide Plus, BitAt, Spread;
    forall i: nat | i < 16
      ensures WordBits(Plus(c, Spread(b)))[i] == XorLead(WordBits(c), ByteBits(b))[i]
    {
      BitAtPlus(c, Spread(b), i);
      if 8 <= i { SpreadLow(b, i); }
    }
  }

  lemma SpreadLow(b: byte, i: nat)
    requires 8 <= i
    ensures !BitAt(Spread(b), i)
  {
    BitAtShlN(b as bv16, 8, i);
    ShlEight(b as bv16);
    BitAtEnd(b as bv16, 8 + i);
  }

  lemma TableStepIsRun(c: bv16, b: byte)
    ensures WordBits(TableStep(c, b)) == Run(WordBits(c), ByteBits(b), CCITT)
  {
    hide TableStep, Plus, Spread, BitAt, AdvanceN;
    TableStepIsAdvance(c, b);
    WordBitsSpread(c, b);
    AdvanceNIsRun(Plus(c, Spread(b)), 8);
    RunPreload(WordBits(c), ByteBits(b), CCITT);
  }

  // ---------- Theorems ----------

  /** The table form is the bit-serial shift register on the message's bits. */
  lemma {:induction false} CrcIsRun(data: seq<byte>, crc: bv16)
    ensures WordBits(CrcOf(data, crc)) == Run(WordBits(crc), MessageBits(data), CCITT)
    decreases |data|
  {
    hide TableStep, BitAt, ByteBits;
    if data != [] {
      TableStepIsRun(crc, data[0]);
      CrcIsRun(data[1..], TableStep(crc, data[0]));
      RunAppend(WordBits(crc), ByteBits(data[0]), MessageBits(data[1..]), CCITT);
    }
  }

  /** The table form is long division: the check is the remainder of the message times x^16,
      with the start value added to the leading coefficients. */
  lemma CrcIsDivision(data: seq<byte>, crc: bv16)
    ensures WordBits(CrcOf(data, crc)) == Remainder(Pending(WordBits(crc), MessageBits(data)), CCITT)
  {
    hide CrcOf, BitAt;
    CrcIsRun(data, crc);
    RunIsRemainder(WordBits(crc), MessageBits(data), CCITT);
  }

  method Crc16(data: seq<byte>, start: bv16) returns (crc: bv16)
    ensures crc == CrcOf(data, start)
    ensures WordBits(crc) == Remainder(Pending(WordBits(start), MessageBits(data)), CCITT)
  {
    hide TableStep, BitAt;
    crc := start;
    var i := 0;
    while i < |data|
      invariant 0 <= i <= |data|
      invariant CrcOf(data[i..], crc) == CrcOf(data, start)
    {
      assert data[i..][1..] == data[i + 1..];
      crc := TableStep(crc, data[i]);
      i := i + 1;
    }
    CrcIsDivision(data, start);
  }

  lemma ConstantTerm()
    ensures CCITT[15]
  {
    assert ShlN(POLY, 15) == 0x8000 by {
      ShlNSum(POLY, 8, 7);
      ShlEight(POLY);
      ShlNSum(POLY << 8, 4, 3);
    }
    BitAtShlN(POLY, 15, 0);
  }

  /** Any burst of at most sixteen bits changes the check, at any place in any message. */
  lemma BurstChangesCrc(x: seq<byte>, y: seq<byte>, crc: bv16, at: nat, width: nat)
    requires IsBurst(MessageBits(x), MessageBits(y), at, width) && width <= 16
    ensures CrcOf(x, crc) != CrcOf(y, crc)
  {
    hide CrcOf, BitAt;
    ConstantTerm();
    CrcIsRun(x, crc);
    CrcIsRun(y, crc);
    BurstDetected(WordBits(crc), MessageBits(x), MessageBits(y), at, width, CCITT);
  }

  lemma ByteBitsInjective(a: byte, b: byte)
    requires ByteBits(a) == ByteBits(b)
    ensures a == b
  {
    hide BitAt, Spread;
    var p, q := WordBits(Spread(a)), WordBits(Spread(b));
    forall i: nat | i < 16 ensures p[i] == q[i] {
      if i < 8 {
        assert ByteBits(a)[i] == ByteBits(b)[i];
      } else {
        SpreadLow(a, i);
        SpreadLow(b, i);
      }
    }
    assert p == q;
    WordBitsInjective(Spread(a), Spread(b));
    SpreadInjective(a, b);
  }

  lemma SpreadInjective(a: byte, b: byte)
    requires Spread(a) == Spread(b)
    ensures a == b
  {
  }

  /** Two messages of one length that differ only inside two adjacent bytes never share a check. */
  lemma TwoByteDamageChangesCrc(x: seq<byte>, y: seq<byte>, crc: bv16, at: nat, width: nat)
    requires IsBurst(x, y, at, width) && width <= 2
    ensures CrcOf(x, crc) != CrcOf(y, crc)
  {
    hide CrcOf, ByteBits, Serial;
    forall a, b | ByteBits(a) == ByteBits(b) ensures a == b { ByteBitsInjective(a, b); }
    SerialBurst(ByteBits, x, y, at, width);
    BurstChangesCrc(x, y, crc, 8 * at, 8 * width);
  }

  lemma CheckBits(hi: byte, lo: byte)
    ensures MessageBits([hi, lo]) == WordBits(Plus(Spread(hi), lo as bv16))
  {
    hide BitAt, Plus, Spread;
    assert MessageBits([hi, lo]) == ByteBits(hi) + ByteBits(lo) by {
      assert [hi, lo][1..] == [lo] && [lo][1..] == [];
      assert MessageBits([hi, lo]) == ByteBits(hi) + MessageBits([lo]);
    }
    var p, q := MessageBits([hi, lo]), WordBits(Plus(Spread(hi), lo as bv16));
    forall i: nat | i < 16 ensures p[i] == q[i] {
      BitAtPlus(Spread(hi), lo as bv16, i);
      LowByteBits(lo, i);
      if 8 <= i { SpreadLow(hi, i); }
    }
  }

  /** A byte in the lower half shows its bits there and nothing above. */
  lemma LowByteBits(b: byte, i: nat)
    ensures BitAt(b as bv16, i) == (8 <= i && BitAt(Spread(b), i - 8))
  {
    hide BitAt, Top;
    BitAtShlN(b as bv16, 8, if i < 8 then 0 else i - 8);
    ShlEight(b as bv16);
    if i < 8 { HighHalfEmpty(b, i); }
  }

  lemma HighHalfEmpty(b: byte, i: nat)
    requires i < 8
    ensures !BitAt(b as bv16, i)
  {
    if i < 4 {
      FourClear(b as bv16, i);
    } else {
      BitAtShlN(b as bv16, 4, i - 4);
      ShlFour(b as bv16);
      FourClear((b as bv16) << 4, i - 4);
    }
  }

  lemma FourClear(c: bv16, i: nat)
    requires c < 0x1000 && i < 4
    ensures !BitAt(c, i)
  {
    BitAtShlN(c, i, 0);
    assert !Top(c) && !Top(Shl(c)) && !Top(Shl(Shl(c))) && !Top(Shl(Shl(Shl(c))));
    assert ShlN(c, 0) == c && ShlN(c, 1) == Shl(c) && ShlN(c, 2) == Shl(Shl(c));
    assert ShlN(c, 3) == ShlN(Shl(c), 2) == Shl(Shl(Shl(c)));
  }

  /** Appending the check, high byte first, drives the register to zero, and no other two
      bytes do. */
  lemma ResidueIsZero(data: seq<byte>, hi: byte, lo: byte, start: bv16)
    ensures CrcOf(data + [hi, lo], start) == 0 <==> CrcOf(data, start) == Plus(Spread(hi), lo as bv16)
  {
    hide CrcOf, Serial, BitAt, Plus, Spread;
    var w := Plus(Spread(hi), lo as bv16);
    SerialAppend(ByteBits, data, [hi, lo]);
    CheckBits(hi, lo);
    CrcIsRun(data + [hi, lo], start);
    CrcIsRun(data, start);
    ConstantTerm();
    ResidueZero(WordBits(start), MessageBits(data), WordBits(w), CCITT);
    ZeroWord(CrcOf(data + [hi, lo], start));
    if WordBits(w) == WordBits(CrcOf(data, start)) {
      WordBitsInjective(w, CrcOf(data, start));
    }
  }

  lemma ZeroWord(c: bv16)
    ensures c == 0 <==> WordBits(c) == Zeros(16)
  {
    hide BitAt;
    forall i: nat | i < 16 ensures !BitAt(0, i) {
      BitAtZero(i);
    }
    if WordBits(c) == Zeros(16) {
      assert WordBits(c) == WordBits(0);
      WordBitsInjective(c, 0);
    }
  }

  function XorBytes(x: seq<byte>, y: seq<byte>): (r: seq<byte>)
    requires |x| == |y|
    ensures |r| == |x|
  {
    seq(|x|, i requires 0 <= i < |x| => x[i] ^ y[i])
  }

  /** The check is linear in message and start value together, so for a fixed start it is
      affine in the message. */
  lemma {:induction false} CrcLinear(x: seq<byte>, y: seq<byte>, c: bv16, d: bv16)
    requires |x| == |y|
    ensures CrcOf(XorBytes(x, y), Plus(c, d)) == Plus(CrcOf(x, c), CrcOf(y, d))
    decreases |x|
  {
    hide TableStep, Plus;
    if x != [] {
      StepLinear(c, d, x[0], y[0]);
      assert XorBytes(x, y)[1..] == XorBytes(x[1..], y[1..]);
      CrcLinear(x[1..], y[1..], TableStep(c, x[0]), TableStep(d, y[0]));
    }
  }

  lemma StepLinear(c: bv16, d: bv16, a: byte, b: byte)
    ensures TableStep(Plus(c, d), a ^ b) == Plus(TableStep(c, a), TableStep(d, b))
  {
    hide TableStep, Plus, Spread, AdvanceN;
    TableStepIsAdvance(Plus(c, d), a ^ b);
    TableStepIsAdvance(c, a);
    TableStepIsAdvance(d, b);
    SpreadPlus(a, b);
    PlusFour(c, d, Spread(a), Spread(b));
    AdvanceNPlus(Plus(c, Spread(a)), Plus(d, Spread(b)), 8);
  }

  lemma PlusFour(a: bv16, b: bv16, c: bv16, d: bv16)
    ensures Plus(Plus(a, b), Plus(c, d)) == Plus(Plus(a, c), Plus(b, d))
  {
    hide Plus;
    PlusRegroup(a, Plus(c, d), b);
    PlusRegroup(a, d, c);
    PlusRegroup(Plus(a, c), b, d);
    PlusSwap(c, d);
  }

  lemma PlusSwap(a: bv16, b: bv16)
    ensures Plus(a, b) == Plus(b, a)
  {
  }

  const MFM_PRESET: bv16 := 0xCDB4

  /** The MFM start value stands for the three sync bytes A1 A1 A1 after the usual FFFF. */
  lemma PresetIsSync()
    ensures CrcOf([0xA1, 0xA1, 0xA1], 0xFFFF) == MFM_PRESET
  {
    var m: seq<byte> := [0xA1, 0xA1, 0xA1];
    assert TableStep(0xFFFF, 0xA1) == 0x443B;
    assert TableStep(0x443B, 0xA1) == 0x968B;
    assert TableStep(0x968B, 0xA1) == MFM_PRESET;
    assert m[1..] == [0xA1, 0xA1] && m[1..][1..] == [0xA1];
  }
}
