/** The CRC-32 of section 8 of RFC 1952, which the program computes in three places with one
    branchless reflected loop. */
module Crc32 {
  import opened ByteMessages
  import opened PolyDivision
  import opened Word32

  // ---------- The program ----------

  function ByteStep(crc: bv32, b: byte): bv32 {
    AdvanceN(crc ^ (b as bv32), 8)
  }

  /** The register after a message, before the final complement. */
  function RegisterOf(data: seq<byte>, crc: bv32): bv32
    decreases |data|
  {
    if data == [] then crc else RegisterOf(data[1..], ByteStep(crc, data[0]))
  }

  function Crc32Of(data: seq<byte>): bv32 {
    !RegisterOf(data, 0xFFFF_FFFF)
  }

  /** The inner loop over the bits of one byte. */
  method EightClocks(start: bv32) returns (crc: bv32)
    ensures crc == AdvanceN(start, 8)
  {
    hide Advance;
    crc := start;
    for j := 0 to 8
      invariant AdvanceN(crc, 8 - j) == AdvanceN(start, 8)
    {
      crc := Advance(crc);
    }
  }

  /** The checksum row of the forensic report. */
  method CalculateHashes(data: seq<byte>) returns (sum: bv32)
    ensures sum == Crc32Of(data)
  {
    hide Advance, AdvanceN;
    var crc := 0xFFFF_FFFF;
    var i := 0;
    while i < |data|
      invariant 0 <= i <= |data|
      invariant RegisterOf(data[i..], crc) == RegisterOf(data, 0xFFFF_FFFF)
    {
      assert data[i..][1..] == data[i + 1..];
      crc := EightClocks(crc ^ (data[i] as bv32));
      i := i + 1;
    }
    sum := !crc;
  }

  /** The analyser window's copy for a file the core library does not open. */
  method LoadImageFromFile(data: seq<byte>) returns (sum: bv32)
    ensures sum == Crc32Of(data)
  {
    hide Advance, AdvanceN;
    var crc := 0xFFFF_FFFF;
    for i := 0 to |data|
      invariant RegisterOf(data[i..], crc) == RegisterOf(data, 0xFFFF_FFFF)
    {
      assert data[i..][1..] == data[i + 1..];
      crc := EightClocks(crc ^ (data[i] as bv32));
    }
    sum := !crc;
  }

  /** The analyser window's copy for an opened disk, whose image may be absent or empty. */
  method LoadImageFromDisk(image: seq<byte>, present: bool) returns (sum: bv32)
    ensures sum == Crc32Of(if present then image else [])
  {
    hide Advance, AdvanceN;
    var crc := 0xFFFF_FFFF;
    if present && |image| > 0 {
      for i := 0 to |image|
        invariant RegisterOf(image[i..], crc) == RegisterOf(image, 0xFFFF_FFFF)
      {
        assert image[i..][1..] == image[i + 1..];
        crc := EightClocks(crc ^ (image[i] as bv32));
      }
    }
    sum := !crc;
  }

  // ---------- The byte step is eight clocks of the shift register ----------

  /** A message byte, least significant bit first. */
  function ByteBits(b: byte): (r: Bits)
    ensures |r| == 8
  {
    WordBits(b as bv32)[..8]
  }

  function MessageBits(data: seq<byte>): (r: Bits)
    ensures |r| == 8 * |data|
  {
    Serial(ByteBits, data)
  }

  lemma ByteHigh(b: byte, i: nat)
    requires 8 <= i
    ensures !BitAt(b as bv32, i)
  {
    BitAtShrN(b as bv32, 8, i - 8);
    ShrEight(b as bv32);
    assert (b as bv32) >> 8 == 0;
    BitAtZero(i - 8);
  }

  lemma WordBitsByte(c: bv32, b: byte)
    ensures WordBits(Plus(c, b as bv32)) == XorLead(WordBits(c), ByteBits(b))
  {
    hide Plus, BitAt;
    forall i: nat | i < 32
      ensures WordBits(Plus(c, b as bv32))[i] == XorLead(WordBits(c), ByteBits(b))[i]
    {
      BitAtPlus(c, b as bv32, i);
      if 8 <= i { ByteHigh(b, i); }
    }
  }

  lemma ByteStepIsRun(c: bv32, b: byte)
    ensures WordBits(ByteStep(c, b)) == Run(WordBits(c), ByteBits(b), REFLECTED)
  {
    hide BitAt, AdvanceN, ByteBits;
    WordBitsByte(c, b);
    AdvanceNIsRun(c ^ (b as bv32), 8);
    RunPreload(WordBits(c), ByteBits(b), REFLECTED);
  }

  lemma {:induction false} RegisterIsRun(data: seq<byte>, crc: bv32)
    ensures WordBits(RegisterOf(data, crc)) == Run(WordBits(crc), MessageBits(data), REFLECTED)
    decreases |data|
  {
    hide ByteStep, BitAt, ByteBits;
    if data != [] {
      ByteStepIsRun(crc, data[0]);
      RegisterIsRun(data[1..], ByteStep(crc, data[0]));
      RunAppend(WordBits(crc), ByteBits(data[0]), MessageBits(data[1..]), REFLECTED);
    }
  }

  // ---------- Theorems ----------

  /** The checksum is the complement of a long-division remainder: of the message bits, each
      byte least significant bit first, times x^32, with ones added to the leading 32
      coefficients. */
  lemma Crc32IsDivision(data: seq<byte>)
    ensures WordBits(!Crc32Of(data)) == Remainder(Pending(WordBits(0xFFFF_FFFF), MessageBits(data)), REFLECTED)
  {
    hide RegisterOf, BitAt;
    RegisterIsRun(data, 0xFFFF_FFFF);
    RunIsRemainder(WordBits(0xFFFF_FFFF), MessageBits(data), REFLECTED);
  }

  /** Any burst of at most 32 bits changes the checksum, at any place in any image. */
  lemma BurstChangesCrc32(x: seq<byte>, y: seq<byte>, at: nat, width: nat)
    requires IsBurst(MessageBits(x), MessageBits(y), at, width) && width <= 32
    ensures Crc32Of(x) != Crc32Of(y)
  {
    hide RegisterOf, BitAt;
    ConstantTerm();
    var ones := 0xFFFF_FFFF;
    RegisterIsRun(x, ones);
    RegisterIsRun(y, ones);
    BurstDetected(WordBits(ones), MessageBits(x), MessageBits(y), at, width, REFLECTED);
  }

  lemma ByteBitsInjective(a: byte, b: byte)
    requires ByteBits(a) == ByteBits(b)
    ensures a == b
  {
    hide BitAt;
    var p, q := WordBits(a as bv32), WordBits(b as bv32);
    forall i: nat | i < 32 ensures p[i] == q[i] {
      if i < 8 {
        assert ByteBits(a)[i] == ByteBits(b)[i];
      } else {
        ByteHigh(a, i);
        ByteHigh(b, i);
      }
    }
    assert p == q;
    WordBitsInjective(a as bv32, b as bv32);
  }

  /** Two images of one length that differ only inside four consecutive bytes never share a
      checksum. */
  lemma FourByteDamageChangesCrc32(x: seq<byte>, y: seq<byte>, at: nat, width: nat)
    requires IsBurst(x, y, at, width) && width <= 4
    ensures Crc32Of(x) != Crc32Of(y)
  {
    hide Crc32Of, ByteBits, Serial;
    forall a, b | ByteBits(a) == ByteBits(b) ensures a == b { ByteBitsInjective(a, b); }
    SerialBurst(ByteBits, x, y, at, width);
    BurstChangesCrc32(x, y, 8 * at, 8 * width);
  }
}
