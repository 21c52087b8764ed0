/** What the analyser's verdict on a sector means: a good CRC is a zero residue over everything
    from the sync bytes to the stored check, and damage to a good sector's data is always seen. */
module DmkIntegrity {
  import opened ByteMessages
  import opened PolyDivision
  import opened Word16
  import opened Crc16
  import opened Dmk

  function SyncOf(fm: bool): seq<byte> { if fm then [] else [SYNC, SYNC, SYNC] }

  /** The sector as it stands in the track, from its sync bytes to its stored check. */
  function Covered(t: seq<byte>, s: Sector): seq<byte>
    requires 1 <= s.dataOffset && s.dataOffset + |s.data| + 2 <= |t|
  {
    SyncOf(s.fm) + [t[s.dataOffset - 1]] + s.data
  }

  /** Where a sector's data was read, and what the read implies about the track. */
  lemma ReadFacts(t: seq<byte>, off: nat)
    requires off < |t| && ReadSector(t, off).Some? && ReadSector(t, off).value.data != []
    ensures var s := ReadSector(t, off).value;
      && off + 8 <= s.dataOffset
      && |s.data| == s.dataSize
      && s.dataOffset + |s.data| + 2 <= |t|
      && s.data == t[s.dataOffset..s.dataOffset + |s.data|]
      && t[s.dataOffset - 1] == (if s.deleted then DELETED_DAM else DAM)
      && s.check == Check(StoredCrc(t, s.dataOffset + |s.data|), DataCrc(!s.fm, s.deleted, s.data))
      && s.crcOk == (s.check.stored == s.check.computed)
  {
    hide StoredCrc, DataCrc, DataSize, IsMfm;
  }

  lemma SyncPreset(fm: bool, rest: seq<byte>)
    ensures CrcOf(SyncOf(fm) + rest, 0xFFFF) == CrcOf(rest, if fm then 0xFFFF else MFM_PRESET)
  {
    hide TableStep;
    CrcOfAppend(SyncOf(fm), rest, 0xFFFF);
    PresetIsSync();
  }

  lemma DataCrcIs(t: seq<byte>, s: Sector)
    requires 1 <= s.dataOffset && s.dataOffset + |s.data| + 2 <= |t|
    requires t[s.dataOffset - 1] == if s.deleted then DELETED_DAM else DAM
    ensures CrcOf(Covered(t, s), 0xFFFF) == DataCrc(!s.fm, s.deleted, s.data)
  {
    hide CrcOf;
    var mark := [t[s.dataOffset - 1]];
    assert Covered(t, s) == SyncOf(s.fm) + (mark + s.data);
    SyncPreset(s.fm, mark + s.data);
    CrcOfAppend(mark, s.data, if s.fm then 0xFFFF else MFM_PRESET);
  }

  /** A sector whose data was read is reported good exactly when sync, mark, data and stored
      check together leave the zero residue. */
  lemma GoodIsZeroResidue(t: seq<byte>, off: nat)
    requires off < |t| && ReadSector(t, off).Some? && ReadSector(t, off).value.data != []
    ensures var s := ReadSector(t, off).value;
      && 1 <= s.dataOffset && s.dataOffset + |s.data| + 2 <= |t|
      && (s.crcOk <==>
          CrcOf(Covered(t, s) + t[s.dataOffset + |s.data|..s.dataOffset + |s.data| + 2], 0xFFFF) == 0)
  {
    hide ReadSector, CrcOf, Covered, DataCrc, Plus, Spread;
    ReadFacts(t, off);
    var s := ReadSector(t, off).value;
    var at := s.dataOffset + |s.data|;
    DataCrcIs(t, s);
    ResidueIsZero(Covered(t, s), t[at], t[at + 1], 0xFFFF);
    assert t[at..at + 2] == [t[at], t[at + 1]];
  }

  /** The report on a sector whose data was read, with other data in place of it and no longer good. */
  function Damaged(s: Sector, data: seq<byte>): Sector
    requires s.check.Check?
  {
    s.(data := data, crcOk := false, check := s.check.(computed := DataCrc(!s.fm, s.deleted, data)))
  }

  /** Damage inside two adjacent data bytes of a good sector leaves everything else the analyser
      reports about it as it was, apart from the computed check, and always clears its verdict. */
  lemma DamageIsSeen(t: seq<byte>, u: seq<byte>, off: nat, at: nat, width: nat)
    requires off < |t| && ReadSector(t, off).Some? && ReadSector(t, off).value.crcOk
    requires IsBurst(t, u, at, width) && width <= 2
    requires var s := ReadSector(t, off).value; s.dataOffset <= at && at + width <= s.dataOffset + |s.data|
    ensures var s := ReadSector(t, off).value;
      && s.check.Check?
      && ReadSector(u, off) == Some(Damaged(s, u[s.dataOffset..s.dataOffset + |s.data|]))
  {
    hide ReadSector, DataCrc, StoredCrc, IsBurst;
    GoodHasData(t, off);
    ReadFacts(t, off);
    var s := ReadSector(t, off).value;
    DamageAround(t, u, s.dataOffset, |s.data|, at, width);
    SameHeader(t, u, off);
    ReadFacts(u, off);
    DataCrcDiffers(!s.fm, s.deleted, s.data, u[s.dataOffset..s.dataOffset + |s.data|], at - s.dataOffset, width);
  }

  lemma GoodHasData(t: seq<byte>, off: nat)
    requires off < |t| && ReadSector(t, off).Some? && ReadSector(t, off).value.crcOk
    ensures ReadSector(t, off).value.data != []
  {
    hide StoredCrc, DataCrc, IsMfm, DataSize, FirstMark, IsMark;
  }

  /** Nothing changes outside the damage. */
  lemma BurstElsewhere(t: seq<byte>, u: seq<byte>, at: nat, width: nat, a: nat, b: nat)
    requires IsBurst(t, u, at, width) && a <= b <= |t| && (b <= at || at + width <= a)
    ensures |u| == |t| && u[a..b] == t[a..b]
  {
    if b <= at {
      assert t[a..b] == t[..at][a..b] && u[a..b] == u[..at][a..b];
    } else {
      SameBehind(t, u, at + width, a, b);
    }
  }

  lemma SameBehind(t: seq<byte>, u: seq<byte>, c: nat, a: nat, b: nat)
    requires c <= a <= b <= |t| == |u| && t[c..] == u[c..]
    ensures t[a..b] == u[a..b]
  {
    forall k | a <= k < b ensures t[k] == u[k] {
      assert t[k] == t[c..][k - c] && u[k] == u[c..][k - c];
    }
  }

  lemma BurstInside(t: seq<byte>, u: seq<byte>, at: nat, width: nat, a: nat, b: nat)
    requires IsBurst(t, u, at, width) && a <= at && at + width <= b <= |t|
    ensures IsBurst(t[a..b], u[a..b], at - a, width)
  {
    BurstElsewhere(t, u, at, width, 0, a);
    BurstElsewhere(t, u, at, width, a, at);
    BurstElsewhere(t, u, at, width, at + width, b);
    BurstElsewhere(t, u, at, width, b, |t|);
    assert t[a..b][..at - a] == t[a..at] && u[a..b][..at - a] == u[a..at];
    assert t[a..b][at - a + width..] == t[at + width..b] && u[a..b][at - a + width..] == u[at + width..b];
    assert t == t[0..a] + t[a..b] + t[b..|t|] && u == u[0..a] + u[a..b] + u[b..|t|];
  }

  /** The damage seen from the data field: a burst there, and nothing elsewhere. */
  lemma DamageAround(t: seq<byte>, u: seq<byte>, from: nat, size: nat, at: nat, width: nat)
    requires IsBurst(t, u, at, width) && from <= at && at + width <= from + size && from + size + 2 <= |t|
    ensures |u| == |t| && u[..from] == t[..from]
    ensures StoredCrc(u, from + size) == StoredCrc(t, from + size)
    ensures IsBurst(t[from..from + size], u[from..from + size], at - from, width)
  {
    hide IsBurst, StoredCrc;
    BurstElsewhere(t, u, at, width, 0, from);
    BurstElsewhere(t, u, at, width, from + size, from + size + 2);
    BurstInside(t, u, at, width, from, from + size);
    SameStored(t, u, from + size);
  }

  lemma SameStored(t: seq<byte>, u: seq<byte>, at: nat)
    requires at + 2 <= |t| == |u| && u[at..at + 2] == t[at..at + 2]
    ensures StoredCrc(u, at) == StoredCrc(t, at)
  {
    hide Plus, Spread;
    assert t[at] == t[at..at + 2][0] && t[at + 1] == t[at..at + 2][1];
    assert u[at] == u[at..at + 2][0] && u[at + 1] == u[at..at + 2][1];
  }

  lemma DataCrcDiffers(mfm: bool, deleted: bool, x: seq<byte>, y: seq<byte>, at: nat, width: nat)
    requires IsBurst(x, y, at, width) && width <= 2
    ensures DataCrc(mfm, deleted, x) != DataCrc(mfm, deleted, y)
  {
    hide CrcOf;
    var start := CrcOf([if deleted then DELETED_DAM else DAM], if mfm then MFM_PRESET else 0xFFFF);
    TwoByteDamageChangesCrc(x, y, start, at, width);
  }

  lemma {:induction false} FirstMarkSame(t: seq<byte>, u: seq<byte>, from: nat, end: nat, m: nat)
    requires end <= |t| == |u| && m < end && t[..m + 1] == u[..m + 1]
    requires FirstMark(t, from, end) == m
    ensures FirstMark(u, from, end) == m
    decreases end - from
  {
    hide IsMark;
    if from < end {
      assert from <= m;
      assert t[from] == t[..m + 1][from] == u[..m + 1][from] == u[from];
      if !IsMark(t[from]) {
        FirstMarkSame(t, u, from + 1, end, m);
      }
    }
  }

  /** Everything the analyser reads before the data field decides the rest of its report. */
  lemma SameHeader(t: seq<byte>, u: seq<byte>, off: nat)
    requires off < |t| && ReadSector(t, off).Some? && ReadSector(t, off).value.data != []
    requires |u| == |t| && var d := ReadSector(t, off).value.dataOffset; d <= |t| && u[..d] == t[..d]
    ensures ReadSector(u, off).Some?
    ensures var s, r := ReadSector(t, off).value, ReadSector(u, off).value;
      r == s.(data := r.data, crcOk := r.crcOk, check := r.check) && |r.data| == |s.data|
  {
    hide StoredCrc, DataCrc, DataSize, FirstMark, IsMark, IsMfm, ReadSector;
    var m := ReadSector(t, off).value.dataOffset - 1;
    var end := Min(off + 57, |t| - 1);
    MarkFacts(t, off);
    FirstMarkSame(t, u, off + 7, end, m);
    SamePrefix(t, u, m + 1);
    ReadWhole(t, off, m);
    assert IsMfm(u, off) == IsMfm(t, off) by { SameDensity(t, u, off, m + 1); }
    ReadWhole(u, off, m);
  }

  lemma SameDensity(t: seq<byte>, u: seq<byte>, off: nat, n: nat)
    requires off < n <= |t| == |u| && t[..n] == u[..n]
    ensures IsMfm(u, off) == IsMfm(t, off)
  {
    SamePrefix(t, u, n);
  }

  lemma MarkFacts(t: seq<byte>, off: nat)
    requires off < |t| && ReadSector(t, off).Some? && ReadSector(t, off).value.data != []
    ensures var m, end := ReadSector(t, off).value.dataOffset - 1, Min(off + 57, |t| - 1);
      && off + 7 <= m < end && FirstMark(t, off + 7, end) == m
      && t[off] == IDAM && m + 1 + DataSize(IsMfm(t, off), t[off + 4]) + 2 <= |t|
  {
    hide StoredCrc, DataCrc, DataSize, IsMark;
  }

  lemma SamePrefix(t: seq<byte>, u: seq<byte>, n: nat)
    requires n <= |t| == |u| && t[..n] == u[..n]
    ensures forall k | 0 <= k < n :: t[k] == u[k]
  {
    forall k | 0 <= k < n ensures t[k] == u[k] {
      assert t[k] == t[..n][k] && u[k] == u[..n][k];
    }
  }
}
