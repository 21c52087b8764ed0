/** What the analyser reports, said without its functions: which pointers count, what each of them
    yields from the bytes around it, and how sectors, tracks and the image add up. */
module DmkReport {
  import opened ByteMessages
  import opened Word16
  import opened Crc16
  import opened Ledger
  import opened Dmk

  // ---------- One sector ----------

  /** The pointer leads to an ID field that lies in the track. */
  predicate IsField(t: seq<byte>, off: nat) { off + 6 < |t| && t[off] == 0xFE }

  predicate IsDataMark(b: byte) { b == 0xFB || b == 0xF8 }

  /** The first data mark in the fifty bytes behind the ID field, the track's last byte apart. */
  ghost predicate IsFirstMark(t: seq<byte>, off: nat, m: nat) {
    && off + 7 <= m < off + 57 && m < |t| - 1 && IsDataMark(t[m])
    && forall k | off + 7 <= k < m :: !IsDataMark(t[k])
  }

  ghost predicate NoMark(t: seq<byte>, off: nat) {
    forall k | off + 7 <= k < off + 57 && k < |t| - 1 :: !IsDataMark(t[k])
  }

  /** A sector whose data could not be read. */
  predicate Unread(s: Sector) { s.data == [] && s.check == Unset && !s.crcOk }

  /** A sector whose data and stored check stand behind the mark at `m`. */
  predicate ReadBehind(t: seq<byte>, m: nat, s: Sector) {
    && m + 3 + s.dataSize <= |t|
    && s.data == t[m + 1..m + 1 + s.dataSize]
    && s.check == Check(((t[m + 1 + s.dataSize] as bv16) << 8) | (t[m + 2 + s.dataSize] as bv16),
                        CrcOf([t[m]] + s.data, if s.fm then 0xFFFF else 0xCDB4))
    && s.crcOk == (s.check.stored == s.check.computed)
  }

  function PowerSize(code: byte): nat {
    if code % 4 == 0 then 128 else if code % 4 == 1 then 256 else if code % 4 == 2 then 512 else 1024
  }

  /** 128 to 1024 bytes by the two low bits of the code; in FM a code above 3 counts sixteens. */
  predicate SizeIs(s: Sector) {
    s.dataSize == if s.fm && s.sizeCode > 3 then 16 * (s.sizeCode as int) else PowerSize(s.sizeCode)
  }

  /** The fields that do not depend on a mark. */
  predicate IdIs(t: seq<byte>, off: nat, s: Sector)
    requires IsField(t, off)
  {
    && s.cylinder == t[off + 1] && s.head == t[off + 2] && s.id == t[off + 3] && s.sizeCode == t[off + 4]
    && s.fm == !(3 <= off && t[off - 3] == 0xA1 && t[off - 2] == 0xA1 && t[off - 1] == 0xA1)
    && SizeIs(s)
  }

  /** The report on the ID field at `off`. */
  ghost predicate IsReport(t: seq<byte>, off: nat, s: Sector)
    requires IsField(t, off)
  {
    && IdIs(t, off, s)
    && (NoMark(t, off) ==> Unread(s) && !s.deleted && s.dataOffset == 0)
    && forall m: nat | IsFirstMark(t, off, m) ::
         && s.dataOffset == m + 1 && s.deleted == (t[m] == 0xF8)
         && if m + 3 + s.dataSize <= |t| then ReadBehind(t, m, s) else Unread(s)
  }

  lemma SizeInNumbers(mfm: bool, code: byte)
    ensures DataSize(mfm, code) == if !mfm && code > 3 then 16 * (code as int) else PowerSize(code)
  {
    LowBits(code);
  }

  lemma LowBits(code: byte)
    ensures code & 3 == code % 4
  {
  }

  lemma StoredInBits(t: seq<byte>, at: nat)
    requires at + 2 <= |t|
    ensures StoredCrc(t, at) == ((t[at] as bv16) << 8) | (t[at + 1] as bv16)
  {
  }

  lemma MarkOrNone(t: seq<byte>, off: nat) returns (m: nat)
    requires off + 6 < |t|
    ensures m == FirstMark(t, off + 7, Min(off + 57, |t| - 1))
    ensures m < Min(off + 57, |t| - 1) ==> IsFirstMark(t, off, m)
    ensures m >= Min(off + 57, |t| - 1) ==> NoMark(t, off)
  {
    m := FirstMark(t, off + 7, Min(off + 57, |t| - 1));
    assert forall b: byte :: IsMark(b) == IsDataMark(b);
  }

  lemma OneMark(t: seq<byte>, off: nat, m: nat, k: nat)
    requires IsFirstMark(t, off, m) && IsFirstMark(t, off, k)
    ensures m == k
  {
  }

  lemma MarkExcludes(t: seq<byte>, off: nat, m: nat)
    requires IsFirstMark(t, off, m)
    ensures !NoMark(t, off)
  {
  }

  lemma CheckOfMark(mfm: bool, mark: byte, data: seq<byte>)
    requires IsDataMark(mark)
    ensures DataCrc(mfm, mark == DELETED_DAM, data) == CrcOf([mark] + data, if mfm then 0xCDB4 else 0xFFFF)
  {
    hide CrcOf;
    CrcOfAppend([mark], data, if mfm then MFM_PRESET else 0xFFFF);
  }

  lemma IdIsRead(t: seq<byte>, off: nat)
    requires off < |t|
    ensures ReadSector(t, off).Some? <==> IsField(t, off)
    ensures IsField(t, off) ==> IdIs(t, off, ReadSector(t, off).value)
  {
    hide StoredCrc, DataCrc, DataSize, IsMark, FirstMark;
    if IsField(t, off) { SizeInNumbers(IsMfm(t, off), t[off + 4]); }
  }

  lemma ReportWithoutMark(t: seq<byte>, off: nat, m: nat)
    requires IsField(t, off) && NoMark(t, off)
    requires m == FirstMark(t, off + 7, Min(off + 57, |t| - 1)) >= Min(off + 57, |t| - 1)
    ensures IsReport(t, off, ReadSector(t, off).value)
  {
    hide StoredCrc, DataCrc, DataSize, IsMark, FirstMark, NoMark, IsMfm;
    IdIsRead(t, off);
    forall k: nat | IsFirstMark(t, off, k) ensures false { MarkExcludes(t, off, k); }
  }

  lemma MarkIsRead(t: seq<byte>, off: nat, m: nat)
    requires IsField(t, off)
    requires m == FirstMark(t, off + 7, Min(off + 57, |t| - 1)) < Min(off + 57, |t| - 1) && IsDataMark(t[m])
    ensures var s := ReadSector(t, off).value;
      && s.dataOffset == m + 1 && s.deleted == (t[m] == 0xF8)
      && if m + 3 + s.dataSize <= |t| then ReadBehind(t, m, s) else Unread(s)
  {
    hide StoredCrc, DataCrc, DataSize, IsMark, FirstMark, IsMfm, CrcOf;
    var s := ReadSector(t, off).value;
    if m + 3 + s.dataSize <= |t| {
      StoredInBits(t, m + 1 + s.dataSize);
      CheckOfMark(IsMfm(t, off), t[m], s.data);
    }
  }

  lemma ReportWithMark(t: seq<byte>, off: nat, m: nat)
    requires IsField(t, off) && IsFirstMark(t, off, m)
    requires m == FirstMark(t, off + 7, Min(off + 57, |t| - 1)) < Min(off + 57, |t| - 1)
    ensures IsReport(t, off, ReadSector(t, off).value)
  {
    hide FirstMark, ReadSector, NoMark, ReadBehind, Unread, SizeIs;
    IdIsRead(t, off);
    assert IsDataMark(t[m]);
    MarkIsRead(t, off, m);
    MarkExcludes(t, off, m);
    forall k: nat | IsFirstMark(t, off, k) ensures k == m { OneMark(t, off, m, k); }
    hide IsFirstMark;
  }

  /** A pointer yields a sector exactly when it leads to an ID field, with or without a data mark
      behind it, and the report on it is the one described. */
  lemma EveryFieldIsReported(t: seq<byte>, off: nat)
    requires off < |t|
    ensures ReadSector(t, off).Some? <==> IsField(t, off)
    ensures IsField(t, off) ==> IsReport(t, off, ReadSector(t, off).value)
  {
    hide ReadSector, FirstMark, NoMark, IsReport;
    IdIsRead(t, off);
    if IsField(t, off) {
      var m := MarkOrNone(t, off);
      if m < Min(off + 57, |t| - 1) { ReportWithMark(t, off, m); } else { ReportWithoutMark(t, off, m); }
    }
  }

  lemma SameId(t: seq<byte>, off: nat, x: Sector, y: Sector)
    requires IsField(t, off) && IdIs(t, off, x) && IdIs(t, off, y)
    ensures x.cylinder == y.cylinder && x.head == y.head && x.id == y.id && x.sizeCode == y.sizeCode
    ensures x.fm == y.fm && x.dataSize == y.dataSize
  {
    hide PowerSize;
  }

  lemma SameBehind(t: seq<byte>, m: nat, x: Sector, y: Sector)
    requires ReadBehind(t, m, x) && ReadBehind(t, m, y) && x.fm == y.fm && x.dataSize == y.dataSize
    ensures x.data == y.data && x.check == y.check && x.crcOk == y.crcOk
  {
    hide CrcOf;
  }

  lemma SameUnread(x: Sector, y: Sector)
    requires Unread(x) && Unread(y)
    ensures x.data == y.data && x.check == y.check && x.crcOk == y.crcOk
  {
  }

  /** There is one report only. */
  lemma ReportUnique(t: seq<byte>, off: nat, x: Sector, y: Sector)
    requires IsField(t, off) && IsReport(t, off, x) && IsReport(t, off, y)
    ensures x == y
  {
    hide NoMark, IsFirstMark, IdIs, ReadBehind, Unread, FirstMark, IsField;
    assert off + 6 < |t| by { FieldInside(t, off); }
    SameId(t, off, x, y);
    var m := MarkOrNone(t, off);
    if m < Min(off + 57, |t| - 1) && m + 3 + x.dataSize <= |t| {
      SameBehind(t, m, x, y);
    } else {
      SameUnread(x, y);
    }
  }

  lemma FieldInside(t: seq<byte>, off: nat)
    requires IsField(t, off)
    ensures off + 6 < |t|
  {
  }

  // ---------- One track ----------

  function Entry(t: seq<byte>, i: nat): nat
    requires 2 * i + 2 <= |t|
  {
    t[2 * i] as int + 256 * (t[2 * i + 1] as int)
  }

  function Entries(t: seq<byte>, z: nat): (es: seq<nat>)
    requires 128 <= |t| && z <= 64
    ensures |es| == z
  {
    seq(z, i requires 0 <= i < z => Entry(t, i))
  }

  /** The table ends at its first zero entry, or is full. */
  ghost predicate TableEnds(t: seq<byte>, z: nat)
    requires 128 <= |t|
  {
    z <= 64 && (forall i | 0 <= i < z :: Entry(t, i) != 0) && (z < 64 ==> Entry(t, z) == 0)
  }

  /** The entry's low fourteen bits point behind the table and into the track. */
  function Points(length: nat): nat -> bool { (e: nat) => 128 <= e % 0x4000 < length }

  lemma CountFrom(es: seq<nat>, i: nat, k: nat, p: nat -> bool)
    requires i < k <= |es|
    ensures Count(es[i..k], p) == One(p(es[i])) + Count(es[i + 1..k], p)
  {
    hide Count;
    assert es[i..k] == [es[i]] + es[i + 1..k];
    CountAppend([es[i]], es[i + 1..k], p);
    CountSingle(es[i], p);
  }

  lemma CountNothing(es: seq<nat>, i: nat, p: nat -> bool)
    requires i <= |es|
    ensures Count(es[i..i], p) == 0
  {
    assert es[i..i] == [];
  }

  /** Entry `i` before the end of the table. */
  lemma PointerStep(t: seq<byte>, i: nat, z: nat)
    requires 128 <= |t| && TableEnds(t, z) && i < z
    ensures Entries(t, z)[i] == Entry(t, i)
    ensures IdamOffsets(t, i)
         == if Points(|t|)(Entry(t, i)) then [Entry(t, i) % 0x4000] + IdamOffsets(t, i + 1) else IdamOffsets(t, i + 1)
  {
    hide IdamOffsets;
    assert TableEntry(t, i) == Entry(t, i);
    IdamStep(t, i);
  }

  lemma PointersEnd(t: seq<byte>, z: nat)
    requires 128 <= |t| && TableEnds(t, z)
    ensures IdamOffsets(t, z) == []
  {
    hide IdamOffsets;
    assert z < 64 ==> TableEntry(t, z) == Entry(t, z);
    IdamEnd(t, z);
  }

  lemma {:induction false} PointersFrom(t: seq<byte>, i: nat, z: nat, k: nat)
    requires 128 <= |t| && TableEnds(t, z) && i <= k <= z
    ensures |IdamOffsets(t, i)| == Count(Entries(t, z)[i..z], Points(|t|))
    ensures k < z && Points(|t|)(Entry(t, k)) ==>
      var c := Count(Entries(t, z)[i..k], Points(|t|));
      c < |IdamOffsets(t, i)| && IdamOffsets(t, i)[c] == Entry(t, k) % 0x4000
    decreases z - i
  {
    hide Count, IdamOffsets, Points, Entry, Entries;
    var es, p := Entries(t, z), Points(|t|);
    if i == z {
      PointersEnd(t, z);
      CountNothing(es, z, p);
    } else {
      PointerStep(t, i, z);
      CountFrom(es, i, z, p);
      PointersFrom(t, i + 1, z, if i < k then k else i + 1);
      if i < k { CountFrom(es, i, k, p); } else { CountNothing(es, i, p); }
    }
  }

  /** The usable pointers, in table order: those entries before the end of the table that point
      behind the table and into the track. */
  lemma PointersAre(t: seq<byte>, z: nat)
    requires 128 <= |t| && TableEnds(t, z)
    ensures var offs, es := IdamOffsets(t, 0), Entries(t, z);
      && |offs| == Count(es, Points(|t|))
      && forall k | 0 <= k < z && Points(|t|)(es[k]) ::
           var c := Count(es[..k], Points(|t|)); c < |offs| && offs[c] == es[k] % 0x4000
  {
    hide Count, IdamOffsets;
    var es := Entries(t, z);
    assert es[0..z] == es;
    PointersFrom(t, 0, z, 0);
    forall k | 0 <= k < z && Points(|t|)(es[k])
      ensures var c := Count(es[..k], Points(|t|)); c < |IdamOffsets(t, 0)| && IdamOffsets(t, 0)[c] == es[k] % 0x4000
    {
      PointersFrom(t, 0, z, k);
      assert es[0..k] == es[..k];
    }
  }

  function FieldAt(t: seq<byte>): nat -> bool { (off: nat) => IsField(t, off) }

  lemma {:induction false} SectorsReported(t: seq<byte>, offs: seq<nat>)
    requires Usable(t, offs)
    ensures |ReadSectors(t, offs)| == Count(offs, FieldAt(t))
    ensures forall k | 0 <= k < |offs| && IsField(t, offs[k]) ::
      var c := Count(offs[..k], FieldAt(t));
      c < |ReadSectors(t, offs)| && IsReport(t, offs[k], ReadSectors(t, offs)[c])
    decreases |offs|
  {
    hide ReadSector, IsField, IsReport;
    if offs != [] {
      var n := |offs| - 1;
      SectorsReported(t, offs[..n]);
      EveryFieldIsReported(t, offs[n]);
      forall k | 0 <= k < |offs| && IsField(t, offs[k])
        ensures var c := Count(offs[..k], FieldAt(t));
          c < |ReadSectors(t, offs)| && IsReport(t, offs[k], ReadSectors(t, offs)[c])
      {
        if k < n { assert offs[..n][..k] == offs[..k] && offs[..n][k] == offs[k]; }
      }
    }
  }

  /** Every sector of the list belongs to a field. */
  lemma {:induction false} SectorHasField(t: seq<byte>, offs: seq<nat>, i: nat) returns (k: nat)
    requires Usable(t, offs) && i < |ReadSectors(t, offs)|
    ensures k < |offs| && IsField(t, offs[k]) && Count(offs[..k], FieldAt(t)) == i
    decreases |offs|
  {
    hide ReadSector, IsField;
    var n := |offs| - 1;
    SectorsReported(t, offs[..n]);
    EveryFieldIsReported(t, offs[n]);
    if i < |ReadSectors(t, offs[..n])| {
      k := SectorHasField(t, offs[..n], i);
      assert offs[..n][..k] == offs[..k];
    } else {
      k := n;
    }
  }

  /** A track has one sector for each usable pointer to an ID field, in table order, each with its
      report, and it has errors exactly when one of them is not good. */
  lemma TrackIsReported(t: seq<byte>, cylinder: nat, head: nat)
    requires 128 <= |t|
    ensures var r, offs := ReadTrack(t, cylinder, head), IdamOffsets(t, 0);
      && r.cylinder == cylinder && r.head == head && r.numIdams == |offs|
      && |r.sectors| == Count(offs, FieldAt(t))
      && (forall k | 0 <= k < |offs| && IsField(t, offs[k]) ::
            var c := Count(offs[..k], FieldAt(t)); c < |r.sectors| && IsReport(t, offs[k], r.sectors[c]))
      && (r.hasErrors <==> exists i | 0 <= i < |r.sectors| :: !r.sectors[i].crcOk)
  {
    hide IsReport, IsField, ReadSectors, IdamOffsets;
    SectorsReported(t, IdamOffsets(t, 0));
  }

  // ---------- The image ----------

  function Cylinders(data: seq<byte>): nat
    requires 16 <= |data|
  {
    data[1] as int
  }

  function Sides(data: seq<byte>): nat
    requires 16 <= |data|
  {
    if data[4] & 0x10 != 0 then 1 else 2
  }

  function Length(data: seq<byte>): nat
    requires 16 <= |data|
  {
    data[2] as int + 256 * (data[3] as int)
  }

  /** Why an image is refused, the first reason that applies, or that it is analysed. */
  ghost predicate Verdict(data: seq<byte>, a: Analysis) {
    if |data| < 16 then a == TooSmall
    else if !(1 <= Cylinders(data) <= 160) then a == BadTrackCount
    else if !(128 <= Length(data) <= 16384) then a == BadTrackLength
    else if |data| < 16 + Cylinders(data) * Sides(data) * Length(data) then a == Truncated
    else a.Analysed?
  }

  /** Track `k`: cylinder by cylinder and side by side, one track length after the other. */
  ghost predicate IsTrackOf(data: seq<byte>, k: nat, r: Track)
    requires 16 <= |data| && 128 <= Length(data)
  {
    var at := 16 + k * Length(data);
    && at + Length(data) <= |data|
    && r == ReadTrack(data[at..at + Length(data)], k / Sides(data), k % Sides(data))
  }

  lemma VerdictHolds(data: seq<byte>)
    ensures Verdict(data, Analyse(data))
  {
    hide ReadTracks, TallyTracks, ReadHeader, Cylinders, Sides, Length, Header.Heads;
    if 16 <= |data| {
      HeaderIs(data);
      var h := ReadHeader(data);
      assert h.tracks * h.Heads() * h.trackLength == Cylinders(data) * Sides(data) * Length(data);
    }
  }

  lemma {:induction false} TracksAre(data: seq<byte>, h: Header, n: nat, k: nat)
    requires 16 <= |data| && h == ReadHeader(data) && 128 <= h.trackLength
    requires TrackStart(h.trackLength, n) <= |data| && k < n
    ensures IsTrackOf(data, k, ReadTracks(data, h, n)[k])
    decreases n
  {
    hide ReadTrack, ReadHeader, IsTrackOf, TrackBytes;
    if k < n - 1 { TracksAre(data, h, n - 1, k); } else { LastTrackIs(data, h, k); }
  }

  lemma LastTrackIs(data: seq<byte>, h: Header, k: nat)
    requires 16 <= |data| && h == ReadHeader(data) && 128 <= h.trackLength
    requires TrackStart(h.trackLength, k + 1) <= |data|
    ensures IsTrackOf(data, k, ReadTrack(TrackBytes(data, h, k), h.CylinderOf(k), h.HeadOf(k)))
  {
    hide ReadTrack, ReadHeader, Length, Sides, Cylinders;
    HeaderIs(data);
    TrackStartIs(h.trackLength, k);
    assert TrackStart(h.trackLength, k + 1) == TrackStart(h.trackLength, k) + Length(data);
    hide TrackStart;
  }

  lemma HeaderIs(data: seq<byte>)
    requires 16 <= |data|
    ensures var h := ReadHeader(data);
      h.tracks == Cylinders(data) && h.Heads() == Sides(data) && h.trackLength == Length(data)
    ensures var h := ReadHeader(data);
      && (h.writeProtected <==> data[0] != 0)
      && (h.singleDensity <==> data[4] & 0x40 != 0)
      && (h.native <==> data[12] as int + 256 * (data[13] as int) + 65536 * (data[14] as int)
                        + 16777216 * (data[15] as int) == 0x1234_5678)
  {
    hide Header.Heads;
    NativeValue(data[12], data[13], data[14], data[15]);
    SidesAre(data);
  }

  lemma SidesAre(data: seq<byte>)
    requires 16 <= |data|
    ensures ReadHeader(data).Heads() == Sides(data)
  {
  }

  lemma NativeValue(a: byte, b: byte, c: byte, d: byte)
    ensures a == 0x78 && b == 0x56 && c == 0x34 && d == 0x12 <==>
      a as int + 256 * (b as int) + 65536 * (c as int) + 16777216 * (d as int) == 0x1234_5678
  {
    ByteValue(a, 0x78);
    ByteValue(b, 0x56);
    ByteValue(c, 0x34);
    ByteValue(d, 0x12);
  }

  lemma ByteValue(a: byte, b: byte)
    ensures a as int == b as int <==> a == b
  {
  }

  /** The whole analysis: a verdict on the header, and one track for each side of each cylinder, read
      from its own bytes. */
  lemma ImageIsReported(data: seq<byte>)
    ensures Verdict(data, Analyse(data))
    ensures Analyse(data).Analysed? ==>
      && |Analyse(data).tracks| == Cylinders(data) * Sides(data)
      && forall k | 0 <= k < |Analyse(data).tracks| :: IsTrackOf(data, k, Analyse(data).tracks[k])
  {
    hide ReadTracks, TallyTracks, ReadHeader, ReadTrack, IsTrackOf;
    VerdictHolds(data);
    if Analyse(data).Analysed? {
      var h := ReadHeader(data);
      HeaderIs(data);
      var n := h.tracks * h.Heads();
      TrackStartIs(h.trackLength, n);
      forall k | 0 <= k < n ensures IsTrackOf(data, k, Analyse(data).tracks[k]) { TracksAre(data, h, n, k); }
    }
  }

  // ---------- One exported sector ----------

  /** What is exported under a number: the data of the first sector that carries it when that is
      good, fill bytes when it is bad or no sector carries it. */
  lemma ExportedUnder(ss: seq<Sector>, id: nat, size: nat, fill: byte)
    ensures (forall i | 0 <= i < |ss| :: ss[i].id as int != id) ==> IsFill(SectorOut(ss, id, size, fill), size, fill)
    ensures forall i | 0 <= i < |ss| && ss[i].id as int == id && (forall j | 0 <= j < i :: ss[j].id as int != id) ::
      if ss[i].crcOk then SectorOut(ss, id, size, fill) == ss[i].data
      else IsFill(SectorOut(ss, id, size, fill), size, fill)
  {
    hide Find;
    var found := Find(ss, id);
  }

  predicate IsFill(bytes: seq<byte>, size: nat, fill: byte) {
    |bytes| == size && forall i | 0 <= i < size :: bytes[i] == fill
  }

  // ---------- The statistics ----------

  lemma {:induction false} CountSame<T>(es: seq<T>, p: T -> bool, q: T -> bool)
    requires forall e | e in es :: p(e) == q(e)
    ensures Count(es, p) == Count(es, q)
    decreases |es|
  {
    if es != [] { CountSame(es[..|es| - 1], p, q); }
  }

  predicate NotGood(s: Sector) { !s.crcOk }

  predicate MarkedDeleted(s: Sector) { s.deleted }

  predicate SingleDensity(s: Sector) { s.fm }

  predicate DoubleDensity(s: Sector) { !s.fm }

  /** The statistics of an analysis: how many sectors there are, are not good, are deleted, are FM and
      are not. */
  lemma TallyInNumbers(data: seq<byte>)
    requires Analyse(data).Analysed?
    ensures var ss, t := SectorsOf(Analyse(data).tracks), Analyse(data).tally;
      && t.total == |ss|
      && t.errors == Count(ss, NotGood)
      && t.deleted == Count(ss, MarkedDeleted)
      && t.fm == Count(ss, SingleDensity)
      && t.mfm == Count(ss, DoubleDensity)
  {
    hide ReadTracks, ReadHeader, SectorsOf, TallyTracks, Count;
    var ss := SectorsOf(Analyse(data).tracks);
    TallyCounts(Analyse(data).tracks);
    CountSame(ss, Bad, NotGood);
    CountSame(ss, Deleted, MarkedDeleted);
    CountSame(ss, InFm, SingleDensity);
    CountSame(ss, InMfm, DoubleDensity);
  }
}
