/** A DMK image printer, and the proof that the analyser and the raw exporter invert it for any
    geometry, any interleave and any mixture of FM and MFM sectors. */
module DmkRoundTrip {
  import opened ByteMessages
  import opened Word16
  import opened Crc16
  import opened Dmk

  /** How one sector is laid out on its track, apart from its number and its data. */
  datatype Slot = Slot(
    lead: seq<byte>,  // gap and sync bytes up to the ID address mark
    mfm: bool,
    cylinder: byte,
    head: byte,
    sizeCode: byte,
    idCrc: seq<byte>,
    gap: seq<byte>,  // bytes between the ID field and the data mark
    deleted: bool
  )

  datatype Placed = Placed(slot: Slot, id: byte, data: seq<byte>)

  predicate EndsInSync(lead: seq<byte>)
    requires 3 <= |lead|
  {
    lead[|lead| - 3] == SYNC && lead[|lead| - 2] == SYNC && lead[|lead| - 1] == SYNC
  }

  /** Sync bytes exactly for MFM, and a gap short enough for the search that holds no data mark. */
  predicate SlotOk(s: Slot) {
    && 3 <= |s.lead|
    && s.mfm == EndsInSync(s.lead)
    && |s.idCrc| == 2
    && |s.gap| < 50
    && forall k | 0 <= k < |s.gap| :: !IsMark(s.gap[k])
  }

  predicate PlacedOk(p: Placed) {
    SlotOk(p.slot) && |p.data| == DataSize(p.slot.mfm, p.slot.sizeCode)
  }

  function CrcBytes(c: bv16): (bytes: seq<byte>)
    ensures |bytes| == 2
  {
    [Upper(c), (c & 0xFF) as byte]
  }

  function MarkOf(s: Slot): byte { if s.deleted then DELETED_DAM else DAM }

  function IdField(p: Placed): seq<byte> {
    [IDAM, p.slot.cylinder, p.slot.head, p.id, p.slot.sizeCode] + p.slot.idCrc
  }

  function SectorBytes(p: Placed): seq<byte> { p.slot.lead + FromId(p) }

  function FromId(p: Placed): seq<byte> { IdField(p) + FromGap(p) }

  function FromGap(p: Placed): seq<byte> { p.slot.gap + FromMark(p) }

  function FromMark(p: Placed): seq<byte> { [MarkOf(p.slot)] + FromData(p) }

  function FromData(p: Placed): seq<byte> { p.data + CrcBytes(CheckOf(p)) }

  function CheckOf(p: Placed): bv16 { DataCrc(p.slot.mfm, p.slot.deleted, p.data) }

  /** Where a sector's ID mark and its data land when its bytes start at `base`. */
  function MarkAt(p: Placed, base: nat): nat { base + |p.slot.lead| }

  function DataAt(p: Placed, base: nat): nat { base + |p.slot.lead| + 7 + |p.slot.gap| + 1 }

  /** What the analyser must report for a placed sector. */
  function Expected(p: Placed, base: nat): Sector {
    Sector(p.slot.cylinder, p.slot.head, p.id, p.slot.sizeCode, |p.data|, !p.slot.mfm, p.slot.deleted,
           true, Check(CheckOf(p), CheckOf(p)), DataAt(p, base), p.data)
  }

  // ---------- One sector ----------

  lemma StoredIsComputed(t: seq<byte>, at: nat, c: bv16)
    requires Stands(t, at, CrcBytes(c))
    ensures StoredCrc(t, at) == c
  {
    hide Plus, Spread, Upper;
    assert t[at] == t[at..at + 2][0] && t[at + 1] == t[at..at + 2][1];
    assert t[at + 1] as bv16 == c & 0xFF;
    SplitUpper(c);
  }

  /** `bytes` stands in the track at `at`. */
  predicate Stands(t: seq<byte>, at: nat, bytes: seq<byte>) {
    at + |bytes| <= |t| && t[at..at + |bytes|] == bytes
  }

  lemma Peel(t: seq<byte>, at: nat, a: seq<byte>, rest: seq<byte>)
    requires Stands(t, at, a + rest)
    ensures Stands(t, at, a) && Stands(t, at + |a|, rest)
  {
    var u := t[at..at + |a + rest|];
    assert t[at..at + |a|] == u[..|a|] == a;
    assert t[at + |a|..at + |a| + |rest|] == u[|a|..] == rest;
  }

  /** The fields of a placed sector, wherever its bytes stand in a track. */
  lemma FieldsAt(t: seq<byte>, base: nat, p: Placed)
    requires PlacedOk(p) && Stands(t, base, SectorBytes(p))
    ensures var off, dat := MarkAt(p, base), DataAt(p, base);
      && Stands(t, base, p.slot.lead)
      && Stands(t, off, IdField(p))
      && Stands(t, off + 7, p.slot.gap)
      && Stands(t, dat - 1, [MarkOf(p.slot)])
      && Stands(t, dat, p.data)
      && Stands(t, dat + |p.data|, CrcBytes(CheckOf(p)))
  {
    hide Stands, DataCrc, DataSize, CrcBytes;
    var off, dat := MarkAt(p, base), DataAt(p, base);
    Peel(t, base, p.slot.lead, FromId(p));
    Peel(t, off, IdField(p), FromGap(p));
    Peel(t, off + 7, p.slot.gap, FromMark(p));
    Peel(t, dat - 1, [MarkOf(p.slot)], FromData(p));
    Peel(t, dat, p.data, CrcBytes(CheckOf(p)));
  }

  /** The ID field and the sync bytes before it. */
  lemma HeadFields(t: seq<byte>, base: nat, p: Placed)
    requires PlacedOk(p) && Stands(t, base, p.slot.lead) && Stands(t, MarkAt(p, base), IdField(p))
    ensures var off := MarkAt(p, base);
      && IsMfm(t, off) == p.slot.mfm
      && t[off] == IDAM && t[off + 1] == p.slot.cylinder && t[off + 2] == p.slot.head
      && t[off + 3] == p.id && t[off + 4] == p.slot.sizeCode
  {
    hide DataSize, IsMark;
    var off, n := MarkAt(p, base), |p.slot.lead|;
    var u, v := t[base..base + n], t[off..off + 7];
    assert u[n - 3] == t[off - 3] && u[n - 2] == t[off - 2] && u[n - 1] == t[off - 1];
    assert v[0] == t[off] && v[1] == t[off + 1] && v[2] == t[off + 2] && v[3] == t[off + 3] && v[4] == t[off + 4];
  }

  /** The search finds the data mark: nothing in the gap looks like one. */
  lemma MarkFound(t: seq<byte>, from: nat, gap: seq<byte>, mark: byte, end: nat)
    requires Stands(t, from, gap) && Stands(t, from + |gap|, [mark])
    requires IsMark(mark) && forall k | 0 <= k < |gap| :: !IsMark(gap[k])
    requires from + |gap| < end <= |t|
    ensures FirstMark(t, from, end) == from + |gap|
  {
    hide IsMark;
    var m := from + |gap|;
    assert t[m] == t[m..m + 1][0] == mark;
    forall k | from <= k < m ensures !IsMark(t[k]) {
      assert t[k] == t[from..m][k - from] == gap[k - from];
    }
    var f := FirstMark(t, from, end);
    assert f < end && f <= m;
  }

  /** Wherever a placed sector stands in a track, the analyser reports exactly it, CRC good. */
  lemma ReadPlaced(t: seq<byte>, base: nat, p: Placed)
    requires PlacedOk(p) && Stands(t, base, SectorBytes(p))
    ensures MarkAt(p, base) < |t|
    ensures ReadSector(t, MarkAt(p, base)) == Some(Expected(p, base))
  {
    FieldsAt(t, base, p);
    HeadFields(t, base, p);
    ReadFromFields(t, base, p);
  }

  lemma ReadFromFields(t: seq<byte>, base: nat, p: Placed)
    requires PlacedOk(p)
    requires Stands(t, MarkAt(p, base) + 7, p.slot.gap)
    requires Stands(t, DataAt(p, base) - 1, [MarkOf(p.slot)])
    requires Stands(t, DataAt(p, base), p.data)
    requires Stands(t, DataAt(p, base) + |p.data|, CrcBytes(CheckOf(p)))
    requires var off := MarkAt(p, base);
      && IsMfm(t, off) == p.slot.mfm
      && t[off] == IDAM && t[off + 1] == p.slot.cylinder && t[off + 2] == p.slot.head
      && t[off + 3] == p.id && t[off + 4] == p.slot.sizeCode
    ensures ReadSector(t, MarkAt(p, base)) == Some(Expected(p, base))
  {
    hide DataCrc, DataSize, IsMfm, StoredCrc, CrcBytes, IsMark, FirstMark, ReadSector;
    var off, dat := MarkAt(p, base), DataAt(p, base);
    assert IsMark(MarkOf(p.slot)) by { MarksAreMarks(p.slot); }
    MarkFound(t, off + 7, p.slot.gap, MarkOf(p.slot), Min(off + 57, |t| - 1));
    StoredIsComputed(t, dat + |p.data|, CheckOf(p));
    assert t[dat - 1] == t[dat - 1..dat][0];
    MarksAreMarks(p.slot);
    ReadWhole(t, off, dat - 1);
  }

  lemma MarksAreMarks(s: Slot)
    ensures IsMark(MarkOf(s)) && ((MarkOf(s) == DELETED_DAM) == s.deleted)
  {
  }

  // ---------- One track ----------

  predicate AllOk(ps: seq<Placed>) {
    forall i | 0 <= i < |ps| :: PlacedOk(ps[i])
  }

  function Body(ps: seq<Placed>): seq<byte> {
    if ps == [] then [] else Body(ps[..|ps| - 1]) + SectorBytes(ps[|ps| - 1])
  }

  /** Where sector `i` starts. */
  function BaseOf(ps: seq<Placed>, i: nat): nat
    requires i <= |ps|
  {
    IDAM_TABLE_SIZE + |Body(ps[..i])|
  }

  /** Table entry `i`: the position of the ID mark, with the density flag set for FM. */
  function EntryOf(ps: seq<Placed>, i: nat): (e: nat)
    ensures e < 0x1_0000
  {
    if i < |ps| then MarkAt(ps[i], BaseOf(ps, i)) % 0x4000 + (if ps[i].slot.mfm then 0 else 0x8000) else 0
  }

  function IdamTable(ps: seq<Placed>): (t: seq<byte>)
    ensures |t| == IDAM_TABLE_SIZE
  {
    seq(IDAM_TABLE_SIZE, k requires 0 <= k < IDAM_TABLE_SIZE =>
      if k % 2 == 0 then LowByte(EntryOf(ps, k / 2)) else HighByte(EntryOf(ps, k / 2)))
  }

  function LayoutTrack(ps: seq<Placed>, tail: seq<byte>): seq<byte> {
    IdamTable(ps) + Body(ps) + tail
  }

  predicate TrackOk(ps: seq<Placed>, tail: seq<byte>) {
    && |ps| <= MAX_IDAMS
    && AllOk(ps)
    && |LayoutTrack(ps, tail)| <= MAX_TRACK_LENGTH
  }

  function ExpectedAll(ps: seq<Placed>): (ss: seq<Sector>)
    ensures |ss| == |ps|
  {
    seq(|ps|, i requires 0 <= i < |ps| => Expected(ps[i], BaseOf(ps, i)))
  }

  function Marks(ps: seq<Placed>): (offs: seq<nat>)
    ensures |offs| == |ps|
  {
    seq(|ps|, i requires 0 <= i < |ps| => MarkAt(ps[i], BaseOf(ps, i)))
  }

  lemma {:induction false} BodyHolds(ps: seq<Placed>, i: nat)
    requires i < |ps|
    ensures Stands(Body(ps), |Body(ps[..i])|, SectorBytes(ps[i]))
    decreases |ps|
  {
    hide SectorBytes;
    var n := |ps| - 1;
    var front := ps[..n];
    if i < n {
      BodyHolds(front, i);
      assert front[..i] == ps[..i];
      var at, sb := |Body(ps[..i])|, SectorBytes(ps[i]);
      assert Body(ps)[at..at + |sb|] == Body(front)[at..at + |sb|];
    }
  }

  /** Every sector stands in the track where the layout puts it. */
  lemma SectorStands(ps: seq<Placed>, tail: seq<byte>, i: nat)
    requires i < |ps|
    ensures Stands(LayoutTrack(ps, tail), BaseOf(ps, i), SectorBytes(ps[i]))
  {
    hide SectorBytes, Body;
    BodyHolds(ps, i);
    var t, at, sb := LayoutTrack(ps, tail), |Body(ps[..i])|, SectorBytes(ps[i]);
    assert t[IDAM_TABLE_SIZE..][..|Body(ps)|] == Body(ps);
    assert t[IDAM_TABLE_SIZE + at..IDAM_TABLE_SIZE + at + |sb|] == Body(ps)[at..at + |sb|];
  }

  /** The byte with value `n`. */
  function ByteOf(n: nat): (b: byte)
    requires n < 256
    ensures b as int == n
  {
    if n == 0 then 0
    else
      var below := ByteOf(n - 1);
      NextByte(below);
      below + 1
  }

  lemma NextByte(b: byte)
    requires b != 255
    ensures (b + 1) as int == b as int + 1
  {
  }

  function LowByte(e: nat): byte { ByteOf(e % 256) }

  function HighByte(e: nat): byte
    requires e < 0x1_0000
  {
    ByteOf(e / 256)
  }

  lemma WordOfBytes(e: nat)
    requires e < 0x1_0000
    ensures LowByte(e) as int + 256 * (HighByte(e) as int) == e
  {
    hide ByteOf;
  }

  lemma EntryBytes(ps: seq<Placed>, tail: seq<byte>, i: nat)
    requires i < MAX_IDAMS
    ensures TableEntry(LayoutTrack(ps, tail), i) == EntryOf(ps, i)
  {
    hide Body, EntryOf, LowByte, HighByte;
    var t, table, e := LayoutTrack(ps, tail), IdamTable(ps), EntryOf(ps, i);
    assert t[2 * i] == table[2 * i] == LowByte(e);
    assert t[2 * i + 1] == table[2 * i + 1] == HighByte(e);
    WordOfBytes(e);
  }

  lemma EntryPoints(ps: seq<Placed>, tail: seq<byte>, i: nat)
    requires TrackOk(ps, tail) && i < |ps|
    ensures EntryOf(ps, i) % 0x4000 == Marks(ps)[i] < |LayoutTrack(ps, tail)|
    ensures EntryOf(ps, i) != 0
  {
    hide Body, LayoutTrack, SectorBytes;
    SectorStands(ps, tail, i);
    assert |ps[i].slot.lead| < |SectorBytes(ps[i])| by { LeadShorter(ps[i]); }
  }

  lemma LeadShorter(p: Placed)
    ensures |p.slot.lead| < |SectorBytes(p)|
  {
  }

  lemma {:induction false} TableRead(ps: seq<Placed>, tail: seq<byte>, i: nat)
    requires TrackOk(ps, tail) && i <= |ps|
    ensures IdamOffsets(LayoutTrack(ps, tail), i) == Marks(ps)[i..]
    decreases |ps| - i
  {
    hide TableEntry, LayoutTrack, AllOk, Marks;
    if i < MAX_IDAMS {
      EntryBytes(ps, tail, i);
    }
    if i < |ps| {
      EntryPoints(ps, tail, i);
      TableRead(ps, tail, i + 1);
      assert Marks(ps)[i..] == [Marks(ps)[i]] + Marks(ps)[i + 1..];
      MarksBehindTable(ps, i);
    }
  }

  lemma MarksBehindTable(ps: seq<Placed>, i: nat)
    requires i < |ps|
    ensures IDAM_TABLE_SIZE <= Marks(ps)[i]
  {
  }

  lemma {:induction false} SectorsRead(ps: seq<Placed>, t: seq<byte>, k: nat)
    requires k <= |ps| && AllOk(ps)
    requires forall i | 0 <= i < |ps| :: Stands(t, BaseOf(ps, i), SectorBytes(ps[i]))
    ensures Usable(t, Marks(ps)[..k])
    ensures ReadSectors(t, Marks(ps)[..k]) == ExpectedAll(ps)[..k]
    decreases k
  {
    hide ReadSector, Stands, SectorBytes, Expected, PlacedOk, MarkAt, BaseOf;
    if k > 0 {
      SectorsRead(ps, t, k - 1);
      ReadPlaced(t, BaseOf(ps, k - 1), ps[k - 1]);
      var offs := Marks(ps)[..k];
      assert offs[..k - 1] == Marks(ps)[..k - 1];
      assert ExpectedAll(ps)[..k] == ExpectedAll(ps)[..k - 1] + [ExpectedAll(ps)[k - 1]];
    }
  }

  /** The analyser reads a laid-out track back sector by sector, in table order, all good. */
  lemma TrackReadsBack(ps: seq<Placed>, tail: seq<byte>, cylinder: nat, head: nat)
    requires TrackOk(ps, tail)
    ensures ReadTrack(LayoutTrack(ps, tail), cylinder, head)
         == Track(cylinder, head, |ps|, ExpectedAll(ps), false)
  {
    hide LayoutTrack, Stands, ReadSectors, SectorBytes, Expected, BaseOf;
    var t := LayoutTrack(ps, tail);
    TableRead(ps, tail, 0);
    assert Marks(ps)[0..] == Marks(ps) == Marks(ps)[..|ps|];
    forall i | 0 <= i < |ps| ensures Stands(t, BaseOf(ps, i), SectorBytes(ps[i])) {
      SectorStands(ps, tail, i);
    }
    SectorsRead(ps, t, |ps|);
    assert ExpectedAll(ps)[..|ps|] == ExpectedAll(ps);
    var ss := ExpectedAll(ps);
    forall i | 0 <= i < |ss| ensures ss[i].crcOk {
      ExpectedGood(ps[i], BaseOf(ps, i));
      assert ss[i] == Expected(ps[i], BaseOf(ps, i));
    }
  }

  lemma ExpectedGood(p: Placed, base: nat)
    ensures Expected(p, base).crcOk
  {
  }

  // ---------- The disk ----------

  /** The layout of one track: the physical sector at position i carries logical sector order[i]. */
  datatype Plan = Plan(order: seq<nat>, slots: seq<Slot>, tail: seq<byte>)

  /** A disk by content, `contents[k][s]` being sector s + 1 of track k, and how it is laid out. */
  datatype Disk = Disk(
    contents: seq<seq<seq<byte>>>,
    plans: seq<Plan>,
    trackLength: nat,
    cylinders: nat,
    writeProtect: byte,
    flags: byte,
    reserved: seq<byte>
  )

  predicate IsInterleave(order: seq<nat>, n: nat) {
    && |order| == n
    && (forall i | 0 <= i < n :: order[i] < n)
    && forall s | 0 <= s < n :: s in order
  }

  predicate Shaped(content: seq<seq<byte>>, plan: Plan) {
    && |plan.order| == |plan.slots| == |content|
    && forall i | 0 <= i < |content| :: plan.order[i] < |content|
  }

  function Place(content: seq<seq<byte>>, plan: Plan): (ps: seq<Placed>)
    requires Shaped(content, plan)
    ensures |ps| == |content|
  {
    seq(|content|, i requires 0 <= i < |content| =>
      Placed(plan.slots[i], ByteOf((plan.order[i] + 1) % 256), content[plan.order[i]]))
  }

  predicate PlanOk(content: seq<seq<byte>>, plan: Plan, n: nat, size: nat, length: nat) {
    && |content| == |plan.slots| == n
    && IsInterleave(plan.order, n)
    && (forall s | 0 <= s < n :: |content[s]| == size)
    && (forall i | 0 <= i < n :: SlotOk(plan.slots[i]) && DataSize(plan.slots[i].mfm, plan.slots[i].sizeCode) == size)
    && |LayoutTrack(Place(content, plan), plan.tail)| == length
  }

  /** Any geometry the format can hold: n sectors of one size on every track. */
  ghost predicate DiskOk(d: Disk, n: nat, size: nat) {
    && 1 <= n <= MAX_IDAMS
    && 1 <= d.cylinders <= MAX_TRACKS
    && d.trackLength <= MAX_TRACK_LENGTH
    && |d.reserved| == 11
    && |d.contents| == |d.plans| == d.cylinders * HeadsOf(d)
    && forall k | 0 <= k < |d.plans| :: PlanOk(d.contents[k], d.plans[k], n, size, d.trackLength)
  }

  function HeadsOf(d: Disk): nat { if d.flags & 0x10 != 0 then 1 else 2 }

  function HeaderBytes(d: Disk): (h: seq<byte>)
    requires |d.reserved| == 11 && d.cylinders < 256 && d.trackLength < 0x1_0000
    ensures |h| == HEADER_SIZE
  {
    [d.writeProtect, ByteOf(d.cylinders), LowByte(d.trackLength), HighByte(d.trackLength), d.flags] + d.reserved
  }

  lemma HeaderReadsBack(d: Disk, data: seq<byte>)
    requires |d.reserved| == 11 && d.cylinders < 256 && d.trackLength < 0x1_0000
    requires HEADER_SIZE <= |data| && data[..HEADER_SIZE] == HeaderBytes(d)
    ensures var h := ReadHeader(data);
      && h.tracks == d.cylinders && h.trackLength == d.trackLength && h.Heads() == HeadsOf(d)
  {
    hide LowByte, HighByte;
    var hb := data[..HEADER_SIZE];
    assert data[1] == hb[1] && data[2] == hb[2] && data[3] == hb[3] && data[4] == hb[4];
    hide ByteOf;
    WordOfBytes(d.trackLength);
  }

  function TracksImage(d: Disk, k: nat, n: nat, size: nat): (t: seq<byte>)
    requires |d.contents| == |d.plans| && k <= |d.plans|
    requires forall j | 0 <= j < |d.plans| :: PlanOk(d.contents[j], d.plans[j], n, size, d.trackLength)
  {
    if k == 0 then []
    else TracksImage(d, k - 1, n, size) + LayoutTrack(Place(d.contents[k - 1], d.plans[k - 1]), d.plans[k - 1].tail)
  }

  /** The DMK image of a disk. */
  function LayoutImage(d: Disk, n: nat, size: nat): seq<byte>
    requires DiskOk(d, n, size)
  {
    HeaderBytes(d) + TracksImage(d, |d.plans|, n, size)
  }

  // ---------- Reading the disk back ----------

  ghost predicate PlansOk(d: Disk, n: nat, size: nat) {
    && |d.contents| == |d.plans|
    && forall j | 0 <= j < |d.plans| :: PlanOk(d.contents[j], d.plans[j], n, size, d.trackLength)
  }

  function PlacedTrack(d: Disk, j: nat): seq<Placed>
    requires |d.contents| == |d.plans| && j < |d.plans|
    requires Shaped(d.contents[j], d.plans[j])
  {
    Place(d.contents[j], d.plans[j])
  }

  /** Track `j` stands in the image where the header says. */
  lemma {:induction false} TrackStands(d: Disk, h: Header, j: nat, k: nat, n: nat, size: nat)
    requires PlansOk(d, n, size) && j < k <= |d.plans| && h.trackLength == d.trackLength
    ensures HEADER_SIZE + |TracksImage(d, k, n, size)| == TrackStart(h.trackLength, k)
    ensures Stands(TracksImage(d, k, n, size), TrackStart(h.trackLength, j) - HEADER_SIZE,
                   LayoutTrack(PlacedTrack(d, j), d.plans[j].tail))
    decreases k
  {
    hide LayoutTrack, Place, Stands;
    var front := TracksImage(d, k - 1, n, size);
    var last := LayoutTrack(PlacedTrack(d, k - 1), d.plans[k - 1].tail);
    assert |last| == d.trackLength by { TrackLengthIs(d, k - 1, n, size); }
    if k > 1 { TrackStands(d, h, if j < k - 1 then j else 0, k - 1, n, size); }
    if j < k - 1 {
      StandsInFront(front, last, TrackStart(h.trackLength, j) - HEADER_SIZE,
                    LayoutTrack(PlacedTrack(d, j), d.plans[j].tail));
    } else {
      StandsAtEnd(front, last);
    }
  }

  lemma StandsInFront(front: seq<byte>, last: seq<byte>, at: nat, t: seq<byte>)
    requires Stands(front, at, t)
    ensures Stands(front + last, at, t)
  {
    assert (front + last)[at..at + |t|] == front[at..at + |t|];
  }

  lemma StandsAtEnd(front: seq<byte>, last: seq<byte>)
    ensures Stands(front + last, |front|, last)
  {
  }

  lemma TrackLengthIs(d: Disk, j: nat, n: nat, size: nat)
    requires PlansOk(d, n, size) && j < |d.plans|
    ensures |LayoutTrack(PlacedTrack(d, j), d.plans[j].tail)| == d.trackLength
  {
    assert PlanOk(d.contents[j], d.plans[j], n, size, d.trackLength);
  }

  lemma PlacedTrackOk(d: Disk, j: nat, n: nat, size: nat)
    requires PlansOk(d, n, size) && j < |d.plans| && n <= MAX_IDAMS && d.trackLength <= MAX_TRACK_LENGTH
    ensures |PlacedTrack(d, j)| == n
    ensures TrackOk(PlacedTrack(d, j), d.plans[j].tail)
  {
    hide LayoutTrack, SlotOk, DataSize;
    assert PlanOk(d.contents[j], d.plans[j], n, size, d.trackLength);
  }

  /** What the analyser must report for track `j`. */
  function ExpectedTrack(d: Disk, h: Header, j: nat): Track
    requires |d.contents| == |d.plans| && j < |d.plans|
    requires Shaped(d.contents[j], d.plans[j])
  {
    Track(h.CylinderOf(j), h.HeadOf(j), |PlacedTrack(d, j)|, ExpectedAll(PlacedTrack(d, j)), false)
  }

  lemma {:induction false} TracksReadBack(d: Disk, data: seq<byte>, h: Header, k: nat, n: nat, size: nat)
    requires PlansOk(d, n, size) && k <= |d.plans| && n <= MAX_IDAMS
    requires IDAM_TABLE_SIZE <= d.trackLength == h.trackLength <= MAX_TRACK_LENGTH
    requires HEADER_SIZE <= |data| && data[HEADER_SIZE..] == TracksImage(d, |d.plans|, n, size)
    requires TrackStart(h.trackLength, k) <= |data|
    ensures forall j | 0 <= j < k :: ReadTracks(data, h, k)[j] == ExpectedTrack(d, h, j)
    decreases k
  {
    hide LayoutTrack, Place, TracksImage, ExpectedTrack, ReadTrack;
    if k > 0 {
      TracksReadBack(d, data, h, k - 1, n, size);
      OneTrackReadsBack(d, data, h, k - 1, n, size);
    }
  }

  lemma TrackCut(data: seq<byte>, h: Header, j: nat, t: seq<byte>)
    requires TrackStart(h.trackLength, j + 1) <= |data| && |t| == h.trackLength
    requires Stands(data[HEADER_SIZE..], TrackStart(h.trackLength, j) - HEADER_SIZE, t)
    ensures TrackBytes(data, h, j) == t
  {
    var at := TrackStart(h.trackLength, j);
    assert data[HEADER_SIZE..][at - HEADER_SIZE..at - HEADER_SIZE + |t|] == data[at..at + |t|];
  }

  lemma OneTrackReadsBack(d: Disk, data: seq<byte>, h: Header, j: nat, n: nat, size: nat)
    requires PlansOk(d, n, size) && j < |d.plans| && n <= MAX_IDAMS
    requires IDAM_TABLE_SIZE <= d.trackLength == h.trackLength <= MAX_TRACK_LENGTH
    requires HEADER_SIZE <= |data| && data[HEADER_SIZE..] == TracksImage(d, |d.plans|, n, size)
    requires TrackStart(h.trackLength, j + 1) <= |data|
    ensures ReadTrack(TrackBytes(data, h, j), h.CylinderOf(j), h.HeadOf(j)) == ExpectedTrack(d, h, j)
  {
    hide LayoutTrack, Place, TracksImage, ReadTrack, TrackOk, Stands, TrackStart, TrackBytes;
    var t := LayoutTrack(PlacedTrack(d, j), d.plans[j].tail);
    TrackStands(d, h, j, |d.plans|, n, size);
    TrackLengthIs(d, j, n, size);
    PlacedTrackOk(d, j, n, size);
    TrackCut(data, h, j, t);
    TrackReadsBack(PlacedTrack(d, j), d.plans[j].tail, h.CylinderOf(j), h.HeadOf(j));
  }

  // ---------- The export ----------

  /** The raw contents: cylinder by cylinder, head by head, sector by sector. */
  function RawOf(contents: seq<seq<seq<byte>>>): seq<byte> {
    if contents == [] then [] else RawOf(contents[..|contents| - 1]) + Concat(contents[|contents| - 1])
  }

  lemma IdValue(s: nat)
    requires s < MAX_IDAMS
    ensures ByteOf((s + 1) % 256) as int == s + 1
  {
    hide ByteOf;
  }

  /** The sector found under number s + 1 carries logical sector s, whatever the interleave. */
  lemma SectorFound(content: seq<seq<byte>>, plan: Plan, n: nat, size: nat, length: nat, s: nat, fill: byte)
    requires PlanOk(content, plan, n, size, length) && s < n <= MAX_IDAMS
    ensures SectorOut(ExpectedAll(Place(content, plan)), s + 1, size, fill) == content[s]
  {
    hide ExpectedAll, Place, SlotOk, DataSize, Find, LayoutTrack;
    var ss := ExpectedAll(Place(content, plan));
    assert s in plan.order;
    var at :| 0 <= at < n && plan.order[at] == s;
    ExpectedFields(content, plan, n, size, length, at);
    var i := FindGives(ss, s + 1, at);
    ExpectedFields(content, plan, n, size, length, i);
  }

  lemma ExpectedFields(content: seq<seq<byte>>, plan: Plan, n: nat, size: nat, length: nat, i: nat)
    requires PlanOk(content, plan, n, size, length) && i < n <= MAX_IDAMS
    ensures var e := ExpectedAll(Place(content, plan))[i];
      e.id as int == plan.order[i] + 1 && e.crcOk && e.data == content[plan.order[i]]
  {
    hide LayoutTrack, SlotOk, DataSize, BaseOf;
    IdValue(plan.order[i]);
  }

  lemma FindGives(ss: seq<Sector>, id: nat, at: nat) returns (i: nat)
    requires at < |ss| && ss[at].id as int == id
    ensures i < |ss| && Find(ss, id) == Some(ss[i]) && ss[i].id as int == id
  {
    var found := Find(ss, id);
    i :| 0 <= i < |ss| && ss[i] == found.value && ss[i].id as int == id;
  }

  /** A track whose sectors come out as `content` says is written as the content. */
  lemma {:induction false} TrackComesOut(ss: seq<Sector>, content: seq<seq<byte>>, m: nat, size: nat, fill: byte)
    requires m <= |content| && forall s | 0 <= s < m :: SectorOut(ss, s + 1, size, fill) == content[s]
    ensures TrackOut(ss, m, size, fill) == Concat(content[..m])
    decreases m
  {
    hide SectorOut;
    if m > 0 {
      TrackComesOut(ss, content, m - 1, size, fill);
      assert content[..m][..m - 1] == content[..m - 1];
      assert SectorOut(ss, m - 1 + 1, size, fill) == content[m - 1];
    }
  }

  lemma {:induction false} TracksComeOut(ts: seq<Track>, contents: seq<seq<seq<byte>>>, n: nat, size: nat, fill: byte)
    requires |ts| <= |contents|
    requires forall k | 0 <= k < |ts| :: TrackOut(ts[k].sectors, n, size, fill) == Concat(contents[k])
    ensures TracksOut(ts, n, size, fill) == RawOf(contents[..|ts|])
    decreases |ts|
  {
    hide TrackOut, Concat;
    if ts != [] {
      var k := |ts| - 1;
      TracksComeOut(ts[..k], contents, n, size, fill);
      assert contents[..|ts|][..k] == contents[..k];
    }
  }

  lemma TrackWritten(content: seq<seq<byte>>, plan: Plan, n: nat, size: nat, length: nat, fill: byte)
    requires PlanOk(content, plan, n, size, length) && n <= MAX_IDAMS
    ensures TrackOut(ExpectedAll(Place(content, plan)), n, size, fill) == Concat(content)
  {
    hide SlotOk, DataSize, LayoutTrack, SectorOut, TrackOut, ExpectedAll, Place;
    var ss := ExpectedAll(Place(content, plan));
    forall s | 0 <= s < n ensures SectorOut(ss, s + 1, size, fill) == content[s] {
      SectorFound(content, plan, n, size, length, s, fill);
    }
    TrackComesOut(ss, content, n, size, fill);
    assert content[..n] == content;
  }

  lemma {:induction false} SectorsTallied(start: Tally, ss: seq<Sector>)
    requires forall i | 0 <= i < |ss| :: ss[i].crcOk
    ensures TallySectors(start, ss).total == start.total + |ss| && TallySectors(start, ss).errors == start.errors
  {
    if ss != [] {
      SectorsTallied(start, ss[..|ss| - 1]);
    }
  }

  lemma {:induction false} TracksTallied(ts: seq<Track>, n: nat)
    requires forall j | 0 <= j < |ts| :: |ts[j].sectors| == n && !HasErrors(ts[j].sectors)
    ensures TallyTracks(ts).total == |ts| * n && TallyTracks(ts).errors == 0
    decreases |ts|
  {
    if ts != [] {
      var k := |ts| - 1;
      TracksTallied(ts[..k], n);
      forall i | 0 <= i < |ts[k].sectors| ensures ts[k].sectors[i].crcOk {
        assert !HasErrors(ts[k].sectors);
      }
      SectorsTallied(TallyTracks(ts[..k]), ts[k].sectors);
      assert |ts| * n == k * n + n;
    }
  }

  lemma ImageHeader(d: Disk, n: nat, size: nat)
    requires DiskOk(d, n, size)
    ensures HEADER_SIZE <= |LayoutImage(d, n, size)|
    ensures var data, h := LayoutImage(d, n, size), ReadHeader(LayoutImage(d, n, size));
      && h.tracks == d.cylinders && h.trackLength == d.trackLength && h.Heads() == HeadsOf(d)
      && data[HEADER_SIZE..] == TracksImage(d, |d.plans|, n, size)
      && TrackStart(h.trackLength, |d.plans|) == |data|
      && HeaderError(data).None?
  {
    hide TracksImage, HeaderBytes, LayoutTrack;
    var data := LayoutImage(d, n, size);
    assert data[..HEADER_SIZE] == HeaderBytes(d);
    HeaderReadsBack(d, data);
    var h := ReadHeader(data);
    TrackStands(d, h, 0, |d.plans|, n, size);
    TrackStartIs(h.trackLength, |d.plans|);
    TrackLengthIs(d, 0, n, size);
    TrackAtLeastTable(d, 0);
  }

  lemma TrackAtLeastTable(d: Disk, j: nat)
    requires |d.contents| == |d.plans| && j < |d.plans| && Shaped(d.contents[j], d.plans[j])
    ensures IDAM_TABLE_SIZE <= |LayoutTrack(PlacedTrack(d, j), d.plans[j].tail)|
  {
  }

  /** The analysis of a laid-out disk: every sector is found, and found good. */
  lemma AnalysisFindsAll(d: Disk, n: nat, size: nat)
    requires DiskOk(d, n, size)
    ensures var a := Analyse(LayoutImage(d, n, size));
      && a.Analysed?
      && |a.tracks| == |d.plans|
      && (forall j | 0 <= j < |d.plans| :: a.tracks[j] == ExpectedTrack(d, a.header, j))
      && a.tally.total == |d.plans| * n
      && a.tally.errors == 0
  {
    hide LayoutImage, TracksImage, ReadHeader, HeaderError, TallyTracks, ExpectedAll, Place, LayoutTrack;
    var data := LayoutImage(d, n, size);
    ImageHeader(d, n, size);
    var h := ReadHeader(data);
    TrackLengthIs(d, 0, n, size);
    TrackAtLeastTable(d, 0);
    TracksReadBack(d, data, h, |d.plans|, n, size);
    var ts := ReadTracks(data, h, |d.plans|);
    forall j | 0 <= j < |ts| ensures |ts[j].sectors| == n && !HasErrors(ts[j].sectors) {
      PlacedTrackOk(d, j, n, size);
      ExpectedAllGood(PlacedTrack(d, j));
    }
    TracksTallied(ts, n);
  }

  lemma ExpectedAllGood(ps: seq<Placed>)
    ensures !HasErrors(ExpectedAll(ps))
  {
    hide Expected, BaseOf;
    var ss := ExpectedAll(ps);
    forall i | 0 <= i < |ss| ensures ss[i].crcOk {
      ExpectedGood(ps[i], BaseOf(ps, i));
      assert ss[i] == Expected(ps[i], BaseOf(ps, i));
    }
  }

  /** The round trip: exporting the DMK image of a disk gives back its raw contents. */
  lemma ExportInvertsLayout(d: Disk, n: nat, size: nat, fill: byte)
    requires DiskOk(d, n, size)
    ensures ExportOf(Analyse(LayoutImage(d, n, size)), fill) == Written(RawOf(d.contents))
  {
    hide LayoutImage, Analyse, TracksOut, TrackOut, Concat, RawOf, ExpectedAll, Place, LayoutTrack;
    AnalysisFindsAll(d, n, size);
    var a := Analyse(LayoutImage(d, n, size));
    forall k | 0 <= k < |a.tracks| ensures TrackOut(a.tracks[k].sectors, n, size, fill) == Concat(d.contents[k]) {
      TrackWritten(d.contents[k], d.plans[k], n, size, d.trackLength, fill);
    }
    TracksComeOut(a.tracks, d.contents, n, size, fill);
    assert d.contents[..|a.tracks|] == d.contents;
    PlacedTrackOk(d, 0, n, size);
    FirstSector(d, a.header, n, size);
    assert a.tracks[0] == ExpectedTrack(d, a.header, 0);
  }

  lemma FirstSector(d: Disk, h: Header, n: nat, size: nat)
    requires PlansOk(d, n, size) && 1 <= n && 1 <= |d.plans|
    ensures |ExpectedTrack(d, h, 0).sectors| == n && ExpectedTrack(d, h, 0).sectors[0].dataSize == size > 0
  {
    hide LayoutTrack, BaseOf;
    assert PlanOk(d.contents[0], d.plans[0], n, size, d.trackLength);
  }

  lemma {:induction false} PiecesSized(ts: seq<Track>, n: nat, size: nat, fill: byte)
    requires forall j | 0 <= j < |ts| :: Sized(ts[j].sectors, n, size, fill)
    ensures Sizes(Pieces(ts, n, size, fill), |ts| * n, size)
    decreases |ts|
  {
    hide SectorOut;
    if ts != [] {
      var k := |ts| - 1;
      PiecesSized(ts[..k], n, size, fill);
      assert |ts| * n == k * n + n;
    }
  }

  predicate Sized(ss: seq<Sector>, n: nat, size: nat, fill: byte) {
    forall s | 1 <= s <= n :: |SectorOut(ss, s, size, fill)| == size
  }

  predicate Sizes(ps: seq<seq<byte>>, count: nat, size: nat) {
    |ps| == count && forall k | 0 <= k < count :: |ps[k]| == size
  }

  lemma TrackSized(d: Disk, h: Header, j: nat, n: nat, size: nat, fill: byte)
    requires DiskOk(d, n, size) && j < |d.plans|
    ensures Sized(ExpectedTrack(d, h, j).sectors, n, size, fill)
  {
    hide LayoutTrack, SlotOk, DataSize, SectorOut, ExpectedAll, Place;
    var content, plan := d.contents[j], d.plans[j];
    assert PlanOk(content, plan, n, size, d.trackLength);
    forall s | 1 <= s <= n ensures |SectorOut(ExpectedAll(PlacedTrack(d, j)), s, size, fill)| == size {
      SectorFound(content, plan, n, size, d.trackLength, s - 1, fill);
    }
  }

  /** The file an undisturbed export of the disk's image leaves is the disk's raw contents if and
      only if each of its writes stored a whole sector. */
  lemma FileInvertsLayout(d: Disk, n: nat, size: nat, fill: byte, takes: nat -> nat)
    requires DiskOk(d, n, size)
    ensures var a := Analyse(LayoutImage(d, n, size));
      && ExportOf(a, fill).Written?
      && (FileOf(a, fill, takes) == RawOf(d.contents) <==> forall k | 0 <= k < |d.plans| * n :: size <= takes(k))
  {
    hide LayoutImage, Analyse, ExpectedTrack, Sized, Pieces, Stored, RawOf, TracksOut;
    var a := Analyse(LayoutImage(d, n, size));
    ExportInvertsLayout(d, n, size, fill);
    FileIsExportIff(a, fill, takes);
    AnalysisFindsAll(d, n, size);
    FirstSector(d, a.header, n, size);
    forall j | 0 <= j < |a.tracks| ensures Sized(a.tracks[j].sectors, n, size, fill) {
      TrackSized(d, a.header, j, n, size, fill);
    }
    PiecesSized(a.tracks, n, size, fill);
  }
}
