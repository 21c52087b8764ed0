/** The DMK analyser: the IDAM-table sector parser and the raw exporter. */
module Dmk {
  import opened ByteMessages
  import opened Word16
  import opened Crc16
  import opened Flags
  import opened Ledger

  datatype Option<T> = None | Some(value: T)

  const HEADER_SIZE := 16
  const MAX_TRACKS := 160
  const MAX_IDAMS := 64
  const IDAM_TABLE_SIZE := 128
  const MAX_TRACK_LENGTH := 0x4000
  const IDAM: byte := 0xFE
  const DAM: byte := 0xFB
  const DELETED_DAM: byte := 0xF8
  const SYNC: byte := 0xA1

  /** The stored and the computed check of a sector; without its data neither is set. */
  datatype Check = Unset | Check(stored: bv16, computed: bv16)

  datatype Sector = Sector(
    cylinder: byte,
    head: byte,
    id: byte,
    sizeCode: byte,
    dataSize: nat,
    fm: bool,
    deleted: bool,
    crcOk: bool,
    check: Check,
    dataOffset: nat,
    data: seq<byte>
  )

  datatype Track = Track(cylinder: nat, head: nat, numIdams: nat, sectors: seq<Sector>, hasErrors: bool)

  datatype Header = Header(
    writeProtected: bool,
    tracks: nat,
    trackLength: nat,
    singleSided: bool,
    singleDensity: bool,
    native: bool
  ) {
    function Heads(): nat { if singleSided then 1 else 2 }

    function CylinderOf(k: nat): nat { if singleSided then k else k / 2 }

    function HeadOf(k: nat): nat { if singleSided then 0 else k % 2 }
  }

  datatype Analysis =
    | TooSmall
    | BadTrackCount
    | BadTrackLength
    | Truncated
    | Stopped
    | Analysed(header: Header, tracks: seq<Track>, tally: Tally)

  /** The running statistics of an analysis. */
  datatype Tally = Tally(total: nat, errors: nat, deleted: nat, fm: nat, mfm: nat) {
    function Add(s: Sector): Tally {
      Tally(total + 1,
            errors + (if s.crcOk then 0 else 1),
            deleted + (if s.deleted then 1 else 0),
            fm + (if s.fm then 1 else 0),
            mfm + (if s.fm then 0 else 1))
    }
  }

  // ---------- Reading one sector ----------

  predicate IsMfm(t: seq<byte>, off: nat)
    requires off <= |t|
  {
    3 <= off && t[off - 3] == SYNC && t[off - 2] == SYNC && t[off - 1] == SYNC
  }

  /** 128 << k for the two low bits of the size code, or the WD1771's multiple of sixteen. */
  function DataSize(mfm: bool, code: byte): (n: nat)
    ensures 16 <= n <= 4080
  {
    if mfm || code <= 3 then
      var k := code & 3;
      if k == 0 then 128 else if k == 1 then 256 else if k == 2 then 512 else 1024
    else 16 * (code as int)
  }

  predicate IsMark(b: byte) { b == DAM || b == DELETED_DAM }

  /** The first data mark in [s, end), or `end`. */
  function FirstMark(t: seq<byte>, s: nat, end: nat): (m: nat)
    requires end <= |t|
    ensures m < end ==> s <= m && IsMark(t[m]) && forall k | s <= k < m :: !IsMark(t[k])
    ensures m >= end ==> forall k | s <= k < end :: !IsMark(t[k])
    decreases end - s
  {
    if s >= end then end
    else if IsMark(t[s]) then s
    else FirstMark(t, s + 1, end)
  }

  function Min(a: int, b: int): int { if a < b then a else b }

  function StoredCrc(t: seq<byte>, at: nat): bv16
    requires at + 2 <= |t|
  {
    Plus(Spread(t[at]), t[at + 1] as bv16)
  }

  function DataCrc(mfm: bool, deleted: bool, data: seq<byte>): bv16 {
    CrcOf(data, CrcOf([if deleted then DELETED_DAM else DAM], if mfm then MFM_PRESET else 0xFFFF))
  }

  /** What one IDAM pointer yields. */
  function ReadSector(t: seq<byte>, off: nat): Option<Sector>
    requires off < |t|
  {
    if off + 6 >= |t| || t[off] != IDAM then None
    else
      var mfm := IsMfm(t, off);
      var size := DataSize(mfm, t[off + 4]);
      var end := Min(off + 57, |t| - 1);
      var m := FirstMark(t, off + 7, end);
      var blank := Sector(t[off + 1], t[off + 2], t[off + 3], t[off + 4], size, !mfm, false, false, Unset, 0, []);
      if m >= end then Some(blank)
      else
        var deleted := t[m] == DELETED_DAM;
        if m + 1 + size + 2 > |t| then Some(blank.(deleted := deleted, dataOffset := m + 1))
        else
          var data := t[m + 1..m + 1 + size];
          var check := Check(StoredCrc(t, m + 1 + size), DataCrc(mfm, deleted, data));
          Some(blank.(deleted := deleted, dataOffset := m + 1, data := data, check := check,
                      crcOk := check.stored == check.computed))
  }

  /** A sector whose mark is found at `m` and whose data and CRC lie inside the track. */
  lemma ReadWhole(t: seq<byte>, off: nat, m: nat)
    requires off + 6 < |t| && t[off] == IDAM
    requires FirstMark(t, off + 7, Min(off + 57, |t| - 1)) == m < Min(off + 57, |t| - 1)
    requires m + 1 + DataSize(IsMfm(t, off), t[off + 4]) + 2 <= |t|
    ensures var mfm, deleted := IsMfm(t, off), t[m] == DELETED_DAM;
      var size := DataSize(mfm, t[off + 4]);
      var data := t[m + 1..m + 1 + size];
      var check := Check(StoredCrc(t, m + 1 + size), DataCrc(mfm, deleted, data));
      ReadSector(t, off) == Some(Sector(t[off + 1], t[off + 2], t[off + 3], t[off + 4], size, !mfm, deleted,
                                        check.stored == check.computed, check, m + 1, data))
  {
    hide FirstMark, IsMfm, DataSize, StoredCrc, DataCrc;
  }

  // ---------- Reading one track ----------

  function TableEntry(t: seq<byte>, i: nat): (e: nat)
    requires IDAM_TABLE_SIZE <= |t| && i < MAX_IDAMS
    ensures e < 0x1_0000
  {
    t[2 * i] as int + 256 * (t[2 * i + 1] as int)
  }

  /** The usable pointers of the IDAM table from entry `i` on: up to the first zero entry, the
      low fourteen bits of every entry that points behind the table and into the track. */
  function IdamOffsets(t: seq<byte>, i: nat): (offs: seq<nat>)
    requires IDAM_TABLE_SIZE <= |t| && i <= MAX_IDAMS
    ensures forall i | 0 <= i < |offs| :: IDAM_TABLE_SIZE <= offs[i] < |t|
    decreases MAX_IDAMS - i
  {
    if i == MAX_IDAMS || TableEntry(t, i) == 0 then []
    else
      var o := TableEntry(t, i) % 0x4000;
      (if IDAM_TABLE_SIZE <= o < |t| then [o] else []) + IdamOffsets(t, i + 1)
  }

  predicate Usable(t: seq<byte>, offs: seq<nat>) {
    forall i | 0 <= i < |offs| :: offs[i] < |t|
  }

  function ReadSectors(t: seq<byte>, offs: seq<nat>): seq<Sector>
    requires Usable(t, offs)
  {
    if offs == [] then []
    else
      var n := |offs| - 1;
      ReadSectors(t, offs[..n]) + (match ReadSector(t, offs[n]) case None => [] case Some(s) => [s])
  }

  predicate HasErrors(ss: seq<Sector>) {
    exists i | 0 <= i < |ss| :: !ss[i].crcOk
  }

  function ReadTrack(t: seq<byte>, cylinder: nat, head: nat): Track
    requires IDAM_TABLE_SIZE <= |t|
  {
    var offs := IdamOffsets(t, 0);
    var ss := ReadSectors(t, offs);
    Track(cylinder, head, |offs|, ss, HasErrors(ss))
  }

  // ---------- Reading the image ----------

  function ReadHeader(data: seq<byte>): Header
    requires HEADER_SIZE <= |data|
  {
    Header(
      data[0] != 0,
      data[1] as int,
      data[2] as int + 256 * (data[3] as int),
      data[4] & 0x10 != 0,
      data[4] & 0x40 != 0,
      data[12] == 0x78 && data[13] == 0x56 && data[14] == 0x34 && data[15] == 0x12)
  }

  /** Where track `k` begins: the analyser's running offset. */
  function TrackStart(length: nat, k: nat): (p: nat)
    ensures HEADER_SIZE <= p
  {
    if k == 0 then HEADER_SIZE else TrackStart(length, k - 1) + length
  }

  function TrackBytes(data: seq<byte>, h: Header, k: nat): (t: seq<byte>)
    requires TrackStart(h.trackLength, k + 1) <= |data|
    ensures |t| == h.trackLength
  {
    data[TrackStart(h.trackLength, k)..TrackStart(h.trackLength, k + 1)]
  }

  /** Tracks 0..k of the image, cylinder by cylinder and head by head. */
  function ReadTracks(data: seq<byte>, h: Header, k: nat): (ts: seq<Track>)
    requires IDAM_TABLE_SIZE <= h.trackLength && TrackStart(h.trackLength, k) <= |data|
    ensures |ts| == k
  {
    if k == 0 then []
    else
      ReadTracks(data, h, k - 1) + [ReadTrack(TrackBytes(data, h, k - 1), h.CylinderOf(k - 1), h.HeadOf(k - 1))]
  }

  lemma {:induction false} TrackStartIs(length: nat, k: nat)
    ensures TrackStart(length, k) == HEADER_SIZE + k * length
  {
    if k > 0 {
      TrackStartIs(length, k - 1);
      assert k * length == (k - 1) * length + length;
    }
  }

  lemma {:induction false} TrackStartMonotone(length: nat, j: nat, k: nat)
    requires j <= k
    ensures TrackStart(length, j) <= TrackStart(length, k)
    decreases k - j
  {
    if j < k {
      TrackStartMonotone(length, j, k - 1);
    }
  }

  function TallySectors(start: Tally, ss: seq<Sector>): Tally {
    if ss == [] then start else TallySectors(start, ss[..|ss| - 1]).Add(ss[|ss| - 1])
  }

  function TallyTracks(ts: seq<Track>): Tally {
    if ts == [] then Tally(0, 0, 0, 0, 0)
    else TallySectors(TallyTracks(ts[..|ts| - 1]), ts[|ts| - 1].sectors)
  }

  /** All sectors of some tracks, in order. */
  function SectorsOf(ts: seq<Track>): seq<Sector> {
    if ts == [] then [] else SectorsOf(ts[..|ts| - 1]) + ts[|ts| - 1].sectors
  }

  predicate Bad(s: Sector) { !s.crcOk }

  predicate Deleted(s: Sector) { s.deleted }

  predicate InFm(s: Sector) { s.fm }

  predicate InMfm(s: Sector) { !s.fm }

  ghost predicate Counts(t: Tally, ss: seq<Sector>) {
    && t.total == |ss| && t.errors == Count(ss, Bad) && t.deleted == Count(ss, Deleted)
    && t.fm == Count(ss, InFm) && t.mfm == Count(ss, InMfm) && t.fm + t.mfm == t.total
  }

  /** The statistics count the sectors of all tracks. */
  lemma {:induction false} TallyCounts(ts: seq<Track>)
    ensures Counts(TallyTracks(ts), SectorsOf(ts))
  {
    if ts != [] {
      var n := |ts| - 1;
      TallyCounts(ts[..n]);
      TrackCounts(TallyTracks(ts[..n]), SectorsOf(ts[..n]), ts[n].sectors);
    }
  }

  lemma {:induction false} TrackCounts(start: Tally, before: seq<Sector>, ss: seq<Sector>)
    requires Counts(start, before)
    ensures Counts(TallySectors(start, ss), before + ss)
    decreases |ss|
  {
    if ss == [] {
      assert before + ss == before;
    } else {
      var n := |ss| - 1;
      TrackCounts(start, before, ss[..n]);
      assert (before + ss)[..|before| + n] == before + ss[..n];
    }
  }

  function HeaderError(data: seq<byte>): Option<Analysis> {
    if |data| < HEADER_SIZE then Some(TooSmall)
    else
      var h := ReadHeader(data);
      if h.tracks == 0 || h.tracks > MAX_TRACKS then Some(BadTrackCount)
      else if h.trackLength < IDAM_TABLE_SIZE || h.trackLength > MAX_TRACK_LENGTH then Some(BadTrackLength)
      else if |data| < HEADER_SIZE + h.tracks * h.Heads() * h.trackLength then Some(Truncated)
      else None
  }

  /** The analysis of an undisturbed run. */
  function Analyse(data: seq<byte>): Analysis {
    match HeaderError(data)
    case Some(e) => e
    case None =>
      var h := ReadHeader(data);
      TrackStartIs(h.trackLength, h.tracks * h.Heads());
      var ts := ReadTracks(data, h, h.tracks * h.Heads());
      Analysed(h, ts, TallyTracks(ts))
  }

  // ---------- The program's loops ----------

  method ReadIdamTable(t: seq<byte>) returns (offs: seq<nat>)
    requires IDAM_TABLE_SIZE <= |t|
    ensures offs == IdamOffsets(t, 0)
  {
    hide TableEntry, IdamOffsets;
    offs := [];
    var i := 0;
    while i < MAX_IDAMS
      invariant 0 <= i <= MAX_IDAMS
      invariant offs + IdamOffsets(t, i) == IdamOffsets(t, 0)
    {
      var entry := TableEntry(t, i);
      if entry == 0 { break; }
      IdamStep(t, i);
      var o := entry % 0x4000;
      if IDAM_TABLE_SIZE <= o && o < |t| {
        assert offs + ([o] + IdamOffsets(t, i + 1)) == (offs + [o]) + IdamOffsets(t, i + 1);
        offs := offs + [o];
      }
      i := i + 1;
    }
    assert IdamOffsets(t, i) == [] by { IdamEnd(t, i); }
  }

  lemma IdamStep(t: seq<byte>, i: nat)
    requires IDAM_TABLE_SIZE <= |t| && i < MAX_IDAMS && TableEntry(t, i) != 0
    ensures var o := TableEntry(t, i) % 0x4000;
      IdamOffsets(t, i) == if IDAM_TABLE_SIZE <= o < |t| then [o] + IdamOffsets(t, i + 1) else IdamOffsets(t, i + 1)
  {
    hide TableEntry;
    assert [] + IdamOffsets(t, i + 1) == IdamOffsets(t, i + 1);
  }

  lemma IdamEnd(t: seq<byte>, i: nat)
    requires IDAM_TABLE_SIZE <= |t| && (i == MAX_IDAMS || (i < MAX_IDAMS && TableEntry(t, i) == 0))
    ensures IdamOffsets(t, i) == []
  {
    hide TableEntry;
  }

  method FindDataMark(t: seq<byte>, start: nat, end: nat) returns (m: nat)
    requires end <= |t|
    ensures m == FirstMark(t, start, end)
  {
    m := start;
    while m < end
      invariant start <= m
      invariant FirstMark(t, m, end) == FirstMark(t, start, end)
      decreases end - m
    {
      if IsMark(t[m]) { return; }
      m := m + 1;
    }
    m := end;
  }

  method ComputeDataCrc(mfm: bool, deleted: bool, data: seq<byte>) returns (crc: bv16)
    ensures crc == DataCrc(mfm, deleted, data)
  {
    hide CrcOf, WordBits, MessageBits;
    crc := Crc16.Crc16([if deleted then DELETED_DAM else DAM], if mfm then MFM_PRESET else 0xFFFF);
    crc := Crc16.Crc16(data, crc);
  }

  method ReadSectorAt(t: seq<byte>, off: nat) returns (r: Option<Sector>)
    requires off < |t|
    ensures r == ReadSector(t, off)
  {
    hide DataCrc, DataSize, IsMark, StoredCrc;
    if off + 6 >= |t| || t[off] != IDAM { return None; }
    var mfm := IsMfm(t, off);
    var size := DataSize(mfm, t[off + 4]);
    var end := Min(off + 57, |t| - 1);
    var s := Sector(t[off + 1], t[off + 2], t[off + 3], t[off + 4], size, !mfm, false, false, Unset, 0, []);
    var m := FindDataMark(t, off + 7, end);
    if m < end {
      s := s.(dataOffset := m + 1, deleted := t[m] == DELETED_DAM);
      if s.dataOffset + size + 2 <= |t| {
        s := s.(data := t[s.dataOffset..s.dataOffset + size]);
        var crc := ComputeDataCrc(mfm, s.deleted, s.data);
        s := s.(check := Check(StoredCrc(t, s.dataOffset + size), crc));
        s := s.(crcOk := s.check.stored == s.check.computed);
      }
    }
    r := Some(s);
  }

  method AnalyseTrack(t: seq<byte>, cylinder: nat, head: nat, start: Tally, stop: CancelFlag)
    returns (track: Track, tally: Tally)
    requires IDAM_TABLE_SIZE <= |t|
    modifies stop
    ensures old(stop.raised) ==> stop.raised
    ensures stop.raised ==> old(stop.raised) || stop.downUntil == 0
    ensures !stop.raised ==> track == ReadTrack(t, cylinder, head)
    ensures !stop.raised ==> tally == TallySectors(start, track.sectors)
  {
    hide ReadSector, IdamOffsets;
    var offs := ReadIdamTable(t);
    var ss: seq<Sector> := [];
    var bad := false;
    tally := start;
    var i := 0;
    while i < |offs|
      invariant 0 <= i <= |offs|
      invariant old(stop.raised) ==> stop.raised
      invariant stop.raised ==> old(stop.raised) || stop.downUntil == 0
      invariant ss == ReadSectors(t, offs[..i])
      invariant bad == HasErrors(ss)
      invariant tally == TallySectors(start, ss)
    {
      var stopped := stop.Poll(0);
      if stopped { break; }
      var r := ReadSectorAt(t, offs[i]);
      assert offs[..i + 1][..i] == offs[..i];
      if r.Some? {
        var grown := ss + [r.value];
        assert grown[..|ss|] == ss;
        bad := bad || !r.value.crcOk;
        ErrorsGrow(ss, r.value);
        ss := grown;
        tally := tally.Add(r.value);
      } else {
        assert ss + [] == ss;
      }
      i := i + 1;
    }
    assert offs[..|offs|] == offs;
    track := Track(cylinder, head, |offs|, ss, bad);
  }

  lemma ErrorsGrow(ss: seq<Sector>, s: Sector)
    ensures HasErrors(ss + [s]) == (HasErrors(ss) || !s.crcOk)
  {
    var grown := ss + [s];
    if HasErrors(ss) {
      var i :| 0 <= i < |ss| && !ss[i].crcOk;
      assert !grown[i].crcOk;
    }
    if !s.crcOk { assert !grown[|ss|].crcOk; }
  }

  /** The inner loop, over the heads of cylinder `t`. */
  method AnalyseCylinder(data: seq<byte>, h: Header, t: nat, tracks0: seq<Track>, tally0: Tally, offset0: nat,
                         stop: CancelFlag)
    returns (tracks: seq<Track>, tally: Tally, offset: nat)
    requires |data| >= HEADER_SIZE + h.tracks * h.Heads() * h.trackLength && t < h.tracks
    requires !stop.raised ==> Progress(data, h, t * h.Heads(), tracks0, tally0, offset0)
    modifies stop
    ensures stop.raised ==> old(stop.raised) || stop.downUntil == 0
    ensures old(stop.raised) ==> stop.raised
    ensures !stop.raised ==> Progress(data, h, t * h.Heads() + h.Heads(), tracks, tally, offset)
  {
    hide ReadTrack, HeaderError, TrackBytes, TallySectors;
    tracks, tally, offset := tracks0, tally0, offset0;
    var hd := 0;
    while hd < h.Heads()
      invariant 0 <= hd <= h.Heads()
      invariant old(stop.raised) ==> stop.raised
      invariant stop.raised ==> old(stop.raised) || stop.downUntil == 0
      invariant !stop.raised ==> Progress(data, h, t * h.Heads() + hd, tracks, tally, offset)
    {
      var stopped := stop.Poll(0);
      if stopped { break; }
      ghost var k := t * h.Heads() + hd;
      NextTrackFits(data, h, t, hd);
      tracks, tally := AppendTrack(data, h, k, t, hd, offset, tracks, tally, stop);
      offset := offset + h.trackLength;
      hd := hd + 1;
    }
  }

  method AppendTrack(data: seq<byte>, h: Header, ghost k: nat, t: nat, hd: nat, offset: nat,
                     tracks0: seq<Track>, tally0: Tally, stop: CancelFlag)
    returns (tracks: seq<Track>, tally: Tally)
    requires Progress(data, h, k, tracks0, tally0, offset) && TrackStart(h.trackLength, k + 1) <= |data|
    requires t == h.CylinderOf(k) && hd == h.HeadOf(k)
    modifies stop
    ensures stop.raised ==> old(stop.raised) || stop.downUntil == 0
    ensures old(stop.raised) ==> stop.raised
    ensures !stop.raised ==> Progress(data, h, k + 1, tracks, tally, offset + h.trackLength)
  {
    hide ReadTrack, TallySectors;
    var track;
    track, tally := AnalyseTrack(data[offset..offset + h.trackLength], t, hd, tally0, stop);
    tracks := tracks0 + [track];
    assert tracks[..|tracks0|] == tracks0;
  }

  /** The whole analysis, under a stop request that may arrive at any moment. */
  method PerformAnalysis(data: seq<byte>, stop: CancelFlag) returns (r: Analysis)
    modifies stop
    ensures old(stop.raised) ==> stop.raised
    ensures r == if stop.raised && HeaderError(data).None? then Stopped else Analyse(data)
    ensures HeaderError(data).None? && stop.upFrom == 0 ==> stop.raised
    ensures r.Analysed? ==> !stop.raised
    ensures stop.raised ==> old(stop.raised) || stop.downUntil == 0
  {
    hide ReadTrack, ReadHeader;
    var e := HeaderError(data);
    if e.Some? { return e.value; }
    var h := ReadHeader(data);
    var n := h.tracks * h.Heads();
    TrackStartIs(h.trackLength, n);
    var tracks: seq<Track> := [];
    var tally := Tally(0, 0, 0, 0, 0);
    var offset: nat := HEADER_SIZE;
    var t := 0;
    while t < h.tracks
      invariant 0 <= t <= h.tracks
      invariant old(stop.raised) ==> stop.raised
      invariant stop.raised ==> old(stop.raised) || stop.downUntil == 0
      invariant !stop.raised ==> Progress(data, h, t * h.Heads(), tracks, tally, offset)
    {
      var stopped := stop.Poll(0);
      if stopped { break; }
      tracks, tally, offset := AnalyseCylinder(data, h, t, tracks, tally, offset, stop);
      assert !stop.raised ==> (t + 1) * h.Heads() == t * h.Heads() + h.Heads();
      t := t + 1;
    }
    var stopped := stop.Poll(0);
    r := if stopped then Stopped else Analysed(h, tracks, tally);
  }

  /** What the analysis has collected after `k` tracks. */
  ghost predicate Progress(data: seq<byte>, h: Header, k: nat, tracks: seq<Track>, tally: Tally, offset: nat) {
    && IDAM_TABLE_SIZE <= h.trackLength
    && offset == TrackStart(h.trackLength, k) <= |data|
    && tracks == ReadTracks(data, h, k)
    && tally == TallyTracks(tracks)
  }

  lemma NextTrackFits(data: seq<byte>, h: Header, t: nat, hd: nat)
    requires |data| >= HEADER_SIZE + h.tracks * h.Heads() * h.trackLength
    requires t < h.tracks && hd < h.Heads()
    ensures TrackStart(h.trackLength, t * h.Heads() + hd + 1) <= |data|
    ensures h.CylinderOf(t * h.Heads() + hd) == t && h.HeadOf(t * h.Heads() + hd) == hd
  {
    TrackStartIs(h.trackLength, h.tracks * h.Heads());
    TrackStartMonotone(h.trackLength, t * h.Heads() + hd + 1, h.tracks * h.Heads());
  }

  // ---------- The raw exporter ----------

  datatype Export = AnalysisFailed(analysis: Analysis) | NoGeometry | Written(bytes: seq<byte>)

  /** The first sector of a track that carries the number `id`. */
  function Find(ss: seq<Sector>, id: nat): (r: Option<Sector>)
    ensures r.None? ==> forall i | 0 <= i < |ss| :: ss[i].id as int != id
    ensures r.Some? ==> exists i :: 0 <= i < |ss| && ss[i] == r.value && ss[i].id as int == id
                                    && forall j | 0 <= j < i :: ss[j].id as int != id
  {
    if ss == [] then None
    else if ss[0].id as int == id then Some(ss[0])
    else Find(ss[1..], id)
  }

  function SectorOut(ss: seq<Sector>, id: nat, size: nat, fill: byte): seq<byte> {
    var found := Find(ss, id);
    if found.Some? && found.value.crcOk then found.value.data else seq(size, _ => fill)
  }

  /** Sectors 1..n of one track in logical order. */
  function TrackOut(ss: seq<Sector>, n: nat, size: nat, fill: byte): seq<byte> {
    if n == 0 then [] else TrackOut(ss, n - 1, size, fill) + SectorOut(ss, n, size, fill)
  }

  function TracksOut(ts: seq<Track>, n: nat, size: nat, fill: byte): seq<byte> {
    if ts == [] then []
    else TracksOut(ts[..|ts| - 1], n, size, fill) + TrackOut(ts[|ts| - 1].sectors, n, size, fill)
  }

  /** The export of an undisturbed run: the first track fixes sector count and size. */
  function ExportOf(a: Analysis, fill: byte): Export {
    if !a.Analysed? then AnalysisFailed(a)
    else if a.tracks == [] || a.tracks[0].sectors == [] || a.tracks[0].sectors[0].dataSize == 0 then NoGeometry
    else Written(TracksOut(a.tracks, |a.tracks[0].sectors|, a.tracks[0].sectors[0].dataSize, fill))
  }

  method FindSector(ss: seq<Sector>, id: nat) returns (found: Option<Sector>)
    ensures found == Find(ss, id)
  {
    found := None;
    var i := 0;
    while i < |ss|
      invariant 0 <= i <= |ss|
      invariant Find(ss[i..], id) == Find(ss, id)
    {
      assert ss[i..][1..] == ss[i + 1..];
      if ss[i].id as int == id { return Some(ss[i]); }
      i := i + 1;
    }
  }

  // ---------- The output file ----------

  function Concat(parts: seq<seq<byte>>): seq<byte> {
    if parts == [] then [] else Concat(parts[..|parts| - 1]) + parts[|parts| - 1]
  }

  /** What an export writes for one track, write by write. */
  function TrackPieces(ss: seq<Sector>, n: nat, size: nat, fill: byte): (ps: seq<seq<byte>>)
    ensures |ps| == n
  {
    seq(n, s requires 0 <= s < n => SectorOut(ss, s + 1, size, fill))
  }

  function Pieces(ts: seq<Track>, n: nat, size: nat, fill: byte): seq<seq<byte>> {
    if ts == [] then [] else Pieces(ts[..|ts| - 1], n, size, fill) + TrackPieces(ts[|ts| - 1].sectors, n, size, fill)
  }

  /** What the file holds after these writes when write `k` stores at most `takes(k)` bytes. */
  function Stored(ps: seq<seq<byte>>, takes: nat -> nat): seq<byte> {
    if ps == [] then []
    else
      var k := |ps| - 1;
      Stored(ps[..k], takes) + (if |ps[k]| <= takes(k) then ps[k] else ps[k][..takes(k)])
  }

  /** The file of an export that ran to its end; the first track fixes sector count and size. */
  function FileOf(a: Analysis, fill: byte, takes: nat -> nat): seq<byte>
    requires ExportOf(a, fill).Written?
  {
    Stored(PiecesOf(a, fill), takes)
  }

  function PiecesOf(a: Analysis, fill: byte): seq<seq<byte>>
    requires ExportOf(a, fill).Written?
  {
    Pieces(a.tracks, |a.tracks[0].sectors|, a.tracks[0].sectors[0].dataSize, fill)
  }

  lemma {:induction false} TrackPiecesJoin(ss: seq<Sector>, n: nat, size: nat, fill: byte)
    ensures Concat(TrackPieces(ss, n, size, fill)) == TrackOut(ss, n, size, fill)
    decreases n
  {
    hide SectorOut;
    if n > 0 {
      TrackPiecesJoin(ss, n - 1, size, fill);
      assert TrackPieces(ss, n, size, fill)[..n - 1] == TrackPieces(ss, n - 1, size, fill);
    }
  }

  lemma {:induction false} ConcatAppend(a: seq<seq<byte>>, b: seq<seq<byte>>)
    ensures Concat(a + b) == Concat(a) + Concat(b)
    decreases |b|
  {
    if b == [] {
      assert a + b == a;
    } else {
      assert (a + b)[..|a + b| - 1] == a + b[..|b| - 1];
      ConcatAppend(a, b[..|b| - 1]);
    }
  }

  /** Joined, the pieces are the export. */
  lemma {:induction false} PiecesJoin(ts: seq<Track>, n: nat, size: nat, fill: byte)
    ensures Concat(Pieces(ts, n, size, fill)) == TracksOut(ts, n, size, fill)
    decreases |ts|
  {
    hide TrackPieces, TrackOut, Concat;
    if ts == [] {
      NothingJoined();
    } else {
      var k := |ts| - 1;
      PiecesJoin(ts[..k], n, size, fill);
      TrackPiecesJoin(ts[k].sectors, n, size, fill);
      ConcatAppend(Pieces(ts[..k], n, size, fill), TrackPieces(ts[k].sectors, n, size, fill));
    }
  }

  lemma NothingJoined()
    ensures Concat([]) == []
  {
  }

  /** Every write stores all it is given. */
  predicate AllStored(ps: seq<seq<byte>>, takes: nat -> nat) {
    forall k | 0 <= k < |ps| :: |ps[k]| <= takes(k)
  }

  lemma {:induction false} StoredShort(ps: seq<seq<byte>>, takes: nat -> nat)
    ensures if AllStored(ps, takes) then Stored(ps, takes) == Concat(ps) else |Stored(ps, takes)| < |Concat(ps)|
    decreases |ps|
  {
    if ps != [] {
      var k := |ps| - 1;
      StoredShort(ps[..k], takes);
      assert AllStored(ps, takes) <==> AllStored(ps[..k], takes) && |ps[k]| <= takes(k) by { LastStored(ps, takes); }
    }
  }

  lemma LastStored(ps: seq<seq<byte>>, takes: nat -> nat)
    requires ps != []
    ensures AllStored(ps, takes) <==> AllStored(ps[..|ps| - 1], takes) && |ps[|ps| - 1]| <= takes(|ps| - 1)
  {
    var k := |ps| - 1;
    if AllStored(ps[..k], takes) && |ps[k]| <= takes(k) {
      forall i | 0 <= i < |ps| ensures |ps[i]| <= takes(i) {
        if i < k { assert |ps[..k][i]| <= takes(i); }
      }
    }
  }

  /** The file left is the export if and only if every write stored all it was given. */
  lemma FileIsExportIff(a: Analysis, fill: byte, takes: nat -> nat)
    requires ExportOf(a, fill).Written?
    ensures FileOf(a, fill, takes) == ExportOf(a, fill).bytes <==> AllStored(PiecesOf(a, fill), takes)
  {
    hide Pieces, TracksOut, AllStored, Stored, Concat;
    StoredShort(PiecesOf(a, fill), takes);
    PiecesJoin(a.tracks, |a.tracks[0].sectors|, a.tracks[0].sectors[0].dataSize, fill);
  }

  /** An output file.  Write `k` stores at most `takes(k)` bytes; the program does not look. */
  class OutFile {
    const takes: nat -> nat
    var content: seq<byte>
    var writes: nat
    ghost var pieces: seq<seq<byte>>

    constructor (takes: nat -> nat)
      ensures Valid() && this.takes == takes && pieces == []
    {
      this.takes, content, writes, pieces := takes, [], 0, [];
    }

    ghost predicate Valid()
      reads this
    {
      writes == |pieces| && content == Stored(pieces, takes)
    }

    method Write(bytes: seq<byte>)
      requires Valid()
      modifies this
      ensures Valid() && pieces == old(pieces) + [bytes]
    {
      content := content + (if |bytes| <= takes(writes) then bytes else bytes[..takes(writes)]);
      writes := writes + 1;
      ghost var before := pieces;
      pieces := pieces + [bytes];
      assert pieces[..|before|] == before;
    }
  }

  method WriteSector(ss: seq<Sector>, id: nat, size: nat, fill: byte, file: OutFile)
    requires file.Valid()
    modifies file
    ensures file.Valid() && file.pieces == old(file.pieces) + [SectorOut(ss, id, size, fill)]
  {
    hide Find;
    var found := FindSector(ss, id);
    if found.Some? && found.value.crcOk {
      file.Write(found.value.data);
    } else {
      file.Write(seq(size, _ => fill));
    }
  }

  method WriteTrack(ss: seq<Sector>, n: nat, size: nat, fill: byte, file: OutFile)
    requires file.Valid()
    modifies file
    ensures file.Valid() && file.pieces == old(file.pieces) + TrackPieces(ss, n, size, fill)
  {
    hide SectorOut;
    ghost var ps := TrackPieces(ss, n, size, fill);
    var s := 1;
    while s <= n
      invariant 1 <= s <= n + 1
      invariant file.Valid() && file.pieces == old(file.pieces) + ps[..s - 1]
    {
      assert ps[s - 1] == SectorOut(ss, s, size, fill);
      WriteSector(ss, s, size, fill, file);
      assert ps[..s] == ps[..s - 1] + [ps[s - 1]];
      s := s + 1;
    }
    assert ps[..n] == ps;
  }

  /** How an export ends. */
  datatype Ending = Unanalysed(analysis: Analysis) | Unmeasured | Uncreated | Interrupted | Complete

  /** The export; `before` and `left` are the output file before and after.  The stop flag's time is
      the number of tracks written; the analysis takes place at 0.  An export that fails
      before the file is created leaves it alone, a cancelled one removes it if it can, and one that
      ends as complete has made exactly the writes of the analysis, whatever came of them. */
  method PerformExport(data: seq<byte>, fill: byte, canCreate: bool, canRemove: bool, takes: nat -> nat,
                       before: Option<seq<byte>>, stop: CancelFlag)
    returns (r: Ending, left: Option<seq<byte>>)
    modifies stop
    ensures old(stop.Certain()) == 0 && HeaderError(data).None? ==> r == Unanalysed(Stopped)
    ensures var e := ExportOf(Analyse(data), fill);
      match r
      case Unanalysed(a) =>
        && left == before
        && (e == AnalysisFailed(a) || (a == Stopped && HeaderError(data).None? && old(stop.Possible()) == 0))
      case Unmeasured => left == before && e == NoGeometry
      case Uncreated => left == before && !canCreate && e.Written?
      case Interrupted =>
        && canCreate && stop.raised && e.Written?
        && exists i | old(stop.Possible()) <= i <= old(stop.Certain()) ::
             BrokenOff(Analyse(data), i, fill, takes, canRemove, left)
      case Complete =>
        && canCreate && e.Written?
        && |Analyse(data).tracks| <= old(stop.Certain())
        && left == Some(FileOf(Analyse(data), fill, takes))
  {
    hide Analyse, TrackPieces, Stored;
    left := before;
    var a := PerformAnalysis(data, stop);
    if !a.Analysed? { return Unanalysed(a), left; }
    var n, size := 0, 0;
    if a.tracks != [] && a.tracks[0].sectors != [] {
      n := |a.tracks[0].sectors|;
      size := a.tracks[0].sectors[0].dataSize;
    }
    if n == 0 || size == 0 { return Unmeasured, left; }
    if !canCreate { return Uncreated, left; }
    var file := new OutFile(takes);
    var i := 0;
    while i < |a.tracks|
      invariant 0 <= i <= |a.tracks|
      invariant file.Valid() && file.takes == takes && file.pieces == Pieces(a.tracks[..i], n, size, fill)
      invariant !stop.raised && i <= old(stop.Certain())
    {
      var stopped := stop.Poll(i);
      if stopped {
        left := if canRemove then None else Some(file.content);
        assert BrokenOff(Analyse(data), i, fill, takes, canRemove, left);
        return Interrupted, left;
      }
      assert a.tracks[..i + 1][..i] == a.tracks[..i];
      WriteTrack(a.tracks[i].sectors, n, size, fill, file);
      i := i + 1;
    }
    assert a.tracks[..|a.tracks|] == a.tracks;
    r, left := Complete, Some(file.content);
  }

  /** What an export leaves that broke off after `i` tracks. */
  predicate BrokenOff(a: Analysis, i: nat, fill: byte, takes: nat -> nat, removed: bool, left: Option<seq<byte>>)
    requires ExportOf(a, fill).Written?
  {
    && i < |a.tracks|
    && left == if removed then None
               else Some(Stored(Pieces(a.tracks[..i], |a.tracks[0].sectors|, a.tracks[0].sectors[0].dataSize, fill),
                                takes))
  }
}
