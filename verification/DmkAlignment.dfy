/** When the exported sectors stand where a raw image has them. */
module DmkAlignment {
  import opened ByteMessages
  import opened Dmk
  import opened DmkRoundTrip
  import opened DmkIntegrity
  import opened DmkDamage

  /** How many bytes the export holds before sector `s + 1` of track `k`. */
  function OutBefore(ts: seq<Track>, n: nat, size: nat, fill: byte, k: nat, s: nat): nat
    requires k < |ts| && s <= n
  {
    |TracksOut(ts[..k], n, size, fill)| + |TrackOut(ts[k].sectors, s, size, fill)|
  }

  /** The export holds sector `s + 1` of track `k` there. */
  lemma {:induction false} OutStands(ts: seq<Track>, n: nat, size: nat, fill: byte, k: nat, s: nat)
    requires k < |ts| && s < n
    ensures Stands(TracksOut(ts, n, size, fill), OutBefore(ts, n, size, fill, k, s),
                   SectorOut(ts[k].sectors, s + 1, size, fill))
    decreases |ts|
  {
    hide SectorOut, TrackOut, Stands;
    var m := |ts| - 1;
    var piece := SectorOut(ts[k].sectors, s + 1, size, fill);
    if k < m {
      OutStands(ts[..m], n, size, fill, k, s);
      assert ts[..m][..k] == ts[..k];
      StandsInFront(TracksOut(ts[..m], n, size, fill), TrackOut(ts[m].sectors, n, size, fill),
                    OutBefore(ts, n, size, fill, k, s), piece);
    } else {
      TrackOutStands(ts[m].sectors, n, size, fill, s);
      StandsBehind(TracksOut(ts[..m], n, size, fill), TrackOut(ts[m].sectors, n, size, fill),
                   |TrackOut(ts[m].sectors, s, size, fill)|, piece);
    }
  }

  lemma StandsBehind(front: seq<byte>, last: seq<byte>, at: nat, t: seq<byte>)
    requires Stands(last, at, t)
    ensures Stands(front + last, |front| + at, t)
  {
    assert (front + last)[|front| + at..|front| + at + |t|] == last[at..at + |t|];
  }

  lemma {:induction false} TrackOutStands(ss: seq<Sector>, n: nat, size: nat, fill: byte, s: nat)
    requires s < n
    ensures Stands(TrackOut(ss, n, size, fill), |TrackOut(ss, s, size, fill)|, SectorOut(ss, s + 1, size, fill))
    decreases n
  {
    hide SectorOut, Stands;
    var front, last := TrackOut(ss, n - 1, size, fill), SectorOut(ss, n, size, fill);
    if s < n - 1 {
      TrackOutStands(ss, n - 1, size, fill, s);
      StandsInFront(front, last, |TrackOut(ss, s, size, fill)|, SectorOut(ss, s + 1, size, fill));
    } else {
      StandsAtEnd(front, last);
    }
  }

  /** Every sector the exporter copies is as long as the first sector says. */
  ghost predicate CopiesFit(ts: seq<Track>, n: nat, size: nat) {
    forall k, s | 0 <= k < |ts| && 1 <= s <= n :: CopyFits(ts[k].sectors, s, size)
  }

  predicate CopyFits(ss: seq<Sector>, id: nat, size: nat) {
    var found := Find(ss, id);
    found.Some? && found.value.crcOk ==> |found.value.data| == size
  }

  /** The number of bytes a raw image has before sector `s + 1` of track `k`. */
  function RawBefore(n: nat, size: nat, k: nat, s: nat): nat {
    if s > 0 then RawBefore(n, size, k, s - 1) + size
    else if k > 0 then RawBefore(n, size, k - 1, n)
    else 0
  }

  lemma {:induction false} RawBeforeIs(n: nat, size: nat, k: nat, s: nat)
    ensures RawBefore(n, size, k, s) == (k * n + s) * size
    decreases k, s
  {
    if s > 0 {
      RawBeforeIs(n, size, k, s - 1);
      assert (k * n + s) * size == (k * n + s - 1) * size + size;
    } else if k > 0 {
      RawBeforeIs(n, size, k - 1, n);
      assert k * n == (k - 1) * n + n;
    }
  }

  /** Every sector of the export, and its end, stands where a raw image has it. */
  ghost predicate InPlace(ts: seq<Track>, n: nat, size: nat, fill: byte) {
    forall k, s | 0 <= k < |ts| && 0 <= s <= n :: OutBefore(ts, n, size, fill, k, s) == RawBefore(n, size, k, s)
  }

  lemma NextTrackOut(ts: seq<Track>, n: nat, size: nat, fill: byte, k: nat)
    requires k + 1 < |ts|
    ensures OutBefore(ts, n, size, fill, k + 1, 0) == OutBefore(ts, n, size, fill, k, n)
  {
    hide TrackOut;
    assert ts[..k + 1][..k] == ts[..k];
    assert |TrackOut(ts[k + 1].sectors, 0, size, fill)| == 0 by { NoSectorsOut(ts[k + 1].sectors, size, fill); }
  }

  lemma NoSectorsOut(ss: seq<Sector>, size: nat, fill: byte)
    ensures TrackOut(ss, 0, size, fill) == []
  {
  }

  lemma FirstOut(ts: seq<Track>, n: nat, size: nat, fill: byte)
    requires ts != []
    ensures OutBefore(ts, n, size, fill, 0, 0) == 0
  {
  }

  lemma OneSectorOn(ts: seq<Track>, n: nat, size: nat, fill: byte, k: nat, s: nat)
    requires k < |ts| && s < n
    ensures OutBefore(ts, n, size, fill, k, s + 1) == OutBefore(ts, n, size, fill, k, s)
      + |SectorOut(ts[k].sectors, s + 1, size, fill)|
    ensures |SectorOut(ts[k].sectors, s + 1, size, fill)| == size <==> CopyFits(ts[k].sectors, s + 1, size)
  {
    hide Find;
  }

  lemma {:induction false} FitsInPlace(ts: seq<Track>, n: nat, size: nat, fill: byte, k: nat, s: nat)
    requires CopiesFit(ts, n, size) && k < |ts| && s <= n
    ensures OutBefore(ts, n, size, fill, k, s) == RawBefore(n, size, k, s)
    decreases k, s
  {
    hide OutBefore, SectorOut, CopyFits;
    if s > 0 {
      FitsInPlace(ts, n, size, fill, k, s - 1);
      OneSectorOn(ts, n, size, fill, k, s - 1);
    } else if k > 0 {
      FitsInPlace(ts, n, size, fill, k - 1, n);
      NextTrackOut(ts, n, size, fill, k - 1);
    } else {
      FirstOut(ts, n, size, fill);
    }
  }

  /** Every sector stands in place exactly when no copied sector is longer or shorter than `size`. */
  lemma InPlaceIff(ts: seq<Track>, n: nat, size: nat, fill: byte)
    ensures InPlace(ts, n, size, fill) <==> CopiesFit(ts, n, size)
  {
    hide OutBefore, SectorOut, CopyFits;
    if CopiesFit(ts, n, size) {
      forall k, s | 0 <= k < |ts| && 0 <= s <= n
        ensures OutBefore(ts, n, size, fill, k, s) == RawBefore(n, size, k, s)
      {
        FitsInPlace(ts, n, size, fill, k, s);
      }
    }
    if InPlace(ts, n, size, fill) {
      forall k, s | 0 <= k < |ts| && 1 <= s <= n ensures CopyFits(ts[k].sectors, s, size) {
        OneSectorOn(ts, n, size, fill, k, s - 1);
        assert OutBefore(ts, n, size, fill, k, s) == RawBefore(n, size, k, s);
        assert OutBefore(ts, n, size, fill, k, s - 1) == RawBefore(n, size, k, s - 1);
      }
    }
  }

  // ---------- On an analysis ----------

  predicate GoodIsWhole(s: Sector) { s.crcOk ==> |s.data| == s.dataSize }

  predicate AllWhole(ss: seq<Sector>) { forall i | 0 <= i < |ss| :: GoodIsWhole(ss[i]) }

  lemma SectorWhole(t: seq<byte>, off: nat)
    requires off < |t| && ReadSector(t, off).Some?
    ensures GoodIsWhole(ReadSector(t, off).value)
  {
    hide ReadSector;
    if ReadSector(t, off).value.crcOk {
      GoodHasData(t, off);
      ReadFacts(t, off);
    }
  }

  lemma {:induction false} SectorsWhole(t: seq<byte>, offs: seq<nat>)
    requires Usable(t, offs)
    ensures AllWhole(ReadSectors(t, offs))
    decreases |offs|
  {
    hide ReadSector, GoodIsWhole;
    if offs != [] {
      var n := |offs| - 1;
      SectorsWhole(t, offs[..n]);
      if ReadSector(t, offs[n]).Some? { SectorWhole(t, offs[n]); }
    }
  }

  lemma {:induction false} TracksWhole(data: seq<byte>, h: Header, k: nat)
    requires IDAM_TABLE_SIZE <= h.trackLength && TrackStart(h.trackLength, k) <= |data|
    ensures forall j | 0 <= j < k :: AllWhole(ReadTracks(data, h, k)[j].sectors)
    decreases k
  {
    hide AllWhole, TrackBytes;
    if k > 0 {
      TracksWhole(data, h, k - 1);
      var t := TrackBytes(data, h, k - 1);
      SectorsWhole(t, IdamOffsets(t, 0));
    }
  }

  /** Every good sector the exporter finds names the size of the disk's first sector. */
  ghost predicate SizesAgree(ts: seq<Track>, n: nat, size: nat) {
    forall k, s | 0 <= k < |ts| && 1 <= s <= n :: NamesSize(ts[k].sectors, s, size)
  }

  predicate NamesSize(ss: seq<Sector>, id: nat, size: nat) {
    var found := Find(ss, id);
    found.Some? && found.value.crcOk ==> found.value.dataSize == size
  }

  lemma WholeFits(ss: seq<Sector>, id: nat, size: nat)
    requires AllWhole(ss)
    ensures CopyFits(ss, id, size) <==> NamesSize(ss, id, size)
  {
    hide Find;
    var found := Find(ss, id);
    if found.Some? {
      var i :| 0 <= i < |ss| && ss[i] == found.value;
      assert GoodIsWhole(ss[i]) && ss[i].crcOk ==> |found.value.data| == found.value.dataSize;
    }
  }

  /** Every sector of the export of an analysis stands where a raw image has it. */
  ghost predicate ExportInPlace(a: Analysis, fill: byte)
    requires ExportOf(a, fill).Written?
  {
    InPlace(a.tracks, |a.tracks[0].sectors|, a.tracks[0].sectors[0].dataSize, fill)
  }

  ghost predicate ExportSizesAgree(a: Analysis, fill: byte)
    requires ExportOf(a, fill).Written?
  {
    SizesAgree(a.tracks, |a.tracks[0].sectors|, a.tracks[0].sectors[0].dataSize)
  }

  predicate RightLength(a: Analysis, fill: byte)
    requires ExportOf(a, fill).Written?
  {
    |ExportOf(a, fill).bytes| == |a.tracks| * |a.tracks[0].sectors| * a.tracks[0].sectors[0].dataSize
  }

  /** Sectors are copied at their own length, so the export of an image has every sector where a
      raw image has it exactly when all good sectors it finds are of the size of the first. */
  lemma ExportInPlaceIff(data: seq<byte>, fill: byte)
    requires ExportOf(Analyse(data), fill).Written?
    ensures ExportInPlace(Analyse(data), fill) <==> ExportSizesAgree(Analyse(data), fill)
  {
    hide InPlace, CopyFits, NamesSize, AllWhole, TracksOut, Analyse;
    var ts := Analyse(data).tracks;
    var n, size := |ts[0].sectors|, ts[0].sectors[0].dataSize;
    InPlaceIff(ts, n, size, fill);
    AnalysedWhole(data);
    forall k, s | 0 <= k < |ts| && 1 <= s <= n
      ensures CopyFits(ts[k].sectors, s, size) <==> NamesSize(ts[k].sectors, s, size)
    {
      WholeFits(ts[k].sectors, s, size);
    }
  }

  lemma AnalysedWhole(data: seq<byte>)
    requires Analyse(data).Analysed?
    ensures forall j | 0 <= j < |Analyse(data).tracks| :: AllWhole(Analyse(data).tracks[j].sectors)
  {
    hide AllWhole, TallyTracks, ReadTracks, ReadHeader;
    var h := ReadHeader(data);
    TrackStartIs(h.trackLength, h.tracks * h.Heads());
    TracksWhole(data, h, h.tracks * h.Heads());
  }

  // ---------- An image with sectors of three sizes ----------

  /** A single-sided image of one track. */
  function OneTrackImage(ps: seq<Placed>): seq<byte>
    requires TrackOk(ps, [])
  {
    HeaderBytes(Frame(|LayoutTrack(ps, [])|)) + LayoutTrack(ps, [])
  }

  function Frame(length: nat): (d: Disk)
    ensures HeadsOf(d) == 1
  {
    Disk([], [], length, 1, 0, 0x10, seq(11, _ => 0))
  }

  lemma OneTrackReads(ps: seq<Placed>)
    requires TrackOk(ps, [])
    ensures var a := Analyse(OneTrackImage(ps));
      a.Analysed? && a.tracks == [Track(0, 0, |ps|, ExpectedAll(ps), false)]
  {
    hide LayoutTrack, ReadTrack, ReadHeader, HeaderBytes, ExpectedAll, TallyTracks;
    var t, data := LayoutTrack(ps, []), OneTrackImage(ps);
    var d := Frame(|t|);
    assert IDAM_TABLE_SIZE <= |t| by { TableInFront(ps); }
    assert data[..HEADER_SIZE] == HeaderBytes(d);
    HeaderReadsBack(d, data);
    var h := ReadHeader(data);
    assert TrackStart(h.trackLength, 1) == HEADER_SIZE + |t|;
    assert TrackBytes(data, h, 0) == t;
    TrackReadsBack(ps, [], 0, 0);
    assert ReadTracks(data, h, 1) == [ReadTrack(t, 0, 0)];
  }

  lemma TableInFront(ps: seq<Placed>)
    ensures IDAM_TABLE_SIZE <= |LayoutTrack(ps, [])|
  {
  }

  /** A single-density sector of zero bytes. */
  function ZeroSector(id: byte, code: byte): Placed {
    Placed(Slot([0, 0, 0], false, 0, 0, code, [0, 0], [], false), id, seq(DataSize(false, code), _ => 0))
  }

  /** Sectors 1 to 3 of 128, 96 and 160 bytes. */
  function Mixed(): seq<Placed> { [ZeroSector(1, 0), ZeroSector(2, 6), ZeroSector(3, 10)] }

  lemma MixedSizes()
    ensures DataSize(false, 0) == 128 && DataSize(false, 6) == 96 && DataSize(false, 10) == 160
  {
  }

  lemma MixedOk()
    ensures TrackOk(Mixed(), [])
  {
    hide SectorBytes, DataSize, IdamTable;
    var ps := Mixed();
    MixedSizes();
    forall i | 0 <= i < |ps| ensures PlacedOk(ps[i]) && |SectorBytes(ps[i])| == 13 + |ps[i].data| {
      DataInside(ps[i], 0);
    }
    assert ps[..2][..1] == ps[..1] && ps[..1][..0] == [];
    assert |Body(ps)| == |Body(ps[..2])| + |SectorBytes(ps[2])|;
    assert |Body(ps[..2])| == |Body(ps[..1])| + |SectorBytes(ps[1])|;
    assert |Body(ps[..1])| == |SectorBytes(ps[0])|;
  }

  lemma FindsThree(ss: seq<Sector>)
    requires |ss| == 3 && ss[0].id == 1 && ss[1].id == 2 && ss[2].id == 3
    ensures Find(ss, 1) == Some(ss[0]) && Find(ss, 2) == Some(ss[1]) && Find(ss, 3) == Some(ss[2])
  {
    assert ss[1..][1..][0] == ss[2] && ss[1..][0] == ss[1];
  }

  function MixedImage(): seq<byte> {
    MixedOk();
    OneTrackImage(Mixed())
  }

  lemma ExpectedFrom(ps: seq<Placed>, i: nat)
    requires i < |ps|
    ensures var e := ExpectedAll(ps)[i];
      e.id == ps[i].id && e.dataSize == |ps[i].data| && e.crcOk && e.data == ps[i].data
  {
    hide BaseOf;
  }

  /** What is exported of three good sectors numbered 1 to 3. */
  lemma ThreeOut(ss: seq<Sector>, size: nat, fill: byte)
    requires |ss| == 3 && ss[0].id == 1 && ss[1].id == 2 && ss[2].id == 3
    requires ss[0].crcOk && ss[1].crcOk && ss[2].crcOk
    ensures var ts := [Track(0, 0, 3, ss, false)];
      && OutBefore(ts, 3, size, fill, 0, 2) == |ss[0].data| + |ss[1].data|
      && |TracksOut(ts, 3, size, fill)| == |ss[0].data| + |ss[1].data| + |ss[2].data|
  {
    hide OutBefore, TracksOut, Find, CopyFits;
    var ts := [Track(0, 0, 3, ss, false)];
    FindsThree(ss);
    FirstOut(ts, 3, size, fill);
    OneSectorOn(ts, 3, size, fill, 0, 0);
    OneSectorOn(ts, 3, size, fill, 0, 1);
    OneSectorOn(ts, 3, size, fill, 0, 2);
    AllOut(ts, 3, size, fill);
  }

  lemma MixedSectors(ss: seq<Sector>)
    requires ss == ExpectedAll(Mixed())
    ensures |ss| == 3 && ss[0].id == 1 && ss[1].id == 2 && ss[2].id == 3
    ensures ss[0].crcOk && ss[1].crcOk && ss[2].crcOk
    ensures |ss[0].data| == ss[0].dataSize == 128 && |ss[1].data| == 96 && |ss[2].data| == 160
  {
    hide ExpectedAll, DataSize;
    MixedSizes();
    ExpectedFrom(Mixed(), 0);
    ExpectedFrom(Mixed(), 1);
    ExpectedFrom(Mixed(), 2);
  }

  /** The total length alone does not tell: on this image a sector of 160 bytes makes up for one
      of 96, and the third sector stands 32 bytes too early. */
  lemma LengthIsNotEnough(fill: byte)
    ensures var a := Analyse(MixedImage());
      ExportOf(a, fill).Written? && RightLength(a, fill) && !ExportInPlace(a, fill)
  {
    hide Mixed, OneTrackImage, Analyse, OutBefore, RawBefore, TracksOut, ExpectedAll;
    MixedOk();
    OneTrackReads(Mixed());
    var ss := ExpectedAll(Mixed());
    MixedSectors(ss);
    ThreeOut(ss, 128, fill);
    RawBeforeIs(3, 128, 0, 2);
    assert OutBefore([Track(0, 0, 3, ss, false)], 3, 128, fill, 0, 2) != RawBefore(3, 128, 0, 2);
  }

  lemma AllOut(ts: seq<Track>, n: nat, size: nat, fill: byte)
    requires |ts| == 1
    ensures |TracksOut(ts, n, size, fill)| == OutBefore(ts, n, size, fill, 0, n)
  {
    hide TrackOut;
  }
}
