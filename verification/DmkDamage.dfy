/** What damage to one sector does to an export: exactly that sector becomes fill bytes. */
module DmkDamage {
  import opened ByteMessages
  import opened PolyDivision
  import opened Dmk
  import opened DmkRoundTrip
  import opened DmkIntegrity

  // ---------- One track ----------

  /** The sectors of a laid-out track with the data of sector `i` replaced and its verdict down. */
  function DamagedAll(ps: seq<Placed>, i: nat, data: seq<byte>): (ss: seq<Sector>)
    requires i < |ps|
    ensures |ss| == |ps|
  {
    ExpectedAll(ps)[i := Damaged(ExpectedAll(ps)[i], data)]
  }

  /** Where the data of sector `i` starts in its track. */
  function DataFrom(ps: seq<Placed>, i: nat): nat
    requires i < |ps|
  {
    DataAt(ps[i], BaseOf(ps, i))
  }

  /** The damage lies inside the data of sector `i` of the track. */
  ghost predicate DamagesData(ps: seq<Placed>, tail: seq<byte>, u: seq<byte>, i: nat, at: nat, width: nat)
    requires i < |ps|
  {
    && IsBurst(LayoutTrack(ps, tail), u, at, width) && width <= 2
    && DataFrom(ps, i) <= at && at + width <= DataFrom(ps, i) + |ps[i].data|
  }

  lemma {:induction false} BodyGrows(ps: seq<Placed>, k: nat, i: nat)
    requires k < i <= |ps|
    ensures BaseOf(ps, k) + |SectorBytes(ps[k])| <= BaseOf(ps, i)
    decreases i
  {
    hide SectorBytes;
    assert ps[..i][..i - 1] == ps[..i - 1];
    if k < i - 1 { BodyGrows(ps, k, i - 1); }
  }

  lemma DataInside(p: Placed, base: nat)
    requires PlacedOk(p)
    ensures base + |SectorBytes(p)| == DataAt(p, base) + |p.data| + 2
    ensures base + 8 <= DataAt(p, base)
  {
    hide DataCrc, DataSize;
    assert |IdField(p)| == 5 + |p.slot.idCrc|;
    assert |FromData(p)| == |p.data| + 2;
    assert |FromMark(p)| == 1 + |FromData(p)|;
    assert |FromGap(p)| == |p.slot.gap| + |FromMark(p)|;
    assert |FromId(p)| == |IdField(p)| + |FromGap(p)|;
    assert |SectorBytes(p)| == |p.slot.lead| + |FromId(p)|;
  }

  lemma {:induction false} SameTable(t: seq<byte>, u: seq<byte>, i: nat)
    requires IDAM_TABLE_SIZE <= |t| == |u| && t[..IDAM_TABLE_SIZE] == u[..IDAM_TABLE_SIZE] && i <= MAX_IDAMS
    ensures IdamOffsets(u, i) == IdamOffsets(t, i)
    decreases MAX_IDAMS - i
  {
    hide TableEntry;
    if i < MAX_IDAMS {
      assert TableEntry(u, i) == TableEntry(t, i) by { SameEntry(t, u, i); }
      if TableEntry(t, i) != 0 { SameTable(t, u, i + 1); }
    }
  }

  lemma SameEntry(t: seq<byte>, u: seq<byte>, i: nat)
    requires IDAM_TABLE_SIZE <= |t| == |u| && t[..IDAM_TABLE_SIZE] == u[..IDAM_TABLE_SIZE] && i < MAX_IDAMS
    ensures TableEntry(u, i) == TableEntry(t, i)
  {
    assert t[2 * i] == t[..IDAM_TABLE_SIZE][2 * i] && u[2 * i] == u[..IDAM_TABLE_SIZE][2 * i];
    assert t[2 * i + 1] == t[..IDAM_TABLE_SIZE][2 * i + 1] && u[2 * i + 1] == u[..IDAM_TABLE_SIZE][2 * i + 1];
  }

  /** Every other sector of the damaged track reads as before. */
  lemma OtherSectorReads(ps: seq<Placed>, tail: seq<byte>, u: seq<byte>, i: nat, at: nat, width: nat, k: nat)
    requires TrackOk(ps, tail) && i < |ps| && k < |ps| && k != i && DamagesData(ps, tail, u, i, at, width)
    ensures MarkAt(ps[k], BaseOf(ps, k)) < |u|
    ensures ReadSector(u, MarkAt(ps[k], BaseOf(ps, k))) == Some(Expected(ps[k], BaseOf(ps, k)))
  {
    hide LayoutTrack, SectorBytes, BaseOf, Expected, ReadSector, IsBurst, MarkAt, DataAt;
    var t, base, sb := LayoutTrack(ps, tail), BaseOf(ps, k), SectorBytes(ps[k]);
    SectorStands(ps, tail, k);
    DataInside(ps[i], BaseOf(ps, i));
    if k < i { BodyGrows(ps, k, i); } else { BodyGrows(ps, i, k); }
    BurstElsewhere(t, u, at, width, base, base + |sb|);
    ReadPlaced(u, base, ps[k]);
  }

  /** The damaged sector keeps everything but its data and its verdict. */
  lemma DamagedSectorReads(ps: seq<Placed>, tail: seq<byte>, u: seq<byte>, i: nat, at: nat, width: nat)
      returns (data: seq<byte>)
    requires TrackOk(ps, tail) && i < |ps| && DamagesData(ps, tail, u, i, at, width)
    ensures MarkAt(ps[i], BaseOf(ps, i)) < |u|
    ensures ReadSector(u, MarkAt(ps[i], BaseOf(ps, i)))
         == Some(Damaged(Expected(ps[i], BaseOf(ps, i)), data))
  {
    hide LayoutTrack, SectorBytes, BaseOf, ReadSector;
    var t, base := LayoutTrack(ps, tail), BaseOf(ps, i);
    SectorStands(ps, tail, i);
    ReadPlaced(t, base, ps[i]);
    DamageIsSeen(t, u, MarkAt(ps[i], base), at, width);
    var s := Expected(ps[i], base);
    DataInside(ps[i], base);
    assert base + |SectorBytes(ps[i])| <= |t| == |u|;
    data := u[s.dataOffset..s.dataOffset + |s.data|];
  }

  lemma {:induction false} SectorsReadAs(t: seq<byte>, offs: seq<nat>, ss: seq<Sector>)
    requires Usable(t, offs) && |offs| == |ss|
    requires forall k | 0 <= k < |offs| :: ReadSector(t, offs[k]) == Some(ss[k])
    ensures ReadSectors(t, offs) == ss
    decreases |offs|
  {
    hide ReadSector;
    if offs != [] {
      var n := |offs| - 1;
      SectorsReadAs(t, offs[..n], ss[..n]);
    }
  }

  lemma DamagedTrackReads(ps: seq<Placed>, tail: seq<byte>, u: seq<byte>, i: nat, at: nat, width: nat,
                          cylinder: nat, head: nat) returns (data: seq<byte>)
    requires TrackOk(ps, tail) && i < |ps| && DamagesData(ps, tail, u, i, at, width)
    ensures |u| == |LayoutTrack(ps, tail)| >= IDAM_TABLE_SIZE
    ensures ReadTrack(u, cylinder, head).sectors == DamagedAll(ps, i, data)
  {
    hide LayoutTrack, ReadSector, Expected, BaseOf, MarkAt, DataAt, IdamOffsets, SectorBytes, IsBurst;
    var t := LayoutTrack(ps, tail);
    data := DamagedSectorReads(ps, tail, u, i, at, width);
    DataInside(ps[i], BaseOf(ps, i));
    SectorStands(ps, tail, i);
    assert IDAM_TABLE_SIZE <= BaseOf(ps, i) by { BaseBehindTable(ps, i); }
    BurstElsewhere(t, u, at, width, 0, IDAM_TABLE_SIZE);
    SameTable(t, u, 0);
    TableRead(ps, tail, 0);
    assert Marks(ps)[0..] == Marks(ps);
    var offs, ss := Marks(ps), DamagedAll(ps, i, data);
    forall k | 0 <= k < |offs| ensures offs[k] < |u| && ReadSector(u, offs[k]) == Some(ss[k]) {
      if k != i { OtherSectorReads(ps, tail, u, i, at, width, k); }
    }
    SectorsReadAs(u, offs, ss);
  }

  lemma BaseBehindTable(ps: seq<Placed>, i: nat)
    requires i <= |ps|
    ensures IDAM_TABLE_SIZE <= BaseOf(ps, i)
  {
  }

  // ---------- The image ----------

  /** Where the data of the sector at position `i` of track `j` starts in the image. */
  function DataIn(d: Disk, j: nat, i: nat): nat
    requires |d.contents| == |d.plans| && j < |d.plans| && Shaped(d.contents[j], d.plans[j])
    requires i < |PlacedTrack(d, j)|
  {
    TrackStart(d.trackLength, j) + DataFrom(PlacedTrack(d, j), i)
  }

  lemma SameImageHeader(x: seq<byte>, y: seq<byte>)
    requires HEADER_SIZE <= |x| == |y| && x[..HEADER_SIZE] == y[..HEADER_SIZE]
    ensures ReadHeader(y) == ReadHeader(x) && HeaderError(y) == HeaderError(x)
  {
    forall k | 0 <= k < HEADER_SIZE ensures x[k] == y[k] {
      assert x[k] == x[..HEADER_SIZE][k] && y[k] == y[..HEADER_SIZE][k];
    }
  }

  lemma {:induction false} TracksAt(data: seq<byte>, h: Header, n: nat, k: nat)
    requires IDAM_TABLE_SIZE <= h.trackLength && TrackStart(h.trackLength, n) <= |data| && k < n
    ensures TrackStart(h.trackLength, k + 1) <= |data|
    ensures ReadTracks(data, h, n)[k] == ReadTrack(TrackBytes(data, h, k), h.CylinderOf(k), h.HeadOf(k))
    decreases n
  {
    hide ReadTrack, TrackBytes;
    if k < n - 1 { TracksAt(data, h, n - 1, k); }
  }

  /** The tracks of a laid-out image stand where its header says. */
  lemma TrackIs(d: Disk, n: nat, size: nat, k: nat)
    requires DiskOk(d, n, size) && k < |d.plans|
    ensures HEADER_SIZE <= |LayoutImage(d, n, size)|
    ensures var x := LayoutImage(d, n, size);
      var h := ReadHeader(x);
      && h.trackLength == d.trackLength
      && TrackStart(h.trackLength, k + 1) <= |x|
      && TrackBytes(x, h, k) == LayoutTrack(PlacedTrack(d, k), d.plans[k].tail)
  {
    hide LayoutImage, LayoutTrack, Place, TracksImage, ReadHeader, Stands, TrackBytes;
    ImageHeader(d, n, size);
    var x := LayoutImage(d, n, size);
    var h := ReadHeader(x);
    TrackStands(d, h, k, |d.plans|, n, size);
    TrackLengthIs(d, k, n, size);
    TrackStartMonotone(h.trackLength, k + 1, |d.plans|);
    TrackCut(x, h, k, LayoutTrack(PlacedTrack(d, k), d.plans[k].tail));
  }

  /** The image `y` is that of the disk, damaged inside the data of sector `i` of track `j`. */
  ghost predicate DamagesImage(d: Disk, n: nat, size: nat, y: seq<byte>, j: nat, i: nat, at: nat, width: nat)
    requires DiskOk(d, n, size) && j < |d.plans| && i < n
  {
    && IsBurst(LayoutImage(d, n, size), y, at, width) && width <= 2
    && DataIn(d, j, i) <= at && at + width <= DataIn(d, j, i) + size
  }

  lemma SectorLength(d: Disk, n: nat, size: nat, j: nat, i: nat)
    requires DiskOk(d, n, size) && j < |d.plans| && i < n
    ensures |PlacedTrack(d, j)[i].data| == size && PlacedOk(PlacedTrack(d, j)[i])
    ensures TrackStart(d.trackLength, j) + IDAM_TABLE_SIZE <= DataIn(d, j, i)
    ensures DataIn(d, j, i) + size <= TrackStart(d.trackLength, j + 1)
    ensures IDAM_TABLE_SIZE <= d.trackLength
  {
    hide LayoutTrack, SlotOk, DataSize, Body, DataFrom;
    var ps, tail := PlacedTrack(d, j), d.plans[j].tail;
    assert PlanOk(d.contents[j], d.plans[j], n, size, d.trackLength);
    DataWithin(ps, tail, i);
  }

  lemma DataWithin(ps: seq<Placed>, tail: seq<byte>, i: nat)
    requires i < |ps| && PlacedOk(ps[i])
    ensures IDAM_TABLE_SIZE <= DataFrom(ps, i) && DataFrom(ps, i) + |ps[i].data| <= |LayoutTrack(ps, tail)|
  {
    hide LayoutTrack, SectorBytes, PlacedOk;
    SectorStands(ps, tail, i);
    DataInside(ps[i], BaseOf(ps, i));
    BaseBehindTable(ps, i);
  }

  lemma Apart(length: nat, j: nat, k: nat)
    requires j != k
    ensures TrackStart(length, k) <= TrackStart(length, k + 1)
    ensures TrackStart(length, k + 1) <= TrackStart(length, j) || TrackStart(length, j + 1) <= TrackStart(length, k)
  {
    hide TrackStart;
    TrackStartMonotone(length, k, k + 1);
    if k < j { TrackStartMonotone(length, k + 1, j); } else { TrackStartMonotone(length, j + 1, k); }
  }

  /** A track the damage does not touch reads as before. */
  lemma OtherTrackReads(d: Disk, n: nat, size: nat, y: seq<byte>, j: nat, i: nat, at: nat, width: nat, k: nat)
    requires DiskOk(d, n, size) && j < |d.plans| && i < n && DamagesImage(d, n, size, y, j, i, at, width)
    requires k < |d.plans| && k != j
    ensures HEADER_SIZE <= |y| && var h := ReadHeader(y);
      && TrackStart(h.trackLength, k + 1) <= |y| && IDAM_TABLE_SIZE <= h.trackLength
      && ReadTrack(TrackBytes(y, h, k), h.CylinderOf(k), h.HeadOf(k)) == ExpectedTrack(d, h, k)
  {
    hide LayoutImage, LayoutTrack, Place, ReadHeader, ReadTrack, TrackOk, IsBurst, DataIn, TrackStart, ExpectedAll;
    var x := LayoutImage(d, n, size);
    HeaderStays(d, n, size, y, j, i, at, width);
    var h := ReadHeader(x);
    SectorLength(d, n, size, j, i);
    TrackIs(d, n, size, k);
    TrackIs(d, n, size, j);
    Apart(d.trackLength, j, k);
    BurstElsewhere(x, y, at, width, TrackStart(h.trackLength, k), TrackStart(h.trackLength, k + 1));
    PlacedTrackOk(d, k, n, size);
    TrackReadsBack(PlacedTrack(d, k), d.plans[k].tail, h.CylinderOf(k), h.HeadOf(k));
  }

  lemma SameHeaderBytes(x: seq<byte>, y: seq<byte>, at: nat, width: nat)
    requires IsBurst(x, y, at, width) && HEADER_SIZE <= at
    ensures |y| == |x| >= HEADER_SIZE && ReadHeader(y) == ReadHeader(x) && HeaderError(y) == HeaderError(x)
  {
    hide ReadHeader;
    BurstElsewhere(x, y, at, width, 0, HEADER_SIZE);
    SameImageHeader(x, y);
  }

  lemma HeaderStays(d: Disk, n: nat, size: nat, y: seq<byte>, j: nat, i: nat, at: nat, width: nat)
    requires DiskOk(d, n, size) && j < |d.plans| && i < n && DamagesImage(d, n, size, y, j, i, at, width)
    ensures |y| == |LayoutImage(d, n, size)| >= HEADER_SIZE
    ensures ReadHeader(y) == ReadHeader(LayoutImage(d, n, size))
    ensures IDAM_TABLE_SIZE <= d.trackLength
    ensures HeaderError(y).None?
  {
    hide LayoutImage, LayoutTrack, TracksImage, ReadHeader, IsBurst, DataIn, HeaderError, TrackStart, DiskOk;
    var x := LayoutImage(d, n, size);
    ImageHeader(d, n, size);
    SectorLength(d, n, size, j, i);
    SameHeaderBytes(x, y, at, width);
  }

  /** The damaged track differs in one sector's data and verdict. */
  lemma DamagedTrackIs(d: Disk, n: nat, size: nat, y: seq<byte>, j: nat, i: nat, at: nat, width: nat)
      returns (data: seq<byte>)
    requires DiskOk(d, n, size) && j < |d.plans| && i < n && DamagesImage(d, n, size, y, j, i, at, width)
    ensures HEADER_SIZE <= |y| && var h := ReadHeader(y);
      && TrackStart(h.trackLength, j + 1) <= |y| && IDAM_TABLE_SIZE <= h.trackLength
      && ReadTrack(TrackBytes(y, h, j), h.CylinderOf(j), h.HeadOf(j)).sectors
      == DamagedAll(PlacedTrack(d, j), i, data)
  {
    hide LayoutImage, LayoutTrack, Place, ReadHeader, ReadTrack, TrackOk, IsBurst, TrackStart, DamagedAll, DataAt,
      BaseOf;
    var x := LayoutImage(d, n, size);
    HeaderStays(d, n, size, y, j, i, at, width);
    var h := ReadHeader(x);
    SectorLength(d, n, size, j, i);
    TrackIs(d, n, size, j);
    var from := TrackStart(h.trackLength, j);
    BurstInside(x, y, at, width, from, TrackStart(h.trackLength, j + 1));
    PlacedTrackOk(d, j, n, size);
    data := DamagedTrackReads(PlacedTrack(d, j), d.plans[j].tail, TrackBytes(y, h, j), i, at - from, width,
                              h.CylinderOf(j), h.HeadOf(j));
  }

  // ---------- Its export ----------

  /** The contents with logical sector `s` of track `j` replaced by fill bytes. */
  function Spoiled(contents: seq<seq<seq<byte>>>, j: nat, s: nat, size: nat, fill: byte): seq<seq<seq<byte>>>
    requires j < |contents| && s < |contents[j]|
  {
    contents[j := contents[j][s := seq(size, _ => fill)]]
  }

  /** An order that covers n numbers has at least n places. */
  lemma {:induction false} CoverNeeds(order: seq<nat>, n: nat)
    requires forall s | 0 <= s < n :: s in order
    ensures n <= |order|
    decreases n
  {
    if n > 0 {
      assert n - 1 in order;
      var p :| 0 <= p < |order| && order[p] == n - 1;
      var rest := order[..p] + order[p + 1..];
      forall s | 0 <= s < n - 1 ensures s in rest {
        StaysIn(order, p, s);
      }
      CoverNeeds(rest, n - 1);
    }
  }

  lemma StaysIn(order: seq<nat>, p: nat, s: nat)
    requires p < |order| && s in order && exists q :: 0 <= q < |order| && q != p && order[q] == s
    ensures s in order[..p] + order[p + 1..]
  {
    var q :| 0 <= q < |order| && q != p && order[q] == s;
    var rest := order[..p] + order[p + 1..];
    assert rest[if q < p then q else q - 1] == s;
  }

  /** An interleave names every sector once. */
  lemma InterleaveInjective(order: seq<nat>, n: nat, i: nat, k: nat)
    requires IsInterleave(order, n) && i < n && k < n && order[i] == order[k]
    ensures i == k
  {
    if i != k {
      var rest := order[..k] + order[k + 1..];
      forall s | 0 <= s < n ensures s in rest {
        assert s in order;
        var q :| 0 <= q < |order| && order[q] == s;
        assert order[if q == k then i else q] == s;
        StaysIn(order, k, s);
      }
      CoverNeeds(rest, n);
      assert false;
    }
  }

  /** What the exporter takes from the damaged track for logical sector `s`. */
  lemma DamagedSectorOut(content: seq<seq<byte>>, plan: Plan, n: nat, size: nat, length: nat, i: nat,
                         data: seq<byte>, s: nat, fill: byte)
    requires PlanOk(content, plan, n, size, length) && i < n <= MAX_IDAMS && s < n
    ensures SectorOut(DamagedAll(Place(content, plan), i, data), s + 1, size, fill)
         == content[plan.order[i] := seq(size, _ => fill)][s]
  {
    hide ExpectedAll, Place, SlotOk, DataSize, Find, LayoutTrack;
    var es, ss := ExpectedAll(Place(content, plan)), DamagedAll(Place(content, plan), i, data);
    assert s in plan.order;
    var at :| 0 <= at < n && plan.order[at] == s;
    ExpectedFields(content, plan, n, size, length, at);
    var k := FindGives(ss, s + 1, at);
    assert ss[k].id == es[k].id;
    ExpectedFields(content, plan, n, size, length, k);
    if s == plan.order[i] { InterleaveInjective(plan.order, n, i, k); }
  }

  /** Every track of the damaged image comes out as the spoiled contents say. */
  lemma DamagedTrackOut(d: Disk, n: nat, size: nat, y: seq<byte>, j: nat, i: nat, data: seq<byte>, k: nat,
                        ss: seq<Sector>, fill: byte)
    requires DiskOk(d, n, size) && j < |d.plans| && i < n && k < |d.plans|
    requires ss == if k == j then DamagedAll(PlacedTrack(d, j), i, data) else ExpectedAll(PlacedTrack(d, k))
    ensures TrackOut(ss, n, size, fill)
         == Concat(Spoiled(d.contents, j, d.plans[j].order[i], size, fill)[k])
  {
    hide LayoutTrack, SlotOk, DataSize, Place, SectorOut, DamagedAll, ExpectedAll, TrackOut, Concat;
    var content, plan := d.contents[k], d.plans[k];
    assert PlanOk(content, plan, n, size, d.trackLength);
    var out := Spoiled(d.contents, j, d.plans[j].order[i], size, fill)[k];
    forall s | 0 <= s < n ensures SectorOut(ss, s + 1, size, fill) == out[s] {
      if k == j {
        DamagedSectorOut(content, plan, n, size, d.trackLength, i, data, s, fill);
      } else {
        SectorFound(content, plan, n, size, d.trackLength, s, fill);
      }
    }
    TrackComesOut(ss, out, n, size, fill);
    assert out[..n] == out;
  }

  /** Damage to at most two adjacent data bytes of one sector changes the export in that sector
      alone, and there to fill bytes: no damaged byte is exported, no other sector is lost. */
  lemma DamageStaysInItsSector(d: Disk, n: nat, size: nat, y: seq<byte>, j: nat, i: nat, at: nat, width: nat,
                               fill: byte)
    requires DiskOk(d, n, size) && j < |d.plans| && i < n && DamagesImage(d, n, size, y, j, i, at, width)
    ensures ExportOf(Analyse(y), fill)
         == Written(RawOf(Spoiled(d.contents, j, d.plans[j].order[i], size, fill)))
  {
    hide LayoutImage, LayoutTrack, ReadHeader, ReadTrack, Place, IsBurst, DataIn, TrackStart, TracksOut, TrackOut,
      RawOf, Concat, DamagedAll, ExpectedAll, TallyTracks, HeaderError;
    HeaderStays(d, n, size, y, j, i, at, width);
    ImageHeader(d, n, size);
    var h := ReadHeader(y);
    var m := |d.plans|;
    TrackStartIs(h.trackLength, m);
    var data := DamagedTrackIs(d, n, size, y, j, i, at, width);
    var ts, out := ReadTracks(y, h, m), Spoiled(d.contents, j, d.plans[j].order[i], size, fill);
    forall k | 0 <= k < m
      ensures ts[k].sectors == if k == j then DamagedAll(PlacedTrack(d, j), i, data) else ExpectedAll(PlacedTrack(d, k))
      ensures TrackOut(ts[k].sectors, n, size, fill) == Concat(out[k])
    {
      TracksAt(y, h, m, k);
      if k != j { OtherTrackReads(d, n, size, y, j, i, at, width, k); }
      DamagedTrackOut(d, n, size, y, j, i, data, k, ts[k].sectors, fill);
    }
    TracksComeOut(ts, out, n, size, fill);
    assert out[..m] == out;
    FirstSector(d, h, n, size);
    assert |ts[0].sectors| == n && ts[0].sectors[0].dataSize == size by { SameShape(PlacedTrack(d, j), i, data); }
  }

  lemma SameShape(ps: seq<Placed>, i: nat, data: seq<byte>)
    requires i < |ps|
    ensures DamagedAll(ps, i, data)[0].dataSize == ExpectedAll(ps)[0].dataSize
  {
  }
}
