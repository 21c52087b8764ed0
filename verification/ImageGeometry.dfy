/** The geometry an image is verified with, in numbers: by suffix where the format table fixes it, by
    size where it does not.  The tables and the search through them do not appear here. */
module ImageGeometry {
  import opened DiskImage
  import opened DecodeJob

  /** The geometry of an image whose suffix leaves it open. */
  function BySize(size: nat): Geometry {
    if size == 901120 then Geometry(80, 2, 11, 512)
    else if size == 1802240 then Geometry(80, 2, 22, 512)
    else if size == 161280 then Geometry(35, 1, 9, 512)
    else if size == 163840 then Geometry(40, 1, 8, 512)
    else if size == 184320 then Geometry(40, 1, 9, 512)
    else if size == 322560 then Geometry(35, 2, 9, 512)
    else if size == 327680 then Geometry(40, 2, 8, 512)
    else if size == 368640 then Geometry(40, 2, 9, 512)
    else if size == 819200 then Geometry(82, 2, 10, 512)
    else if size == 1228800 then Geometry(80, 2, 15, 512)
    else if size == 1474560 then Geometry(80, 2, 18, 512)
    else if size == 2949120 then Geometry(80, 2, 36, 512)
    else if size == 174848 || size == 175531 then Geometry(35, 1, 17, 256)
    else if size == 143360 then Geometry(35, 1, 16, 256)
    else Geometry(80, 2, 9, 512)
  }

  /** Suffix and size name a sector image of fixed geometry. */
  predicate IsSized(extension: string, size: nat) {
    || (extension == "adf" && (size == 901120 || size == 1802240))
    || (extension == "img" && (size == 737280 || size == 1474560))
    || ((extension == "dsk" || extension == "do" || extension == "po") && size == 143360)
    || (extension == "st" && size == 737280)
    || (extension == "ssd" && size == 102400)
    || (extension == "dsd" && size == 204800)
  }

  function Sized(extension: string, size: nat): Geometry {
    if extension == "ssd" then Geometry(40, 1, 10, 256)
    else if extension == "dsd" then Geometry(40, 2, 10, 256)
    else BySize(size)
  }

  /** The other images the format table knows: D64 without and nibbles with fixed size, the rest of any size. */
  predicate IsOther(extension: string, size: nat) {
    || (extension == "d64" && size == 174848) || (extension == "nib" && size == 232960)
    || extension == "g64" || extension == "ima" || extension == "msa" || IsPlainFlux(extension)
  }

  predicate IsPlainFlux(extension: string) {
    extension == "scp" || extension == "ipf" || extension == "hfe" || extension == "raw"
  }

  predicate IsFluxImage(extension: string, size: nat) {
    IsPlainFlux(extension) || extension == "g64" || (extension == "nib" && size == 232960)
  }

  function InNumbers(extension: string, size: nat): Geometry {
    if IsSized(extension, size) then Sized(extension, size)
    else if extension == "d64" && size == 174848 then Geometry(35, 1, 9, 256)
    else if extension == "nib" && size == 232960 then Geometry(35, 1, 9, 512)
    else if extension == "g64" then Geometry(42, 1, 9, 512)
    else if IsPlainFlux(extension) then Geometry(80, 2, 9, 512)
    else BySize(size)
  }

  // ---------- The row that counts ----------

  /** The place of the best match in the format table, -1 for none. */
  function RowOf(extension: string, size: nat): int {
    if extension == "adf" then (if size == 901120 then 0 else if size == 1802240 then 1 else -1)
    else if extension == "scp" then 2
    else if extension == "ipf" then 3
    else if extension == "hfe" then 4
    else if extension == "raw" then 5
    else if extension == "img" then (if size == 737280 then 6 else if size == 1474560 then 7 else -1)
    else if extension == "ima" then 8
    else if extension == "d64" then (if size == 174848 then 9 else -1)
    else if extension == "g64" then 10
    else if extension == "nib" then (if size == 232960 then 11 else -1)
    else if extension == "dsk" then (if size == 143360 then 12 else -1)
    else if extension == "do" then (if size == 143360 then 13 else -1)
    else if extension == "po" then (if size == 143360 then 14 else -1)
    else if extension == "st" then (if size == 737280 then 15 else -1)
    else if extension == "msa" then 16
    else if extension == "ssd" then (if size == 102400 then 17 else -1)
    else if extension == "dsd" then (if size == 204800 then 18 else -1)
    else -1
  }

  lemma OnlyRow(extension: string, size: nat, i: nat)
    requires i < |FORMATS|
    ensures Fits(FORMATS[i], extension, size) <==> i == RowOf(extension, size)
  {
    hide RowOf, Fits;
    if i < 5 { OnlyRowA(extension, size, i); }
    else if i < 10 { OnlyRowB(extension, size, i); }
    else if i < 15 { OnlyRowC(extension, size, i); }
    else { OnlyRowD(extension, size, i); }
  }

  lemma OnlyRowA(extension: string, size: nat, i: nat)
    requires i < 5
    ensures Fits(FORMATS[i], extension, size) <==> i == RowOf(extension, size)
  {
  }

  lemma OnlyRowB(extension: string, size: nat, i: nat)
    requires 5 <= i < 10
    ensures Fits(FORMATS[i], extension, size) <==> i == RowOf(extension, size)
  {
  }

  lemma OnlyRowC(extension: string, size: nat, i: nat)
    requires 10 <= i < 15
    ensures Fits(FORMATS[i], extension, size) <==> i == RowOf(extension, size)
  {
  }

  lemma OnlyRowD(extension: string, size: nat, i: nat)
    requires 15 <= i < 19
    ensures Fits(FORMATS[i], extension, size) <==> i == RowOf(extension, size)
  {
  }

  lemma RowIsBest(extension: string, size: nat)
    ensures IsBestMatch(FORMATS, extension, size, RowOf(extension, size))
  {
    hide RowOf, Fits;
    var best := RowOf(extension, size);
    forall i | 0 <= i < |FORMATS| ensures Fits(FORMATS[i], extension, size) <==> i == best {
      OnlyRow(extension, size, i);
    }
    RowInTable(extension, size);
    forall i | 0 <= i < |FORMATS| ensures Exact(FORMATS[i], extension, size) ==> i == best {
      ExactFits(FORMATS[i], extension, size);
    }
  }

  lemma RowInTable(extension: string, size: nat)
    ensures -1 <= RowOf(extension, size) < |FORMATS|
  {
  }

  lemma ExactFits(f: Format, extension: string, size: nat)
    ensures Exact(f, extension, size) ==> Fits(f, extension, size) && f.expectedSize > 0
  {
  }

  // ---------- From the tables to the numbers ----------

  lemma KnownInNumbers(k: nat)
    requires k < |KNOWN_SIZES|
    ensures KNOWN_SIZES[k].geometry == BySize(KNOWN_SIZES[k].size)
  {
  }

  lemma {:induction false} SizeListed(size: nat)
    ensures (exists k :: 0 <= k < |KNOWN_SIZES| && KNOWN_SIZES[k].size == size)
         || BySize(size) == Geometry(80, 2, 9, 512) || size == 322560 || size == 161280
  {
    var ks := KNOWN_SIZES;
    assert ks[0].size == 901120 && ks[1].size == 1802240 && ks[2].size == 163840 && ks[3].size == 184320;
    assert ks[4].size == 327680 && ks[5].size == 368640 && ks[7].size == 1228800 && ks[8].size == 1474560;
    assert ks[9].size == 2949120 && ks[10].size == 174848 && ks[11].size == 175531 && ks[12].size == 143360;
    assert ks[14].size == 819200;
  }

  /** The fallback decides only two sizes; the other sizes it could decide are known. */
  lemma FallbackInNumbers(size: nat, i: nat)
    requires i < |TYPICAL| && size % 512 == 0 && Sectors(TYPICAL[i]) == size / 512
    requires forall k | 0 <= k < |KNOWN_SIZES| :: KNOWN_SIZES[k].size != size
    requires forall k | 0 <= k < i :: Sectors(TYPICAL[k]) != size / 512
    ensures TYPICAL[i] == BySize(size)
  {
    assert size == 512 * Sectors(TYPICAL[i]);
    var ks := KNOWN_SIZES;
    assert ks[3].size == 184320 && ks[5].size == 368640 && ks[6].size == 737280 && ks[8].size == 1474560;
  }

  lemma NoFallback(size: nat)
    requires forall k | 0 <= k < |KNOWN_SIZES| :: KNOWN_SIZES[k].size != size
    requires size % 512 == 0 ==> forall k | 0 <= k < |TYPICAL| :: Sectors(TYPICAL[k]) != size / 512
    ensures BySize(size) == Geometry(80, 2, 9, 512)
  {
    SizeListed(size);
    assert Sectors(TYPICAL[6]) == 630 && Sectors(TYPICAL[7]) == 315;
    assert 322560 / 512 == 630 && 161280 / 512 == 315;
  }

  lemma DetectedInNumbers(size: nat, g: Geometry, origin: Origin)
    requires IsDetected(size, false, UNKNOWN, g, origin)
    ensures Effective(g) == BySize(size)
  {
    hide BySize;
    match origin
    case FromKnownSize(i) =>
      KnownInNumbers(i);
      WholeGeometry(size);
    case FromFallback(i) =>
      FallbackInNumbers(size, i);
      WholeGeometry(size);
    case Undetermined =>
      if size == 0 { EmptySize(); } else { NoFallback(size); }
  }

  lemma WholeGeometry(size: nat)
    ensures Effective(BySize(size)) == BySize(size)
  {
  }

  lemma EmptySize()
    ensures BySize(0) == Geometry(80, 2, 9, 512)
  {
  }

  /** What the row of a suffix and a size must say. */
  predicate RowSays(extension: string, size: nat, row: Format) {
    && (IsSized(extension, size) || IsOther(extension, size))
    && row.isFlux == IsFluxImage(extension, size)
    && (row.geometry.tracks >= 0 ==> Effective(row.geometry) == InNumbers(extension, size))
    && (row.geometry.tracks < 0 ==>
          && row.geometry == UNKNOWN
          && InNumbers(extension, size) == (if row.isFlux then Geometry(80, 2, 9, 512) else BySize(size)))
  }

  lemma RowInNumbers(extension: string, size: nat)
    requires 0 <= RowOf(extension, size) < |FORMATS|
    ensures RowSays(extension, size, FORMATS[RowOf(extension, size)])
  {
    hide RowOf, RowSays;
    var i := RowOf(extension, size);
    if i < 2 { RowsAdf(extension, size); }
    else if i < 4 { RowsScp(extension, size); }
    else if i < 6 { RowsHfe(extension, size); }
    else if i < 8 { RowsImg(extension, size); }
    else if i < 9 { RowsIma(extension, size); }
    else if i < 11 { RowsD64(extension, size); }
    else if i < 12 { RowsNib(extension, size); }
    else if i < 13 { RowsDsk(extension, size); }
    else if i < 15 { RowsApple(extension, size); }
    else if i < 16 { RowsSt(extension, size); }
    else if i < 17 { RowsMsa(extension, size); }
    else { RowsBbc(extension, size); }
  }

  lemma RowsAdf(extension: string, size: nat)
    requires 0 <= RowOf(extension, size) < 2
    ensures RowSays(extension, size, FORMATS[RowOf(extension, size)])
  {
  }

  lemma RowsScp(extension: string, size: nat)
    requires 2 <= RowOf(extension, size) < 4
    ensures RowSays(extension, size, FORMATS[RowOf(extension, size)])
  {
    hide BySize;
  }

  lemma RowsHfe(extension: string, size: nat)
    requires 4 <= RowOf(extension, size) < 6
    ensures RowSays(extension, size, FORMATS[RowOf(extension, size)])
  {
    hide BySize;
  }

  lemma RowsImg(extension: string, size: nat)
    requires 6 <= RowOf(extension, size) < 8
    ensures RowSays(extension, size, FORMATS[RowOf(extension, size)])
  {
  }

  lemma RowsIma(extension: string, size: nat)
    requires RowOf(extension, size) == 8
    ensures RowSays(extension, size, FORMATS[RowOf(extension, size)])
  {
    hide BySize;
  }

  lemma RowsD64(extension: string, size: nat)
    requires 9 <= RowOf(extension, size) < 11
    ensures RowSays(extension, size, FORMATS[RowOf(extension, size)])
  {
    hide BySize;
  }

  lemma RowsNib(extension: string, size: nat)
    requires RowOf(extension, size) == 11
    ensures RowSays(extension, size, FORMATS[RowOf(extension, size)])
  {
    hide BySize;
  }

  lemma RowsDsk(extension: string, size: nat)
    requires RowOf(extension, size) == 12
    ensures RowSays(extension, size, FORMATS[RowOf(extension, size)])
  {
  }

  lemma RowsApple(extension: string, size: nat)
    requires 13 <= RowOf(extension, size) < 15
    ensures RowSays(extension, size, FORMATS[RowOf(extension, size)])
  {
  }

  lemma RowsSt(extension: string, size: nat)
    requires RowOf(extension, size) == 15
    ensures RowSays(extension, size, FORMATS[RowOf(extension, size)])
  {
  }

  lemma RowsMsa(extension: string, size: nat)
    requires RowOf(extension, size) == 16
    ensures RowSays(extension, size, FORMATS[RowOf(extension, size)])
  {
    hide BySize;
  }

  lemma RowsBbc(extension: string, size: nat)
    requires 17 <= RowOf(extension, size) < 19
    ensures RowSays(extension, size, FORMATS[RowOf(extension, size)])
  {
    hide BySize;
  }

  lemma NoRow(extension: string, size: nat)
    requires RowOf(extension, size) < 0
    ensures !IsFluxImage(extension, size)
    ensures !IsSized(extension, size) && !IsOther(extension, size) && InNumbers(extension, size) == BySize(size)
  {
  }

  lemma UnknownDefaults()
    ensures Effective(UNKNOWN) == Geometry(80, 2, 9, 512)
  {
  }

  lemma ValidInNumbers(extension: string, size: nat, magic: bool, info: Info, origin: Origin)
    requires FromMatch(RowOf(extension, size), size, magic, info, origin) && info.valid
    ensures magic || IsSized(extension, size) || IsOther(extension, size)
    ensures Effective(info.geometry) == InNumbers(extension, size)
  {
    hide RowOf, IsDetected, BySize, InNumbers, IsSized, IsOther, Effective;
    var best := RowOf(extension, size);
    UnknownDefaults();
    if best >= 0 {
      RowInNumbers(extension, size);
      var row := FORMATS[best];
      if row.geometry.tracks < 0 {
        if row.isFlux {
          FluxStays(size, info.geometry, origin);
        } else {
          DetectedInNumbers(size, info.geometry, origin);
        }
      }
    } else {
      NoRow(extension, size);
      DetectedInNumbers(size, info.geometry, origin);
    }
  }

  lemma FluxStays(size: nat, g: Geometry, origin: Origin)
    requires IsDetected(size, true, UNKNOWN, g, origin)
    ensures g == UNKNOWN
  {
  }

  /** The search for a geometry always ends somewhere. */
  lemma {:induction false} FirstOf(sizes: seq<nat>, size: nat) returns (k: nat)
    ensures k <= |sizes| && (forall i | 0 <= i < k :: sizes[i] != size) && (k < |sizes| ==> sizes[k] == size)
    decreases |sizes|
  {
    if sizes == [] || sizes[0] == size {
      k := 0;
    } else {
      var j := FirstOf(sizes[1..], size);
      k := j + 1;
      assert forall i | 1 <= i < k :: sizes[i] == sizes[1..][i - 1];
    }
  }

  lemma DetectedExists(size: nat, isFlux: bool) returns (g: Geometry, origin: Origin)
    ensures IsDetected(size, isFlux, UNKNOWN, g, origin)
  {
    if size == 0 || isFlux { return UNKNOWN, Undetermined; }
    var sizes: seq<nat> := seq(|KNOWN_SIZES|, i requires 0 <= i < |KNOWN_SIZES| => KNOWN_SIZES[i].size);
    var k := FirstOf(sizes, size);
    if k < |KNOWN_SIZES| {
      assert forall i | 0 <= i < k :: sizes[i] == KNOWN_SIZES[i].size;
      return KNOWN_SIZES[k].geometry, FromKnownSize(k);
    }
    assert forall i | 0 <= i < |KNOWN_SIZES| :: sizes[i] == KNOWN_SIZES[i].size;
    g, origin := FallbackExists(size);
  }

  lemma FallbackExists(size: nat) returns (g: Geometry, origin: Origin)
    requires 0 < size && forall k | 0 <= k < |KNOWN_SIZES| :: KNOWN_SIZES[k].size != size
    ensures IsDetected(size, false, UNKNOWN, g, origin)
  {
    if size % 512 != 0 { return UNKNOWN, Undetermined; }
    TypicalCounts();
    var sectors: seq<nat> := seq(|TYPICAL|, i requires 0 <= i < |TYPICAL| => Sectors(TYPICAL[i]));
    hide Sectors;
    var k := FirstOf(sectors, size / 512);
    assert forall i | 0 <= i < |TYPICAL| :: sectors[i] == Sectors(TYPICAL[i]);
    if k < |TYPICAL| { return TYPICAL[k], FromFallback(k); }
    return UNKNOWN, Undetermined;
  }

  lemma TypicalCounts()
    ensures forall i | 0 <= i < |TYPICAL| :: 0 <= Sectors(TYPICAL[i])
  {
  }

  lemma ValidExists(extension: string, size: nat, magic: bool) returns (info: Info, origin: Origin)
    requires magic || RowOf(extension, size) >= 0
    ensures FromMatch(RowOf(extension, size), size, magic, info, origin) && info.valid
  {
    hide RowOf, IsDetected;
    RowInTable(extension, size);
    var best := RowOf(extension, size);
    var row := if best >= 0 then FORMATS[best].geometry else UNKNOWN;
    var isFlux := best >= 0 && FORMATS[best].isFlux;
    if row.tracks < 0 {
      if best >= 0 { RowInNumbers(extension, size); }
      assert row == UNKNOWN;
      var g;
      g, origin := DetectedExists(size, isFlux);
      info := Info(true, isFlux, g, size);
    } else {
      info, origin := Info(true, isFlux, row, size), FromFormat(best);
    }
  }

  /** Which images are accepted, and the one geometry each is verified with. */
  lemma GeometryInNumbers(extension: string, size: nat, magic: bool, g: Geometry)
    ensures IsGeometryOf(extension, size, magic, g) <==>
      (magic || IsSized(extension, size) || IsOther(extension, size)) && g == InNumbers(extension, size)
  {
    hide RowOf, IsDetected, BySize, InNumbers, IsSized, IsOther, Effective, IsBestMatch, FromMatch;
    RowIsBest(extension, size);
    if IsGeometryOf(extension, size, magic, g) {
      var info, origin :|
        IsValidation(extension, size, magic, info, origin) && info.valid && g == Effective(info.geometry);
      var best :| IsBestMatch(FORMATS, extension, size, best) && FromMatch(best, size, magic, info, origin);
      BestMatchUnique(extension, size, best, RowOf(extension, size));
      ValidInNumbers(extension, size, magic, info, origin);
    }
    if (magic || IsSized(extension, size) || IsOther(extension, size)) && g == InNumbers(extension, size) {
      if RowOf(extension, size) < 0 { NoRow(extension, size); }
      var info, origin := ValidExists(extension, size, magic);
      ValidInNumbers(extension, size, magic, info, origin);
      GeometryOf(extension, size, magic, info, origin, RowOf(extension, size));
    }
  }

  /** A sector image of fixed geometry is covered to its last byte: the sectors a faultless
      verification finds good are all the file holds. */
  lemma WholeImageRead(extension: string, size: nat, magic: bool, g: Geometry)
    requires IsSized(extension, size) && IsGeometryOf(extension, size, magic, g)
    ensures g == Sized(extension, size) && Sectors(g) * g.sectorSize == size
    ensures Min(Sectors(g), size / g.sectorSize) == Sectors(g)
  {
    hide IsGeometryOf;
    GeometryInNumbers(extension, size, magic, g);
    SizedCovers(extension, size);
  }

  lemma SizedCovers(extension: string, size: nat)
    requires IsSized(extension, size)
    ensures var g := Sized(extension, size); g.sectorSize > 0 && Sectors(g) * g.sectorSize == size
    ensures var g := Sized(extension, size); size / g.sectorSize == Sectors(g)
  {
  }

  /** Which images are taken for flux. */
  lemma FluxInNumbers(extension: string, size: nat, magic: bool, info: Info, origin: Origin)
    requires IsValidation(extension, size, magic, info, origin)
    ensures info.isFlux <==> IsFluxImage(extension, size)
  {
    hide RowOf, IsDetected, BySize, InNumbers, IsSized, IsOther, IsFluxImage, Effective, IsBestMatch;
    RowIsBest(extension, size);
    var best :| IsBestMatch(FORMATS, extension, size, best) && FromMatch(best, size, magic, info, origin);
    BestMatchUnique(extension, size, best, RowOf(extension, size));
    if best >= 0 { RowInNumbers(extension, size); } else { NoRow(extension, size); }
  }

  /** The suffixes whose images are verified as flux. */
  lemma FluxSuffixes(extension: string)
    ensures IsFluxSuffix(extension) <==> IsPlainFlux(extension) || extension == "g64" || extension == "nib"
  {
  }
}
