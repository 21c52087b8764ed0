/** The image validator: format table, geometry by known size, and the generic fallback. */
module DiskImage {
  /** -1 stands for "not known", as in the program's tables. */
  datatype Geometry = Geometry(tracks: int, heads: int, sectorsPerTrack: int, sectorSize: int)

  datatype Format = Format(extension: string, isFlux: bool, expectedSize: nat, geometry: Geometry)

  const UNKNOWN := Geometry(-1, -1, -1, -1)

  const FORMATS: seq<Format> := [
    Format("adf", false, 901120, Geometry(80, 2, 11, 512)),
    Format("adf", false, 1802240, Geometry(80, 2, 22, 512)),
    Format("scp", true, 0, UNKNOWN),
    Format("ipf", true, 0, UNKNOWN),
    Format("hfe", true, 0, UNKNOWN),
    Format("raw", true, 0, UNKNOWN),
    Format("img", false, 737280, Geometry(80, 2, 9, 512)),
    Format("img", false, 1474560, Geometry(80, 2, 18, 512)),
    Format("ima", false, 0, UNKNOWN),
    Format("d64", false, 174848, Geometry(35, 1, -1, 256)),
    Format("g64", true, 0, Geometry(42, 1, -1, -1)),
    Format("nib", true, 232960, Geometry(35, 1, -1, -1)),
    Format("dsk", false, 143360, Geometry(35, 1, 16, 256)),
    Format("do", false, 143360, Geometry(35, 1, 16, 256)),
    Format("po", false, 143360, Geometry(35, 1, 16, 256)),
    Format("st", false, 737280, Geometry(80, 2, 9, 512)),
    Format("msa", false, 0, UNKNOWN),
    Format("ssd", false, 102400, Geometry(40, 1, 10, 256)),
    Format("dsd", false, 204800, Geometry(40, 2, 10, 256))
  ]

  datatype Known = Known(size: nat, geometry: Geometry)

  const KNOWN_SIZES: seq<Known> := [
    Known(901120, Geometry(80, 2, 11, 512)),
    Known(1802240, Geometry(80, 2, 22, 512)),
    Known(163840, Geometry(40, 1, 8, 512)),
    Known(184320, Geometry(40, 1, 9, 512)),
    Known(327680, Geometry(40, 2, 8, 512)),
    Known(368640, Geometry(40, 2, 9, 512)),
    Known(737280, Geometry(80, 2, 9, 512)),
    Known(1228800, Geometry(80, 2, 15, 512)),
    Known(1474560, Geometry(80, 2, 18, 512)),
    Known(2949120, Geometry(80, 2, 36, 512)),
    Known(174848, Geometry(35, 1, 17, 256)),
    Known(175531, Geometry(35, 1, 17, 256)),
    Known(143360, Geometry(35, 1, 16, 256)),
    Known(737280, Geometry(80, 2, 9, 512)),
    Known(819200, Geometry(82, 2, 10, 512))
  ]

  /** The typical geometries the fallback tries, for 512-byte sectors. */
  const TYPICAL: seq<Geometry> := [
    Geometry(80, 2, 18, 512), Geometry(80, 2, 9, 512), Geometry(80, 1, 18, 512), Geometry(80, 1, 9, 512),
    Geometry(40, 2, 9, 512), Geometry(40, 1, 9, 512), Geometry(35, 2, 9, 512), Geometry(35, 1, 9, 512)
  ]

  datatype Info = Info(valid: bool, isFlux: bool, geometry: Geometry, fileSize: nat)

  function Sectors(g: Geometry): int { g.tracks * g.heads * g.sectorsPerTrack }

  /** Which table supplied the geometry. */
  datatype Origin = FromFormat(row: nat) | FromKnownSize(row: nat) | FromFallback(row: nat) | Undetermined

  /** The first exact-size row of the extension, or else its first row of variable size. */
  ghost predicate IsBestMatch(fs: seq<Format>, extension: string, size: nat, best: int) {
    && -1 <= best < |fs|
    && (best == -1 ==> forall i | 0 <= i < |fs| :: !Fits(fs[i], extension, size))
    && (0 <= best ==>
        && Fits(fs[best], extension, size)
        && (fs[best].expectedSize > 0 ==> forall i | 0 <= i < best :: !Exact(fs[i], extension, size))
        && (fs[best].expectedSize == 0 ==>
            && (forall i | 0 <= i < |fs| :: !Exact(fs[i], extension, size))
            && forall i | 0 <= i < best :: !Fits(fs[i], extension, size)))
  }

  predicate Exact(f: Format, extension: string, size: nat) {
    f.extension == extension && 0 < f.expectedSize == size
  }

  predicate Fits(f: Format, extension: string, size: nat) {
    f.extension == extension && (f.expectedSize == 0 || f.expectedSize == size)
  }

  method BestMatch(fs: seq<Format>, extension: string, size: nat) returns (best: int)
    ensures IsBestMatch(fs, extension, size, best)
  {
    best := -1;
    var i := 0;
    while i < |fs|
      invariant 0 <= i <= |fs| && -1 <= best < i
      invariant forall k | 0 <= k < i :: !Exact(fs[k], extension, size)
      invariant best == -1 ==> forall k | 0 <= k < i :: !Fits(fs[k], extension, size)
      invariant 0 <= best ==> fs[best].expectedSize == 0 && Fits(fs[best], extension, size)
      invariant 0 <= best ==> forall k | 0 <= k < best :: !Fits(fs[k], extension, size)
    {
      if fs[i].extension == extension {
        if fs[i].expectedSize > 0 {
          if size == fs[i].expectedSize { return i; }
        } else if best == -1 {
          best := i;
        }
      }
      i := i + 1;
    }
  }

  /** Geometry from the file size: the known sizes first, then the generic fallback. */
  method DetectGeometry(size: nat, isFlux: bool, before: Geometry) returns (g: Geometry, origin: Origin)
    ensures IsDetected(size, isFlux, before, g, origin)
  {
    g, origin := before, Undetermined;
    if size == 0 || isFlux { return; }
    var i := 0;
    while i < |KNOWN_SIZES|
      invariant 0 <= i <= |KNOWN_SIZES|
      invariant forall k | 0 <= k < i :: KNOWN_SIZES[k].size != size
    {
      if size == KNOWN_SIZES[i].size { return KNOWN_SIZES[i].geometry, FromKnownSize(i); }
      i := i + 1;
    }
    if size % 512 == 0 {
      i := 0;
      while i < |TYPICAL|
        invariant 0 <= i <= |TYPICAL|
        invariant forall k | 0 <= k < i :: Sectors(TYPICAL[k]) != size / 512
      {
        if size / 512 == TYPICAL[i].tracks * TYPICAL[i].heads * TYPICAL[i].sectorsPerTrack {
          return TYPICAL[i], FromFallback(i);
        }
        i := i + 1;
      }
    }
  }

  ghost predicate IsDetected(size: nat, isFlux: bool, before: Geometry, g: Geometry, origin: Origin) {
    match origin
    case FromFormat(_) => false
    case FromKnownSize(i) =>
      && !isFlux && i < |KNOWN_SIZES| && KNOWN_SIZES[i].size == size && g == KNOWN_SIZES[i].geometry
      && forall k | 0 <= k < i :: KNOWN_SIZES[k].size != size
    case FromFallback(i) =>
      && !isFlux && i < |TYPICAL| && size % 512 == 0 && Sectors(TYPICAL[i]) == size / 512 && g == TYPICAL[i]
      && (forall k | 0 <= k < |KNOWN_SIZES| :: KNOWN_SIZES[k].size != size)
      && forall k | 0 <= k < i :: Sectors(TYPICAL[k]) != size / 512
    case Undetermined =>
      && g == before
      && (size == 0 || isFlux ||
          ((forall k | 0 <= k < |KNOWN_SIZES| :: KNOWN_SIZES[k].size != size)
           && (size % 512 == 0 ==> forall k | 0 <= k < |TYPICAL| :: Sectors(TYPICAL[k]) != size / 512)))
  }

  /** Validation of an existing regular file; `magic` says whether its first bytes are recognised. */
  method Validate(extension: string, size: nat, magic: bool) returns (info: Info, origin: Origin)
    ensures IsValidation(extension, size, magic, info, origin)
  {
    hide IsBestMatch, IsDetected;
    var best := BestMatch(FORMATS, extension, size);
    origin := Undetermined;
    if 0 <= best {
      info := Info(true, FORMATS[best].isFlux, FORMATS[best].geometry, size);
      origin := FromFormat(best);
    } else {
      info := Info(magic, false, UNKNOWN, size);
    }
    if info.valid && info.geometry.tracks < 0 {
      var g;
      g, origin := DetectGeometry(size, info.isFlux, info.geometry);
      info := info.(geometry := g);
    }
    assert FromMatch(best, size, magic, info, origin);
  }

  /** What validation makes of a suffix, a size and recognised magic bytes: the best row of the
      format table counts; magic decides only without one; a geometry the row leaves open comes
      from the file size. */
  ghost predicate IsValidation(extension: string, size: nat, magic: bool, info: Info, origin: Origin) {
    exists best :: IsBestMatch(FORMATS, extension, size, best) && FromMatch(best, size, magic, info, origin)
  }

  ghost predicate FromMatch(best: int, size: nat, magic: bool, info: Info, origin: Origin) {
    && -1 <= best < |FORMATS|
    && info.fileSize == size
    && info.valid == (best >= 0 || magic)
    && info.isFlux == (best >= 0 && FORMATS[best].isFlux)
    && var row := if best >= 0 then FORMATS[best].geometry else UNKNOWN;
       if info.valid && row.tracks < 0 then IsDetected(size, info.isFlux, row, info.geometry, origin)
       else info.geometry == row && origin == if best >= 0 then FromFormat(best) else Undetermined
  }

  /** Only one row is the best match. */
  lemma BestMatchUnique(extension: string, size: nat, x: int, y: int)
    requires IsBestMatch(FORMATS, extension, size, x) && IsBestMatch(FORMATS, extension, size, y)
    ensures x == y
  {
  }

  lemma ValidHasOrigin(extension: string, size: nat, magic: bool, info: Info, origin: Origin)
    requires IsValidation(extension, size, magic, info, origin) && info.valid
    ensures info.fileSize == size && IsOriginOf(info, origin)
  {
    var best :| IsBestMatch(FORMATS, extension, size, best) && FromMatch(best, size, magic, info, origin);
    if 0 <= best { OpenRowsAreUnknown(best); }
  }

  lemma OpenRowsAreUnknown(i: nat)
    requires i < |FORMATS|
    ensures FORMATS[i].geometry.tracks < 0 ==> FORMATS[i].geometry == UNKNOWN && FORMATS[i].expectedSize == 0
    ensures FORMATS[i].geometry.tracks != 0
  {
  }

  /** An image is rejected exactly when no row of its suffix fits its size and its magic bytes are
      not recognised. */
  lemma InvalidIff(extension: string, size: nat, magic: bool, info: Info, origin: Origin)
    requires IsValidation(extension, size, magic, info, origin)
    ensures !info.valid <==> !magic && forall i | 0 <= i < |FORMATS| :: !Fits(FORMATS[i], extension, size)
  {
    hide IsDetected;
    var best :| IsBestMatch(FORMATS, extension, size, best) && FromMatch(best, size, magic, info, origin);
  }

  /** What the origin of a geometry says about it. */
  ghost predicate IsOriginOf(info: Info, origin: Origin) {
    match origin
    case FromFormat(i) =>
      && i < |FORMATS| && info.geometry == FORMATS[i].geometry && 0 < info.geometry.tracks
      && info.isFlux == FORMATS[i].isFlux
      && (FORMATS[i].expectedSize == 0 || FORMATS[i].expectedSize == info.fileSize)
    case FromKnownSize(i) =>
      i < |KNOWN_SIZES| && KNOWN_SIZES[i].size == info.fileSize && info.geometry == KNOWN_SIZES[i].geometry
    case FromFallback(i) =>
      && i < |TYPICAL| && info.geometry == TYPICAL[i]
      && info.fileSize % 512 == 0 && Sectors(TYPICAL[i]) == info.fileSize / 512
    case Undetermined => info.geometry == UNKNOWN
  }

  // ---------- What the tables claim ----------

  /** The bytes a geometry accounts for. */
  function Bytes(g: Geometry): int { Sectors(g) * g.sectorSize }

  /** The fallback only ever picks a geometry that accounts for the whole file. */
  lemma FallbackIsExact(info: Info, origin: Origin)
    requires IsOriginOf(info, origin) && origin.FromFallback?
    ensures Bytes(info.geometry) == info.fileSize
  {
    assert info.geometry.sectorSize == 512;
  }

  /** A known size's geometry accounts for the whole file exactly when the file is neither of the
      two D64 sizes nor the 819200-byte one; it claims more than the file holds only for the
      last. */
  lemma KnownSizeClaims(i: nat)
    requires i < |KNOWN_SIZES|
    ensures var k := KNOWN_SIZES[i];
      && (Bytes(k.geometry) == k.size <==> k.size != 174848 && k.size != 175531 && k.size != 819200)
      && (Bytes(k.geometry) <= k.size <==> k.size != 819200)
  {
  }
}
