/** The decode worker: load, verify and copy a disk image while a cancel may arrive at any moment. */
module DecodeJob {
  import opened Flags
  import opened DiskImage
  import opened Ledger

  // ---------- Signals ----------

  datatype Reason =
    | NoSource | NotFound | CancelledEarly | InvalidImage | CancelledLoading | CannotOpen | EmptyFlux
    | CancelledVerifying | SourceUnreadable | CannotCreate | WriteFailed

  datatype Status = Ok | ReadError | FluxSeen

  datatype Signal =
    | StageChanged
    | Progress(percent: int)
    | ImageInfo
    | SectorUpdate(track: int, sector: int, status: Status)
    | CancelSeen  // no signal: the copy ends on an observed cancel
    | Error(reason: Reason)
    | Finished(good: int, total: int, bad: int)

  predicate IsTerminal(s: Signal) { s.Error? || s.Finished? }

  /** What a run ends with: its terminal signal, or the cancel that takes its place. */
  predicate IsEnd(s: Signal) { IsTerminal(s) || s.CancelSeen? }

  /** Nothing that ends a run, and progress values that never fall and stay within lo..hi. */
  ghost predicate Quiet(ss: seq<Signal>, lo: int, hi: int) {
    && (forall i | 0 <= i < |ss| :: !IsEnd(ss[i]))
    && (forall i | 0 <= i < |ss| && ss[i].Progress? :: lo <= ss[i].percent <= hi)
    && forall i, j | 0 <= i < j < |ss| && ss[i].Progress? && ss[j].Progress? :: ss[i].percent <= ss[j].percent
  }

  lemma QuietAppend(a: seq<Signal>, b: seq<Signal>, lo: int, mid: int, hi: int)
    requires Quiet(a, lo, mid) && Quiet(b, mid, hi) && lo <= mid <= hi
    ensures Quiet(a + b, lo, hi)
  {
  }

  lemma QuietWider(a: seq<Signal>, lo: int, hi: int, lo': int, hi': int)
    requires Quiet(a, lo, hi) && lo' <= lo && hi <= hi'
    ensures Quiet(a, lo', hi')
  {
  }

  lemma QuietOne(s: Signal, lo: int, hi: int)
    requires !IsEnd(s) && (s.Progress? ==> lo <= s.percent <= hi)
    ensures Quiet([s], lo, hi)
  {
  }

  lemma QuietNone(p: int)
    ensures Quiet([], p, p)
  {
  }

  lemma QuietStage(p: int, lo: int, hi: int)
    requires lo <= p <= hi
    ensures Quiet([StageChanged, Progress(p)], lo, hi)
  {
  }

  /** A run that is quiet up to its end has exactly one terminal signal, or none exactly when it
      ends on a cancel. */
  predicate Ended(log: seq<Signal>) { log != [] && IsEnd(log[|log| - 1]) }

  lemma EndOfLog(log: seq<Signal>)
    requires Ended(log) && Quiet(log[..|log| - 1], 0, 100)
    ensures (forall i | 0 <= i < |log| :: !IsTerminal(log[i])) <==> CancelSeen in log
    ensures forall i | 0 <= i < |log| - 1 :: !IsTerminal(log[i])
  {
    var front, last := log[..|log| - 1], log[|log| - 1];
    assert forall k | 0 <= k < |front| :: log[k] == front[k] && !IsEnd(front[k]);
    assert CancelSeen in log ==> last == CancelSeen;
  }

  lemma OnlyEnd(log: seq<Signal>)
    requires |log| == 1 && IsEnd(log[0])
    ensures Ended(log) && Quiet(log[..|log| - 1], 0, 100)
    ensures (forall i | 0 <= i < |log| :: !IsTerminal(log[i])) <==> CancelSeen in log
    ensures forall up :: Timely(log, 0, up)
  {
  }

  // ---------- Geometry ----------

  /** The defaults that fill the unknown fields of a geometry. */
  function Effective(g: Geometry): (e: Geometry)
    ensures 0 < e.tracks && 0 < e.heads && 0 < e.sectorsPerTrack && 0 < e.sectorSize
  {
    Geometry(
      if g.tracks > 0 then g.tracks else 80,
      if g.heads > 0 then g.heads else 2,
      if g.sectorsPerTrack > 0 then g.sectorsPerTrack else 9,
      if g.sectorSize > 0 then g.sectorSize else 512)
  }

  function Min(a: int, b: int): int { if a < b then a else b }

  /** How many of the first `k` sectors lie wholly inside a file of `size` bytes. */
  function Inside(k: nat, sectorSize: nat, size: nat): nat
    requires 0 < sectorSize
  {
    if k == 0 then 0 else Inside(k - 1, sectorSize, size) + (if k * sectorSize <= size then 1 else 0)
  }

  lemma FitsIffBelowQuotient(k: nat, sectorSize: nat, size: nat)
    requires 0 < sectorSize
    ensures k * sectorSize <= size <==> k <= size / sectorSize
  {
    var q := size / sectorSize;
    assert q * sectorSize <= size < (q + 1) * sectorSize;
    assert k <= q ==> k * sectorSize <= q * sectorSize;
    assert q + 1 <= k ==> (q + 1) * sectorSize <= k * sectorSize;
  }

  lemma {:induction false} InsideIs(k: nat, sectorSize: nat, size: nat)
    requires 0 < sectorSize
    ensures Inside(k, sectorSize, size) == Min(k, size / sectorSize)
  {
    if k > 0 {
      InsideIs(k - 1, sectorSize, size);
      FitsIffBelowQuotient(k, sectorSize, size);
    }
  }

  // ---------- The source file ----------

  /** An opened source.  A fault may make any read fail; without faults a read succeeds exactly
      when the file holds all the requested bytes. */
  class SourceFile {
    const content: seq<int>
    const faultless: bool

    constructor (content: seq<int>, faultless: bool)
      ensures this.content == content && this.faultless == faultless
    {
      this.content, this.faultless := content, faultless;
    }

    method SeekAndRead(offset: nat, size: nat) returns (bytesRead: nat)
      ensures bytesRead <= size && (bytesRead > 0 ==> offset + bytesRead <= |content|)
      ensures faultless && offset + size <= |content| ==> bytesRead == size
    {
      bytesRead := if offset + size <= |content| then size else if offset <= |content| then |content| - offset else 0;
      if !faultless {
        if * { bytesRead := 0; }
      }
    }
  }

  /** What the program cannot know: which files open for the copy and how much a write takes.  The
      answers are arbitrary, or those of the one behaviour in which all goes well and the cancel
      comes on the report of 95 percent, whatever the flag's own times are. */
  class World {
    const lastMinute: bool

    constructor (lastMinute: bool)
      ensures this.lastMinute == lastMinute
    {
      this.lastMinute := lastMinute;
    }

    method Opens() returns (ok: bool)
      ensures lastMinute ==> ok
    {
      ok := true;
      if !lastMinute { ok := *; }
    }

    method Takes(n: nat) returns (wrote: int)
      ensures lastMinute ==> wrote == n
    {
      wrote := n;
      if !lastMinute { wrote := *; }
    }
  }

  /** Every sector report from entry `from` on comes before entry `up`. */
  predicate Timely(log: seq<Signal>, from: nat, up: nat) {
    forall i | from <= i < |log| && log[i].SectorUpdate? :: i < up
  }

  lemma TimelyJoin(before: seq<Signal>, log: seq<Signal>, from: nat, up: nat)
    requires before <= log && Timely(before, from, up) && Timely(log, |before|, 0)
    ensures Timely(log, from, up)
  {
    forall i | from <= i < |log| && log[i].SectorUpdate? ensures i < up {
      if i < |before| { assert log[i] == before[i]; }
    }
  }

  predicate EndsIn(log: seq<Signal>, s: Signal) { log != [] && log[|log| - 1] == s }

  predicate EndsFinished(log: seq<Signal>) { log != [] && log[|log| - 1].Finished? }

  /** The last report is the copy's 95 percent. */
  predicate NearlyDone(log: seq<Signal>) { EndsIn(log, Progress(95)) }

  /** The counters after the first `k` sectors. */
  ghost predicate Counted(src: SourceFile, sectorSize: nat, k: nat, good: nat, bad: nat)
    requires 0 < sectorSize
  {
    && good + bad == k
    && (src.faultless ==> good == Inside(k, sectorSize, |src.content|))
  }

  function Index(g: Geometry, track: nat, head: nat): nat
    requires 0 < g.heads && 0 < g.sectorsPerTrack
  {
    (track * g.heads + head) * g.sectorsPerTrack
  }

  lemma NextHead(g: Geometry, track: nat, head: nat)
    requires 0 < g.heads && 0 < g.sectorsPerTrack
    ensures Index(g, track, head) + g.sectorsPerTrack == Index(g, track, head + 1)
    ensures Index(g, track, g.heads) == Index(g, track + 1, 0)
  {
  }

  lemma TrackPercent(track: nat, tracks: nat)
    requires track < tracks
    ensures 30 <= 30 + track * 50 / tracks < 80
  {
    FitsIffBelowQuotient(50, tracks, track * 50);
  }

  lemma TrackPercentGrows(track: nat, tracks: nat)
    requires 0 < tracks
    ensures 30 + track * 50 / tracks <= 30 + (track + 1) * 50 / tracks
  {
    FitsIffBelowQuotient(track * 50 / tracks, tracks, track * 50);
    FitsIffBelowQuotient(track * 50 / tracks, tracks, (track + 1) * 50);
  }

  // ---------- What verification reports ----------

  /** The reports on the sectors of one head of a track, in order, by whether each could be read. */
  function HeadSignals(track: nat, oks: seq<bool>): (ss: seq<Signal>)
    ensures |ss| == |oks|
  {
    seq(|oks|, s requires 0 <= s < |oks| => SectorUpdate(track, s, if oks[s] then Ok else ReadError))
  }

  function TrackSignals(track: nat, hs: seq<seq<bool>>): seq<Signal> {
    if hs == [] then [] else TrackSignals(track, hs[..|hs| - 1]) + HeadSignals(track, hs[|hs| - 1])
  }

  /** Track by track, each followed by the progress it makes between 30 and 80. */
  function ImageSignals(tracks: nat, ts: seq<seq<seq<bool>>>): seq<Signal>
    requires 0 < tracks
  {
    if ts == [] then []
    else
      var k := |ts| - 1;
      ImageSignals(tracks, ts[..k]) + TrackSignals(k, ts[k]) + [Progress(30 + k * 50 / tracks)]
  }

  function FluxSignals(tracks: nat, n: nat): seq<Signal>
    requires 0 < tracks
  {
    if n == 0 then []
    else FluxSignals(tracks, n - 1) + [SectorUpdate(n - 1, 0, FluxSeen), Progress(30 + (n - 1) * 50 / tracks)]
  }

  function CountOf(oks: seq<bool>, b: bool): nat {
    if oks == [] then 0 else CountOf(oks[..|oks| - 1], b) + (if oks[|oks| - 1] == b then 1 else 0)
  }

  function InTrack(hs: seq<seq<bool>>, b: bool): nat {
    if hs == [] then 0 else InTrack(hs[..|hs| - 1], b) + CountOf(hs[|hs| - 1], b)
  }

  function InImage(ts: seq<seq<seq<bool>>>, b: bool): nat {
    if ts == [] then 0 else InImage(ts[..|ts| - 1], b) + InTrack(ts[|ts| - 1], b)
  }

  /** The answers for one head are those of the source. */
  ghost predicate HeadRead(src: SourceFile, g: Geometry, track: nat, head: nat, oks: seq<bool>)
    requires 0 < g.heads && 0 < g.sectorsPerTrack
  {
    && |oks| <= g.sectorsPerTrack
    && forall s | 0 <= s < |oks| ::
         src.faultless ==> oks[s] == ((Index(g, track, head) + s + 1) * g.sectorSize <= |src.content|)
  }

  ghost predicate TrackRead(src: SourceFile, g: Geometry, track: nat, hs: seq<seq<bool>>)
    requires 0 < g.heads && 0 < g.sectorsPerTrack
  {
    |hs| <= g.heads && forall h | 0 <= h < |hs| :: HeadRead(src, g, track, h, hs[h])
  }

  ghost predicate ImageRead(src: SourceFile, g: Geometry, ts: seq<seq<seq<bool>>>)
    requires 0 < g.heads && 0 < g.sectorsPerTrack
  {
    |ts| <= g.tracks && forall t | 0 <= t < |ts| :: TrackRead(src, g, t, ts[t])
  }

  /** Nothing is left out. */
  predicate TrackWhole(g: Geometry, hs: seq<seq<bool>>) {
    |hs| == g.heads && forall h | 0 <= h < |hs| :: |hs[h]| == g.sectorsPerTrack
  }

  predicate ImageWhole(g: Geometry, ts: seq<seq<seq<bool>>>) {
    |ts| == g.tracks && forall t | 0 <= t < |ts| :: TrackWhole(g, ts[t])
  }

  lemma HeadGrows(track: nat, oks: seq<bool>, ok: bool)
    ensures HeadSignals(track, oks + [ok])
         == HeadSignals(track, oks) + [SectorUpdate(track, |oks|, if ok then Ok else ReadError)]
    ensures forall b :: CountOf(oks + [ok], b) == CountOf(oks, b) + (if ok == b then 1 else 0)
  {
    assert (oks + [ok])[..|oks|] == oks;
  }

  lemma TrackGrows(track: nat, hs: seq<seq<bool>>, oks: seq<bool>)
    ensures TrackSignals(track, hs + [oks]) == TrackSignals(track, hs) + HeadSignals(track, oks)
    ensures forall b :: InTrack(hs + [oks], b) == InTrack(hs, b) + CountOf(oks, b)
  {
    hide HeadSignals;
    assert (hs + [oks])[..|hs|] == hs;
  }

  lemma ImageGrows(tracks: nat, ts: seq<seq<seq<bool>>>, hs: seq<seq<bool>>)
    requires 0 < tracks
    ensures ImageSignals(tracks, ts + [hs])
         == ImageSignals(tracks, ts) + TrackSignals(|ts|, hs) + [Progress(30 + |ts| * 50 / tracks)]
    ensures forall b :: InImage(ts + [hs], b) == InImage(ts, b) + InTrack(hs, b)
  {
    hide TrackSignals;
    assert (ts + [hs])[..|ts|] == ts;
  }

  lemma NothingRead()
    ensures forall track :: HeadSignals(track, []) == [] && TrackSignals(track, []) == []
    ensures forall tracks: nat | 0 < tracks :: ImageSignals(tracks, []) == []
    ensures forall b :: CountOf([], b) == 0 && InTrack([], b) == 0 && InImage([], b) == 0
  {
  }

  lemma ImageLength(src: SourceFile, g: Geometry, ts: seq<seq<seq<bool>>>)
    requires 0 < g.heads && 0 < g.sectorsPerTrack && ImageRead(src, g, ts)
    ensures |ts| <= g.tracks
  {
  }

  lemma {:induction false} TrackSilent(track: nat, hs: seq<seq<bool>>)
    ensures Silent(TrackSignals(track, hs))
    decreases |hs|
  {
    if hs != [] { TrackSilent(track, hs[..|hs| - 1]); }
  }

  /** How far the progress has come after `n` of the tracks. */
  function Reached(tracks: nat, n: nat): int
    requires 0 < tracks
  {
    if n == 0 then 30 else 30 + (n - 1) * 50 / tracks
  }

  lemma ReachedGrows(tracks: nat, n: nat)
    requires n < tracks
    ensures 30 <= Reached(tracks, n) <= Reached(tracks, n + 1) <= 80
  {
    TrackPercent(n, tracks);
    if n > 0 {
      TrackPercent(n - 1, tracks);
      TrackPercentGrows(n - 1, tracks);
    }
  }

  lemma {:induction false} ImageQuietUpTo(tracks: nat, ts: seq<seq<seq<bool>>>)
    requires 0 < tracks && |ts| <= tracks
    ensures Quiet(ImageSignals(tracks, ts), 30, Reached(tracks, |ts|)) && 30 <= Reached(tracks, |ts|) <= 80
    decreases |ts|
  {
    hide Quiet, TrackSignals, Silent, Reached;
    if ts == [] {
      QuietNone(30);
      assert Reached(tracks, 0) == 30 by { NothingReached(tracks); }
    } else {
      var n := |ts| - 1;
      ImageQuietUpTo(tracks, ts[..n]);
      TrackSilent(n, ts[n]);
      ReachedGrows(tracks, n);
      ReachedIs(tracks, n);
      SilentThenProgress(ImageSignals(tracks, ts[..n]), TrackSignals(n, ts[n]), 30 + n * 50 / tracks,
                         Reached(tracks, n));
    }
  }

  lemma NothingReached(tracks: nat)
    requires 0 < tracks
    ensures Reached(tracks, 0) == 30
  {
  }

  lemma ReachedIs(tracks: nat, n: nat)
    requires 0 < tracks
    ensures Reached(tracks, n + 1) == 30 + n * 50 / tracks
  {
  }

  lemma ImageQuiet(tracks: nat, ts: seq<seq<seq<bool>>>)
    requires 0 < tracks && |ts| <= tracks
    ensures Quiet(ImageSignals(tracks, ts), 30, 80)
  {
    hide Quiet, Reached, ImageSignals;
    ImageQuietUpTo(tracks, ts);
    QuietWider(ImageSignals(tracks, ts), 30, Reached(tracks, |ts|), 30, 80);
  }

  lemma {:induction false} FluxQuietUpTo(tracks: nat, n: nat)
    requires n <= tracks && 0 < tracks
    ensures Quiet(FluxSignals(tracks, n), 30, Reached(tracks, n)) && 30 <= Reached(tracks, n) <= 80
    decreases n
  {
    hide Quiet, Reached;
    if n == 0 {
      QuietNone(30);
      NothingReached(tracks);
    } else {
      FluxQuietUpTo(tracks, n - 1);
      ReachedGrows(tracks, n - 1);
      ReachedIs(tracks, n - 1);
      var report, pct := [SectorUpdate(n - 1, 0, FluxSeen)], 30 + (n - 1) * 50 / tracks;
      SilentThenProgress(FluxSignals(tracks, n - 1), report, pct, Reached(tracks, n - 1));
      assert FluxSignals(tracks, n) == FluxSignals(tracks, n - 1) + report + [Progress(pct)];
    }
  }

  lemma FluxQuiet(tracks: nat, n: nat)
    requires n <= tracks && 0 < tracks
    ensures Quiet(FluxSignals(tracks, n), 30, 80)
  {
    hide Quiet, Reached, FluxSignals;
    FluxQuietUpTo(tracks, n);
    QuietWider(FluxSignals(tracks, n), 30, Reached(tracks, n), 30, 80);
  }

  /** How far the copy has come, between 85 and 95. */
  function Share(written: nat, total: nat): int
    requires 0 < total
  {
    85 + written * 10 / total
  }

  function Mark(marks: seq<nat>, i: nat): nat
    requires i <= |marks|
  {
    if i == 0 then 0 else marks[i - 1]
  }

  /** Each report of the copy is the share of the bytes copied at that point, between 85 and 95; the
      marks increase by at most 64 KB. */
  ghost predicate AreShares(seg: seq<Signal>, marks: seq<nat>, total: nat) {
    |seg| == |marks| && forall i | 0 <= i < |seg| :: IsShare(seg[i], Mark(marks, i), marks[i], total)
  }

  predicate IsShare(s: Signal, before: nat, mark: nat, total: nat) {
    before < mark <= total && mark <= before + 65536 && s == Progress(Share(mark, total))
  }

  lemma SharesNone(total: nat)
    ensures AreShares([], [], total)
  {
  }

  lemma NewShare(before: nat, mark: nat, total: nat)
    requires before < mark <= total && mark <= before + 65536
    ensures IsShare(Progress(Share(mark, total)), before, mark, total)
  {
  }

  lemma SharesGrow(seg: seq<Signal>, marks: seq<nat>, mark: nat, total: nat)
    requires AreShares(seg, marks, total)
    requires Mark(marks, |marks|) < mark <= total && mark <= Mark(marks, |marks|) + 65536
    ensures AreShares(seg + [Progress(Share(mark, total))], marks + [mark], total)
  {
    hide Share, IsShare;
    NewShare(Mark(marks, |marks|), mark, total);
    var seg', marks' := seg + [Progress(Share(mark, total))], marks + [mark];
    forall i | 0 <= i < |seg'| ensures IsShare(seg'[i], Mark(marks', i), marks'[i], total) {
      assert Mark(marks', i) == Mark(marks, i);
      if i < |seg| { assert seg'[i] == seg[i] && marks'[i] == marks[i]; }
    }
  }

  /** Sector reports only. */
  ghost predicate Silent(ss: seq<Signal>) {
    forall i | 0 <= i < |ss| :: ss[i].SectorUpdate?
  }

  // ---------- The job ----------

  datatype Tally = Tally(good: int, bad: int, total: int)

  /** What loading reports. */
  function Loaded(): (ss: seq<Signal>)
    ensures |ss| == 9
  {
    [StageChanged, Progress(0), StageChanged, Progress(5), Progress(15), ImageInfo, Progress(25),
     StageChanged, Progress(30)]
  }

  /** Loading breaks off after `n` of its reports. */
  predicate BrokeOff(log: seq<Signal>, n: nat, reason: Reason) {
    n <= 9 && log == Loaded()[..n] + [Error(reason)]
  }

  lemma LoadedQuiet()
    ensures Quiet(Loaded(), 0, 30) && Timely(Loaded(), 0, 0) && !NearlyDone(Loaded())
  {
  }

  lemma BrokenQuiet(log: seq<Signal>, n: nat, reason: Reason)
    requires n <= 7 && BrokeOff(log, n, reason)
    ensures Ended(log) && Quiet(log[..|log| - 1], 0, 100) && Timely(log, 0, 0)
    ensures log[|log| - 1] == Error(reason)
  {
    assert log[..|log| - 1] == Loaded()[..n];
  }

  class DecodeJob {
    const cancel: CancelFlag
    const world: World
    var geometry: Geometry
    var result: Tally
    var files: map<string, seq<int>>
    var log: seq<Signal>

    constructor (files: map<string, seq<int>>, world: World, cancel: CancelFlag)
      ensures this.files == files && this.world == world && this.cancel == cancel && log == []
    {
      this.files, this.world, this.cancel := files, world, cancel;
      geometry, result, log := UNKNOWN, Tally(0, 0, 0), [];
    }

    method Emit(s: Signal)
      modifies this`log
      ensures log == old(log) + [s]
    {
      log := log + [s];
    }

    /** The cancel is still to come, on the report of 95 percent. */
    ghost predicate Pending()
      reads this, cancel
    {
      world.lastMinute && !cancel.raised && !NearlyDone(log)
    }

    /** The flag is not up before its time. */
    predicate Fair(possible: nat)
      reads this, cancel
    {
      !world.lastMinute && cancel.raised ==> possible <= |log|
    }

    /** No sector was looked at, from entry `from` on, once the flag was up for certain. */
    predicate InTime(from: nat, certain: nat)
      reads this
    {
      world.lastMinute || Timely(log, from, certain)
    }

    method IsCancelled() returns (seen: bool)
      modifies cancel
      ensures old(cancel.raised) ==> cancel.raised
      ensures seen == cancel.raised
      ensures world.lastMinute && !old(cancel.raised) ==> cancel.raised == NearlyDone(log)
      ensures Fair(old(cancel.Possible())) && (!world.lastMinute && !cancel.raised ==> |log| < old(cancel.Certain()))
    {
      if world.lastMinute {
        if NearlyDone(log) { cancel.Raise(); }
        seen := cancel.raised;
      } else {
        seen := cancel.Poll(|log|);
      }
    }

    /** The sector loop of one head. */
    method VerifyHead(src: SourceFile, g: Geometry, track: nat, head: nat, good0: nat, bad0: nat)
      returns (good: nat, bad: nat, ghost oks: seq<bool>)
      requires 0 < g.heads && 0 < g.sectorsPerTrack && 0 < g.sectorSize
      requires !cancel.raised ==> Counted(src, g.sectorSize, Index(g, track, head), good0, bad0)
      modifies this`log, cancel
      ensures old(cancel.raised) ==> cancel.raised
      ensures !cancel.raised ==> Counted(src, g.sectorSize, Index(g, track, head + 1), good, bad)
      ensures Fair(old(cancel.Possible())) && InTime(|old(log)|, old(cancel.Certain()))
      ensures old(Pending()) ==> Pending()
      ensures log == old(log) + HeadSignals(track, oks) && HeadRead(src, g, track, head, oks)
      ensures good == good0 + CountOf(oks, true) && bad == bad0 + CountOf(oks, false)
      ensures !cancel.raised ==> |oks| == g.sectorsPerTrack
    {
      hide HeadSignals, CountOf, Index;
      good, bad, oks := good0, bad0, [];
      NothingRead();
      var sector, running := 0, true;
      while sector < g.sectorsPerTrack && running
        invariant 0 <= sector == |oks| <= g.sectorsPerTrack
        invariant old(cancel.raised) ==> cancel.raised
        invariant !cancel.raised ==> running && Counted(src, g.sectorSize, Index(g, track, head) + sector, good, bad)
        invariant Fair(old(cancel.Possible())) && InTime(|old(log)|, old(cancel.Certain()))
        invariant old(Pending()) ==> Pending()
        invariant log == old(log) + HeadSignals(track, oks) && HeadRead(src, g, track, head, oks)
        invariant good == good0 + CountOf(oks, true) && bad == bad0 + CountOf(oks, false)
        decreases g.sectorsPerTrack - sector, running
      {
        var seen := IsCancelled();
        if seen {
          running := false;
        } else {
          var ok := ReadOne(src, g, Index(g, track, head) + sector);
          if ok { good := good + 1; } else { bad := bad + 1; }
          HeadGrows(track, oks, ok);
          Emit(SectorUpdate(track, sector, if ok then Ok else ReadError));
          oks := oks + [ok];
          sector := sector + 1;
        }
      }
      NextHead(g, track, head);
    }

    /** Sector `k` is good when all its bytes could be read. */
    method ReadOne(src: SourceFile, g: Geometry, k: nat) returns (ok: bool)
      requires 0 < g.sectorSize
      ensures src.faultless ==> (ok <==> (k + 1) * g.sectorSize <= |src.content|)
    {
      assert (k + 1) * g.sectorSize == k * g.sectorSize + g.sectorSize;
      var bytesRead := src.SeekAndRead(k * g.sectorSize, g.sectorSize);
      ok := bytesRead == g.sectorSize;
    }

    method VerifyTrack(src: SourceFile, g: Geometry, track: nat, good0: nat, bad0: nat)
      returns (good: nat, bad: nat, ghost hs: seq<seq<bool>>)
      requires 0 < g.heads && 0 < g.sectorsPerTrack && 0 < g.sectorSize
      requires !cancel.raised ==> Counted(src, g.sectorSize, Index(g, track, 0), good0, bad0)
      modifies this`log, cancel
      ensures old(cancel.raised) ==> cancel.raised
      ensures !cancel.raised ==> Counted(src, g.sectorSize, Index(g, track + 1, 0), good, bad)
      ensures Fair(old(cancel.Possible())) && InTime(|old(log)|, old(cancel.Certain()))
      ensures old(Pending()) ==> Pending()
      ensures log == old(log) + TrackSignals(track, hs) && TrackRead(src, g, track, hs)
      ensures good == good0 + InTrack(hs, true) && bad == bad0 + InTrack(hs, false)
      ensures !cancel.raised ==> TrackWhole(g, hs)
    {
      hide Index, HeadSignals, TrackSignals, HeadRead, CountOf, InTrack;
      good, bad, hs := good0, bad0, [];
      NothingRead();
      var head, running := 0, true;
      while head < g.heads && running
        invariant 0 <= head == |hs| <= g.heads
        invariant old(cancel.raised) ==> cancel.raised
        invariant !cancel.raised ==> running && Counted(src, g.sectorSize, Index(g, track, head), good, bad)
        invariant Fair(old(cancel.Possible())) && InTime(|old(log)|, old(cancel.Certain()))
        invariant old(Pending()) ==> Pending()
        invariant log == old(log) + TrackSignals(track, hs) && TrackRead(src, g, track, hs)
        invariant good == good0 + InTrack(hs, true) && bad == bad0 + InTrack(hs, false)
        invariant !cancel.raised ==> forall h | 0 <= h < |hs| :: |hs[h]| == g.sectorsPerTrack
        decreases g.heads - head, running
      {
        var seen := IsCancelled();
        if seen {
          running := false;
        } else {
          ghost var oks;
          good, bad, oks := VerifyHead(src, g, track, head, good, bad);
          TrackGrows(track, hs, oks);
          hs := hs + [oks];
          head := head + 1;
        }
      }
      NextHead(g, track, 0);
    }

    /** The track loop of the sector branch. */
    method VerifyTracks(src: SourceFile, g: Geometry)
      returns (good: nat, bad: nat, ghost ts: seq<seq<seq<bool>>>)
      requires 0 < g.tracks && 0 < g.heads && 0 < g.sectorsPerTrack && 0 < g.sectorSize
      modifies this`log, cancel
      ensures old(cancel.raised) ==> cancel.raised
      ensures !cancel.raised ==> Counted(src, g.sectorSize, Index(g, g.tracks, 0), good, bad)
      ensures Fair(old(cancel.Possible())) && InTime(|old(log)|, old(cancel.Certain()))
      ensures old(Pending()) ==> Pending()
      ensures log == old(log) + ImageSignals(g.tracks, ts) && ImageRead(src, g, ts)
      ensures good == InImage(ts, true) && bad == InImage(ts, false)
      ensures !cancel.raised ==> ImageWhole(g, ts)
    {
      hide Index, Inside, TrackSignals, ImageSignals, TrackRead, TrackWhole, InTrack, InImage;
      good, bad, ts := 0, 0, [];
      IndexZero(g, src, |src.content|);
      NothingRead();
      var track, running := 0, true;
      while track < g.tracks && running
        invariant 0 <= track == |ts| <= g.tracks
        invariant old(cancel.raised) ==> cancel.raised
        invariant !cancel.raised ==> running && Counted(src, g.sectorSize, Index(g, track, 0), good, bad)
        invariant Fair(old(cancel.Possible())) && InTime(|old(log)|, old(cancel.Certain()))
        invariant old(Pending()) ==> Pending()
        invariant log == old(log) + ImageSignals(g.tracks, ts) && ImageRead(src, g, ts)
        invariant good == InImage(ts, true) && bad == InImage(ts, false)
        invariant !cancel.raised ==> forall t | 0 <= t < |ts| :: TrackWhole(g, ts[t])
        decreases g.tracks - track, running
      {
        var seen := IsCancelled();
        if seen {
          running := false;
        } else {
          ghost var hs;
          good, bad, hs := VerifyTrack(src, g, track, good, bad);
          TrackPercent(track, g.tracks);
          Emit(Progress(30 + track * 50 / g.tracks));
          ImageGrows(g.tracks, ts, hs);
          ts := ts + [hs];
          track := track + 1;
        }
      }
    }

    /** The flux branch: no sector can be checked, so all are reported as they are claimed. */
    method ShowFluxTracks(g: Geometry) returns (ghost n: nat)
      requires 0 < g.tracks
      modifies this`log, cancel
      ensures old(cancel.raised) ==> cancel.raised
      ensures Fair(old(cancel.Possible())) && InTime(|old(log)|, old(cancel.Certain()))
      ensures old(Pending()) ==> Pending()
      ensures n <= g.tracks && log == old(log) + FluxSignals(g.tracks, n)
      ensures !cancel.raised ==> n == g.tracks
    {
      var track, running := 0, true;
      while track < g.tracks && running
        invariant 0 <= track <= g.tracks
        invariant old(cancel.raised) ==> cancel.raised
        invariant !cancel.raised ==> running
        invariant Fair(old(cancel.Possible())) && InTime(|old(log)|, old(cancel.Certain()))
        invariant old(Pending()) ==> Pending()
        invariant log == old(log) + FluxSignals(g.tracks, track)
        decreases g.tracks - track, running
      {
        var seen := IsCancelled();
        if seen {
          running := false;
        } else {
          TrackPercent(track, g.tracks);
          Emit(SectorUpdate(track, 0, FluxSeen));
          Emit(Progress(30 + track * 50 / g.tracks));
          track := track + 1;
        }
      }
      n := track;
    }

    /** Why verification fails. */
    function VerifyFailure(content: seq<int>, isFlux: bool, canOpen: bool): Reason {
      if !canOpen then CannotOpen else if isFlux && content == [] then EmptyFlux else CancelledVerifying
    }

    /** Verification.  On success the counters are final: nothing was cut short, and they count the
        reports, one for each sector. */
    method VerifySectors(src: SourceFile, isFlux: bool, canOpen: bool)
      returns (ok: bool, ghost seg: seq<Signal>, ghost ts: seq<seq<seq<bool>>>)
      requires 0 < geometry.tracks && 0 < geometry.heads && 0 < geometry.sectorsPerTrack && 0 < geometry.sectorSize
      requires result.total == Index(geometry, geometry.tracks, 0)
      modifies this`log, this`result, cancel
      ensures old(cancel.raised) ==> cancel.raised
      ensures Fair(old(cancel.Possible())) && InTime(|old(log)|, old(cancel.Certain()))
      ensures old(Pending()) ==> !cancel.raised && (ok ==> Pending())
      ensures result.total == old(result.total)
      ensures ok ==> log == old(log) + seg && Quiet(seg, 30, 80) && !cancel.raised
      ensures ok && !isFlux ==>
        && ImageWhole(geometry, ts) && ImageRead(src, geometry, ts)
        && seg == ImageSignals(geometry.tracks, ts) + [Progress(80)]
        && result.good == InImage(ts, true) && result.bad == InImage(ts, false)
      ensures ok && isFlux ==> seg == [StageChanged] + FluxSignals(geometry.tracks, geometry.tracks) + [Progress(80)]
      ensures !ok ==> Quiet(seg, 30, 80) && log == old(log) + seg + [Error(VerifyFailure(src.content, isFlux, canOpen))]
      ensures !ok && canOpen && (isFlux ==> src.content != []) ==> cancel.raised
      ensures ok ==> canOpen && (isFlux ==> src.content != [])
      ensures ok && isFlux ==> result.good == result.total && result.bad == 0
      ensures ok && !isFlux ==> result.good + result.bad == result.total
      ensures ok && !isFlux && src.faultless ==>
        result.good == Min(result.total, |src.content| / geometry.sectorSize)
    {
      hide Index, Inside, ImageSignals, ImageRead, ImageWhole, FluxSignals, InImage, Quiet;
      seg, ts := [], [];
      QuietNone(30);
      QuietWider([], 30, 30, 30, 80);
      if !canOpen {
        Emit(Error(CannotOpen));
        ok := false;
      } else if isFlux {
        ok, seg := VerifyFlux(src);
      } else {
        ok, seg, ts := VerifyImage(src);
      }
    }

    method VerifyFlux(src: SourceFile) returns (ok: bool, ghost seg: seq<Signal>)
      requires 0 < geometry.tracks
      modifies this`log, this`result, cancel
      ensures old(cancel.raised) ==> cancel.raised
      ensures Fair(old(cancel.Possible())) && InTime(|old(log)|, old(cancel.Certain()))
      ensures old(Pending()) ==> !cancel.raised && (ok ==> Pending())
      ensures result.total == old(result.total)
      ensures Quiet(seg, 30, 80)
      ensures ok ==> log == old(log) + seg && !cancel.raised && src.content != []
      ensures ok ==> seg == [StageChanged] + FluxSignals(geometry.tracks, geometry.tracks) + [Progress(80)]
      ensures ok ==> result.good == result.total && result.bad == 0
      ensures !ok ==> log == old(log) + seg + [Error(if src.content == [] then EmptyFlux else CancelledVerifying)]
      ensures !ok && src.content != [] ==> cancel.raised
    {
      hide FluxSignals, Quiet;
      QuietOne(StageChanged, 30, 30);
      QuietWider([StageChanged], 30, 30, 30, 80);
      Emit(StageChanged);
      seg := [StageChanged];
      if src.content == [] {
        Emit(Error(EmptyFlux));
        return false, seg;
      }
      result := result.(good := result.total, bad := 0);
      ghost var n := ShowFluxTracks(geometry);
      FluxQuiet(geometry.tracks, n);
      QuietAppend(seg, FluxSignals(geometry.tracks, n), 30, 30, 80);
      seg := seg + FluxSignals(geometry.tracks, n);
      ok := Conclude(seg);
      if ok {
        QuietOne(Progress(80), 80, 80);
        QuietAppend(seg, [Progress(80)], 30, 80, 80);
        seg := seg + [Progress(80)];
      }
    }

    method VerifyImage(src: SourceFile)
      returns (ok: bool, ghost seg: seq<Signal>, ghost ts: seq<seq<seq<bool>>>)
      requires 0 < geometry.tracks && 0 < geometry.heads && 0 < geometry.sectorsPerTrack && 0 < geometry.sectorSize
      requires result.total == Index(geometry, geometry.tracks, 0)
      modifies this`log, this`result, cancel
      ensures old(cancel.raised) ==> cancel.raised
      ensures Fair(old(cancel.Possible())) && InTime(|old(log)|, old(cancel.Certain()))
      ensures old(Pending()) ==> !cancel.raised && (ok ==> Pending())
      ensures result.total == old(result.total)
      ensures Quiet(seg, 30, 80)
      ensures ok ==> log == old(log) + seg && !cancel.raised
      ensures ok ==>
        && ImageWhole(geometry, ts) && ImageRead(src, geometry, ts)
        && seg == ImageSignals(geometry.tracks, ts) + [Progress(80)]
        && result.good == InImage(ts, true) && result.bad == InImage(ts, false)
      ensures ok ==> result.good + result.bad == result.total
      ensures ok && src.faultless ==> result.good == Min(result.total, |src.content| / geometry.sectorSize)
      ensures !ok ==> cancel.raised && log == old(log) + seg + [Error(CancelledVerifying)]
    {
      hide Index, Inside, ImageSignals, ImageRead, ImageWhole, InImage, Quiet;
      var good, bad;
      good, bad, ts := VerifyTracks(src, geometry);
      result := result.(good := good, bad := bad);
      seg := ImageSignals(geometry.tracks, ts);
      ImageLength(src, geometry, ts);
      ImageQuiet(geometry.tracks, ts);
      ok := Conclude(seg);
      if ok {
        QuietOne(Progress(80), 80, 80);
        QuietAppend(seg, [Progress(80)], 30, 80, 80);
        seg := seg + [Progress(80)];
        InsideIs(result.total, geometry.sectorSize, |src.content|);
      }
    }

    /** The check that no cancel arrived before the counters were complete. */
    method Conclude(ghost seg: seq<Signal>) returns (ok: bool)
      modifies this`log, cancel
      ensures old(cancel.raised) ==> cancel.raised
      ensures Fair(old(cancel.Possible())) && InTime(|old(log)|, 0)
      ensures ok && !world.lastMinute ==> |old(log)| < old(cancel.Certain())
      ensures old(Pending()) ==> Pending() && ok
      ensures ok ==> !cancel.raised && log == old(log) + [Progress(80)]
      ensures !ok ==> cancel.raised && log == old(log) + [Error(CancelledVerifying)]
    {
      var seen := IsCancelled();
      if seen {
        Emit(Error(CancelledVerifying));
        return false;
      }
      Emit(Progress(80));
      ok := true;
    }

    /** The copy.  Each read returns at least one and at most 65536 of the remaining bytes; each
        write may fail or be short. */
    method ConvertImage(source: string, dest: string, canRemove: bool) returns (ok: bool, ghost seg: seq<Signal>)
      requires source in files
      modifies this`log, this`files, cancel
      ensures old(cancel.raised) ==> cancel.raised
      ensures Fair(old(cancel.Possible())) && InTime(|old(log)|, 0)
      ensures ok && !world.lastMinute ==> |log| <= old(cancel.Certain())
      ensures old(Pending()) && dest != source && old(files)[source] != [] ==> !ok && EndsIn(log, CancelSeen)
      ensures Quiet(seg, 85, 95)
      ensures ok ==> log == old(log) + seg && files == Copied(old(files), source, dest)
      ensures !ok ==> Ended(log) && log == old(log) + seg + [log[|log| - 1]]
      ensures !ok ==> CopyFailed(old(files), source, dest, canRemove, log[|log| - 1], cancel.raised, files)
    {
      hide Quiet, Copied, Discarded;
      Emit(Progress(85));
      seg := [Progress(85)];
      QuietOne(Progress(85), 85, 95);
      var sourceOpens := world.Opens();
      if !sourceOpens { Emit(Error(SourceUnreadable)); return false, seg; }
      var destOpens := world.Opens();
      if !destOpens { Emit(Error(CannotCreate)); return false, seg; }
      ghost var more;
      ok, more := CopyOpened(source, dest, canRemove);
      QuietOne(Progress(85), 85, 85);
      QuietAppend(seg, more, 85, 85, 95);
      seg := seg + more;
    }

    /** The copy once both files are open. */
    method CopyOpened(source: string, dest: string, canRemove: bool) returns (ok: bool, ghost seg: seq<Signal>)
      requires source in files
      modifies this`log, this`files, cancel
      ensures old(cancel.raised) ==> cancel.raised
      ensures Fair(old(cancel.Possible())) && InTime(|old(log)|, 0)
      ensures ok && !world.lastMinute ==> |log| <= old(cancel.Certain())
      ensures old(Pending()) && dest != source && old(files)[source] != [] ==>
        !ok && EndsIn(log, CancelSeen)
      ensures Quiet(seg, 85, 95)
      ensures ok ==> log == old(log) + seg && files == Copied(old(files), source, dest)
      ensures !ok ==> log != [] && log == old(log) + seg + [log[|log| - 1]]
      ensures !ok ==> log[|log| - 1] == Error(WriteFailed) || (log[|log| - 1] == CancelSeen && cancel.raised)
      ensures !ok ==> Discarded(old(files), source, dest, canRemove, files)
    {
      hide Quiet, AreShares, Share, Mark;
      files := files[dest := []];
      var failed;
      ghost var marks;
      failed, seg, marks := CopyChunks(source, dest);
      DropDest(old(files), dest, files[dest], files);
      if failed {
        if canRemove { files := files - {dest}; }
        Emit(Error(WriteFailed));
        return false, seg;
      }
      var seen := IsCancelled();
      if seen {
        if canRemove { files := files - {dest}; }
        Emit(CancelSeen);
        return false, seg;
      }
      Emit(Progress(95));
      QuietOne(Progress(95), 95, 95);
      QuietAppend(seg, [Progress(95)], 85, 95, 95);
      seg := seg + [Progress(95)];
      ok := true;
    }

    predicate CopiesSomething(before: map<string, seq<int>>, source: string, dest: string) {
      source != "" && source in before && before[source] != [] && dest != "" && dest != source
    }

    /** The files after a full copy; copying a file onto itself empties it when it is opened. */
    function Copied(before: map<string, seq<int>>, source: string, dest: string): map<string, seq<int>>
      requires source in before
    {
      before[dest := if dest == source then [] else before[source]]
    }

    /** The files after a broken copy: no destination, or, if it cannot be removed, the first bytes
        of the source. */
    predicate Discarded(before: map<string, seq<int>>, source: string, dest: string, canRemove: bool,
                        after: map<string, seq<int>>)
      requires source in before
    {
      if canRemove then after == before - {dest}
      else dest in after && after[dest] <= before[source] && after == before[dest := after[dest]]
    }

    /** The files after a copy that failed: a short write and an observed cancel discard the
        destination; the other failures come before it is touched.  No other file changes. */
    predicate CopyFailed(before: map<string, seq<int>>, source: string, dest: string, canRemove: bool, end: Signal,
                         raised: bool, after: map<string, seq<int>>)
    {
      match end
      case Error(WriteFailed) => source in before && Discarded(before, source, dest, canRemove, after)
      case CancelSeen => raised && source in before && Discarded(before, source, dest, canRemove, after)
      case Error(SourceUnreadable) => after == before
      case Error(CannotCreate) => after == before
      case _ => false
    }

    method CopyChunks(source: string, dest: string)
      returns (failed: bool, ghost seg: seq<Signal>, ghost marks: seq<nat>)
      requires source in files && dest in files && files[dest] == []
      modifies this`log, this`files, cancel
      ensures old(cancel.raised) ==> cancel.raised
      ensures dest in files && files == old(files)[dest := files[dest]]
      ensures files[dest] <= old(files[source])
      ensures !failed && !cancel.raised ==> files[dest] == old(files[source])
      ensures Fair(old(cancel.Possible())) && InTime(|old(log)|, 0)
      ensures old(Pending()) && old(files[source]) != [] ==> !failed && !cancel.raised && NearlyDone(log)
      ensures marks != [] && !world.lastMinute ==> |log| <= old(cancel.Certain())
      ensures AreShares(seg, marks, |old(files[source])|)
      ensures !failed && files[dest] != [] ==> marks != [] && marks[|marks| - 1] == |files[dest]|
      ensures log == old(log) + seg && Quiet(seg, 85, 95)
    {
      hide Quiet, NearlyDone, AreShares, Share;
      SharesNone(|files[source]|);
      if files[source] != [] { CopyPercent(0, 0, |files[source]|); }
      ghost var content := files[source];
      var total := |files[source]|;
      var written, running := 0, true;
      failed, seg, marks := false, [], [];
      ghost var reached := 85;
      QuietNone(85);
      while written < total && running && !failed
        invariant 0 <= written <= total == |content|
        invariant old(cancel.raised) ==> cancel.raised
        invariant dest in files && files == old(files)[dest := files[dest]]
        invariant !failed ==> files[dest] == content[..written]
        invariant files[dest] <= content
        invariant source != dest || total == 0
        invariant !cancel.raised ==> running
        invariant Fair(old(cancel.Possible())) && InTime(|old(log)|, 0)
        invariant old(Pending()) && 0 < total ==>
          !failed && !cancel.raised && running && NearlyDone(log) == (written == total)
        invariant marks != [] && !world.lastMinute ==> |log| <= old(cancel.Certain())
        invariant AreShares(seg, marks, total)
        invariant Mark(marks, |marks|) == written
        invariant log == old(log) + seg && Quiet(seg, 85, reached)
        invariant 85 <= reached <= 95 && (0 < total ==> reached <= Share(written, total))
        decreases total - written, running, !failed
      {
        var seen := IsCancelled();
        if seen {
          running := false;
        } else {
          var before := written;
          failed, written := CopyChunk(source, dest, written, total);
          if !failed {
            CopyPercent(before, written, total);
            var pct := Share(written, total);
            Emit(Progress(pct));
            LastReport(log, pct, written, total);
            QuietOne(Progress(pct), reached, pct);
            QuietAppend(seg, [Progress(pct)], 85, reached, pct);
            SharesGrow(seg, marks, written, total);
            seg, marks := seg + [Progress(pct)], marks + [written];
            reached := pct;
          }
        }
      }
      QuietWider(seg, 85, reached, 85, 95);
    }

    /** One read and one write. */
    method CopyChunk(source: string, dest: string, written: nat, total: nat) returns (failed: bool, after: nat)
      requires source in files && dest in files && source != dest
      requires written < total == |files[source]| && files[dest] == files[source][..written]
      modifies this`files
      ensures dest in files && files == old(files)[dest := files[dest]] && files[dest] <= old(files[source])
      ensures failed ==> after == written
      ensures !failed ==> written < after <= total && after <= written + 65536
      ensures !failed ==> files[dest] == old(files[source])[..after]
      ensures world.lastMinute ==> !failed
    {
      var n := NextChunk(total - written);
      var buffer := files[source][written..written + n];
      assert files[source][..written] + buffer == files[source][..written + n];
      var wrote := world.Takes(n);
      if wrote != n {
        var partial :| 0 <= partial <= n;
        assert files[source][..written] + buffer[..partial] == files[source][..written + partial];
        files := files[dest := files[dest] + buffer[..partial]];
        return true, written;
      }
      files := files[dest := files[dest] + buffer];
      return false, written + n;
    }

    method NextChunk(remaining: nat) returns (n: nat)
      requires 0 < remaining
      ensures 1 <= n <= Min(remaining, 65536)
    {
      n :| 1 <= n <= Min(remaining, 65536);
    }

    /** Loading: validate, fill the unknown geometry, claim the sector count. */
    method LoadImage(size: nat, extension: string, magic: bool) returns (ok: bool)
      modifies this`log, this`geometry, this`result
      ensures ok ==> log == old(log) + [Progress(15), ImageInfo, Progress(25)]
      ensures !ok ==> log == old(log) + [Error(InvalidImage)] && Unrecognised(extension, size, magic)
      ensures ok ==>
        0 < geometry.tracks && 0 < geometry.heads && 0 < geometry.sectorsPerTrack && 0 < geometry.sectorSize
      ensures ok ==> IsGeometryOf(extension, size, magic, geometry)
      ensures ok ==> result.total == Sectors(geometry)
    {
      hide IsValidation;
      var info, origin := Validate(extension, size, magic);
      InvalidIff(extension, size, magic, info, origin);
      if !info.valid {
        Emit(Error(InvalidImage));
        return false;
      }
      Emit(Progress(15));
      geometry := Effective(info.geometry);
      result := result.(total := geometry.tracks * geometry.heads * geometry.sectorsPerTrack);
      Emit(ImageInfo);
      Emit(Progress(25));
      ok := true;
    }

    /** The whole job on a source with the given name, suffix and magic bytes.  `Concluded` says
        what the last event stands for, whatever it is. */
    method RunJob(source: string, dest: string, extension: string, magic: bool, faultless: bool, canOpen: bool,
                  canRemove: bool)
      requires log == []
      modifies this`log, this`files, this`geometry, this`result, cancel
      ensures old(cancel.raised) ==> cancel.raised
      ensures Ended(log) && Quiet(log[..|log| - 1], 0, 100)
      ensures (forall i | 0 <= i < |log| :: !IsTerminal(log[i])) <==> CancelSeen in log
      ensures world.lastMinute && !old(cancel.raised) && canOpen && CopiesSomething(old(files), source, dest) ==>
        Unrecognised(extension, |old(files)[source]|, magic) || EndsIn(log, CancelSeen)
      ensures Fair(old(cancel.Possible())) && InTime(|old(log)|, old(cancel.Certain()))
      ensures EndsFinished(log) && !world.lastMinute ==> |log| < old(cancel.Certain()) + 5
      ensures source != "" && source in old(files) && old(cancel.Certain()) <= 2 && !world.lastMinute ==>
        EndsIn(log, Error(CancelledEarly))
      ensures Concluded(old(files), source, dest, extension, magic, faultless, canOpen, canRemove)
    {
      hide Sectors, IsFluxSuffix, Quiet, Ended, IsGeometryOf, Unrecognised, HoldsItsGeometry, NearlyDone,
        Discarded, Copied, Timely;
      NothingReported(log);
      if source == "" {
        Emit(Error(NoSource));
        OnlyEnd(log);
        return;
      }
      if source !in files {
        Emit(Error(NotFound));
        OnlyEnd(log);
        return;
      }
      Work(source, dest, extension, magic, faultless, canOpen, canRemove);
    }

    /** The job once its source is known to be there. */
    method Work(source: string, dest: string, extension: string, magic: bool, faultless: bool, canOpen: bool,
                canRemove: bool)
      requires log == [] && source != "" && source in files
      modifies this`log, this`files, this`geometry, this`result, cancel
      ensures old(cancel.raised) ==> cancel.raised
      ensures Ended(log) && Quiet(log[..|log| - 1], 0, 100)
      ensures (forall i | 0 <= i < |log| :: !IsTerminal(log[i])) <==> CancelSeen in log
      ensures world.lastMinute && !old(cancel.raised) && canOpen && CopiesSomething(old(files), source, dest) ==>
        Unrecognised(extension, |old(files)[source]|, magic) || EndsIn(log, CancelSeen)
      ensures Fair(old(cancel.Possible())) && InTime(|old(log)|, old(cancel.Certain()))
      ensures EndsFinished(log) && !world.lastMinute ==> |log| < old(cancel.Certain()) + 5
      ensures source != "" && source in old(files) && old(cancel.Certain()) <= 2 && !world.lastMinute ==>
        EndsIn(log, Error(CancelledEarly))
      ensures Concluded(old(files), source, dest, extension, magic, faultless, canOpen, canRemove)
    {
      hide Sectors, IsFluxSuffix, Quiet, Ended, IsGeometryOf, Unrecognised, HoldsItsGeometry, NearlyDone,
        Discarded, Copied, Timely, Loaded, BrokeOff;
      NothingReported(log);
      var ok := LoadPhase(|files[source]|, extension, magic);
      LoadedQuiet();
      TimelySooner(Loaded(), 0, 0, old(cancel.Certain()));
      if ok {
        var src := new SourceFile(files[source], faultless);
        VerifyAndCopy(src, source, dest, IsFluxSuffix(extension), canOpen, canRemove);
        if !world.lastMinute { TimelyBehind(Loaded(), log, old(cancel.Certain())); }
        BadSectorsIff(extension, |old(files)[source]|, magic, geometry);
      } else {
        BrokenOff(log, old(cancel.Certain()));
      }
      EndOfLog(log);
    }

    /** What a run has done when it ends: why it failed, or that it succeeded in full; and what
        became of the files.  `finished` leaves the destination a copy; a short write or an
        observed cancel removes it if it can be removed; nothing else ever changes. */
    ghost predicate Concluded(before: map<string, seq<int>>, source: string, dest: string, extension: string,
                              magic: bool, faultless: bool, canOpen: bool, canRemove: bool)
      reads this, cancel
      requires Ended(log)
    {
      match log[|log| - 1]
      case Finished(good, total, bad) =>
        && source in before
        && (good, total, bad) == (result.good, result.total, result.bad)
        && Honest(extension, |before[source]|, magic, faultless)
        && files == if dest == "" then before else Copied(before, source, dest)
      case Error(NoSource) => source == "" && files == before
      case Error(NotFound) => source !in before && files == before
      case Error(InvalidImage) =>
        source in before && Unrecognised(extension, |before[source]|, magic) && files == before
      case Error(CannotOpen) => source in before && !canOpen && files == before
      case Error(EmptyFlux) => source in before && IsFluxSuffix(extension) && before[source] == [] && files == before
      case Error(CancelledEarly) => cancel.raised && files == before
      case Error(CancelledLoading) => cancel.raised && files == before
      case Error(CancelledVerifying) => cancel.raised && files == before
      case end => dest != "" && CopyFailed(before, source, dest, canRemove, end, cancel.raised, files)
    }

    /** Phase one, which reports exactly `Loaded` or breaks off on the way. */
    method LoadPhase(size: nat, extension: string, magic: bool) returns (ok: bool)
      requires log == []
      modifies this`log, this`geometry, this`result, cancel
      ensures old(cancel.raised) ==> cancel.raised
      ensures Fair(old(cancel.Possible())) && (ok ==> !cancel.raised)
      ensures old(cancel.Certain()) <= 2 && !world.lastMinute ==> BrokeOff(log, 2, CancelledEarly)
      ensures old(Pending()) ==> !cancel.raised && (ok || BrokeOff(log, 4, InvalidImage))
      ensures ok && !world.lastMinute ==> 2 < old(cancel.Certain())
      ensures ok ==> log == Loaded()
      ensures !ok ==>
        || (BrokeOff(log, 4, InvalidImage) && Unrecognised(extension, size, magic))
        || (BrokeOff(log, 2, CancelledEarly) && cancel.raised)
        || (BrokeOff(log, 7, CancelledLoading) && cancel.raised)
      ensures ok ==>
        0 < geometry.tracks && 0 < geometry.heads && 0 < geometry.sectorsPerTrack && 0 < geometry.sectorSize
      ensures ok ==> IsGeometryOf(extension, size, magic, geometry)
      ensures ok ==> result.total == Sectors(geometry)
    {
      hide Sectors, IsGeometryOf, Unrecognised;
      Emit(StageChanged);
      Emit(Progress(0));
      var seen := IsCancelled();
      if seen {
        Emit(Error(CancelledEarly));
        return false;
      }
      Emit(StageChanged);
      Emit(Progress(5));
      assert log == Loaded()[..4];
      ok := LoadImage(size, extension, magic);
      if !ok { return; }
      seen := IsCancelled();
      if seen {
        Emit(Error(CancelledLoading));
        return false;
      }
      Emit(StageChanged);
      Emit(Progress(30));
    }

    /** What the counters of a finished job are worth. */
    ghost predicate Honest(extension: string, size: nat, magic: bool, faultless: bool)
      reads this
    {
      && 0 < geometry.sectorSize
      && IsGeometryOf(extension, size, magic, geometry)
      && result.total == Sectors(geometry)
      && result.good + result.bad == result.total
      && (IsFluxSuffix(extension) ==> result.bad == 0)
      && (!IsFluxSuffix(extension) && faultless ==>
            && result.good == Min(result.total, size / geometry.sectorSize)
            && (result.bad == 0 <==> HoldsItsGeometry(extension, size)))
    }

    /** Phases two to four. */
    method VerifyAndCopy(src: SourceFile, source: string, dest: string, isFlux: bool, canOpen: bool, canRemove: bool)
      requires 0 < geometry.tracks && 0 < geometry.heads && 0 < geometry.sectorsPerTrack && 0 < geometry.sectorSize
      requires result.total == Sectors(geometry)
      requires source in files && src.content == files[source]
      requires Quiet(log, 0, 30)
      modifies this`log, this`files, this`result, cancel
      ensures old(cancel.raised) ==> cancel.raised
      ensures Fair(old(cancel.Possible())) && InTime(|old(log)|, old(cancel.Certain())) && old(log) <= log
      ensures EndsFinished(log) && !world.lastMinute ==> |log| < old(cancel.Certain()) + 5
      ensures old(Pending()) && canOpen && dest != "" && dest != source && src.content != [] ==>
        EndsIn(log, CancelSeen)
      ensures result.total == old(result.total)
      ensures Ended(log) && Quiet(log[..|log| - 1], 0, 100)
      ensures match log[|log| - 1]
        case Finished(good, total, bad) =>
          && (good, total, bad) == (result.good, result.total, result.bad)
          && good + bad == total
          && (isFlux ==> bad == 0)
          && (!isFlux && src.faultless ==> good == Min(total, |src.content| / geometry.sectorSize))
          && files == if dest == "" then old(files) else Copied(old(files), source, dest)
        case Error(CannotOpen) => !canOpen && files == old(files)
        case Error(EmptyFlux) => isFlux && src.content == [] && files == old(files)
        case Error(CancelledVerifying) => cancel.raised && files == old(files)
        case end => dest != "" && CopyFailed(old(files), source, dest, canRemove, end, cancel.raised, files)
    {
      hide Quiet, ImageSignals, FluxSignals, ImageRead, ImageWhole, InImage, Timely, NearlyDone, Discarded, Copied;
      ghost var before := log;
      assert Index(geometry, geometry.tracks, 0) == Sectors(geometry);
      var ok;
      ghost var seg;
      ghost var ts;
      ok, seg, ts := VerifySectors(src, isFlux, canOpen);
      QuietAppend(before, seg, 0, 30, 80);
      QuietWider(before + seg, 0, 80, 0, 100);
      if !ok { return; }
      var seen := IsCancelled();
      ghost var verified := log;
      if seen {
        NoMoreReports(verified, Error(CancelledVerifying));
        Emit(Error(CancelledVerifying));
      } else {
        CopyAndFinish(source, dest, canRemove);
      }
      if !world.lastMinute { TimelyJoin(verified, log, |before|, old(cancel.Certain())); }
    }

    /** The copy, if one is wanted, and the end of the job. */
    method CopyAndFinish(source: string, dest: string, canRemove: bool)
      requires source in files && Quiet(log, 0, 80) && !cancel.raised
      modifies this`log, this`files, cancel
      ensures Ended(log) && Quiet(log[..|log| - 1], 0, 100)
      ensures Fair(cancel.downUntil) && InTime(|old(log)|, 0) && old(log) <= log
      ensures EndsFinished(log) && !world.lastMinute ==>
        if dest == "" then |log| == |old(log)| + 4 else |log| < cancel.upFrom + 5
      ensures old(Pending()) && dest != "" && dest != source && old(files)[source] != [] ==>
        EndsIn(log, CancelSeen)
      ensures match log[|log| - 1]
        case Finished(good, total, bad) =>
          && (good, total, bad) == (result.good, result.total, result.bad)
          && files == if dest == "" then old(files) else Copied(old(files), source, dest)
        case end => dest != "" && CopyFailed(old(files), source, dest, canRemove, end, cancel.raised, files)
    {
      hide Quiet, Timely, NearlyDone, Discarded, Copied;
      ghost var before := log;
      if dest == "" {
        QuietWider(before, 0, 80, 0, 95);
        NothingNew(before);
      } else {
        var ok;
        ghost var seg;
        ok, seg := CopyPhase(source, dest, canRemove);
        QuietAppend(before, seg, 0, 80, 95);
        QuietWider(before + seg, 0, 95, 0, 100);
        before := before + seg;
        if !ok { return; }
      }
      FinishQuiet(before);
      FinishInTime(old(log), before, Finished(result.good, result.total, result.bad));
      Finish();
    }

    method Finish()
      modifies this`log
      ensures log == old(log) + [StageChanged, Progress(95), Progress(100)]
                     + [Finished(result.good, result.total, result.bad)]
    {
      Emit(StageChanged);
      Emit(Progress(95));
      Emit(Progress(100));
      Emit(Finished(result.good, result.total, result.bad));
    }

    method CopyPhase(source: string, dest: string, canRemove: bool) returns (ok: bool, ghost seg: seq<Signal>)
      requires source in files && dest != "" && !cancel.raised
      modifies this`log, this`files, cancel
      ensures Fair(cancel.downUntil) && InTime(|old(log)|, 0)
      ensures ok && !world.lastMinute ==> |log| <= cancel.upFrom
      ensures old(Pending()) && dest != source && old(files)[source] != [] ==> !ok && EndsIn(log, CancelSeen)
      ensures Quiet(seg, 80, 95)
      ensures ok ==> log == old(log) + seg && files == Copied(old(files), source, dest)
      ensures !ok ==> Ended(log) && log == old(log) + seg + [log[|log| - 1]]
      ensures !ok ==> CopyFailed(old(files), source, dest, canRemove, log[|log| - 1], cancel.raised, files)
    {
      hide Quiet, Discarded, Copied, NearlyDone, Timely;
      ghost var start := log;
      Emit(StageChanged);
      Emit(Progress(80));
      seg := [StageChanged, Progress(80)];
      assert log == start + seg;
      StageIsNotDone(log, start);
      QuietStage(80, 80, 80);
      ghost var staged := log;
      ghost var more;
      ok, more := ConvertImage(source, dest, canRemove);
      if !world.lastMinute {
        StageInTime(start, staged);
        TimelyFrom(staged, log, |start|);
      }
      QuietWider(more, 85, 95, 80, 95);
      QuietAppend(seg, more, 80, 80, 95);
      assert start + seg + more == start + (seg + more);
      seg := seg + more;
    }
  }

  lemma StageIsNotDone(log: seq<Signal>, start: seq<Signal>)
    requires log == start + [StageChanged, Progress(80)]
    ensures !NearlyDone(log)
  {
  }

  lemma StageInTime(start: seq<Signal>, log: seq<Signal>)
    requires log == start + [StageChanged, Progress(80)]
    ensures Timely(log, |start|, 0)
  {
  }

  lemma TimelyFrom(before: seq<Signal>, log: seq<Signal>, from: nat)
    requires before <= log && Timely(before, from, 0) && Timely(log, |before|, 0)
    ensures Timely(log, from, 0)
  {
    TimelyJoin(before, log, from, 0);
  }

  lemma NothingNew(log: seq<Signal>)
    ensures Timely(log, |log|, 0)
  {
  }

  lemma TimelyBehind(before: seq<Signal>, log: seq<Signal>, up: nat)
    requires before <= log && Timely(before, 0, up) && Timely(log, |before|, up)
    ensures Timely(log, 0, up)
  {
    forall i | 0 <= i < |log| && log[i].SectorUpdate? ensures i < up {
      if i < |before| { assert log[i] == before[i]; }
    }
  }

  /** A job that breaks off while it loads. */
  lemma BrokenOff(log: seq<Signal>, up: nat)
    requires || BrokeOff(log, 4, InvalidImage)
             || BrokeOff(log, 2, CancelledEarly)
             || BrokeOff(log, 7, CancelledLoading)
    ensures Ended(log) && Quiet(log[..|log| - 1], 0, 100) && Timely(log, 0, up)
    ensures BrokeOff(log, 4, InvalidImage) ==> EndsIn(log, Error(InvalidImage))
    ensures BrokeOff(log, 2, CancelledEarly) ==> EndsIn(log, Error(CancelledEarly))
    ensures BrokeOff(log, 7, CancelledLoading) ==> EndsIn(log, Error(CancelledLoading))
  {
    hide Quiet, Timely;
    if BrokeOff(log, 4, InvalidImage) { BrokenQuiet(log, 4, InvalidImage); }
    if BrokeOff(log, 2, CancelledEarly) { BrokenQuiet(log, 2, CancelledEarly); }
    if BrokeOff(log, 7, CancelledLoading) { BrokenQuiet(log, 7, CancelledLoading); }
    TimelySooner(log, 0, 0, up);
  }

  lemma TimelySooner(log: seq<Signal>, from: nat, up: nat, later: nat)
    requires Timely(log, from, up) && up <= later
    ensures Timely(log, from, later)
  {
  }

  lemma NoMoreReports(log: seq<Signal>, s: Signal)
    requires !s.SectorUpdate?
    ensures Timely(log + [s], |log|, 0)
  {
  }

  lemma FinishQuiet(log: seq<Signal>)
    requires Quiet(log, 0, 95)
    ensures Quiet(log + [StageChanged, Progress(95), Progress(100)], 0, 100)
  {
    hide Quiet;
    QuietStage(95, 95, 95);
    QuietOne(Progress(100), 95, 100);
    QuietAppend([StageChanged, Progress(95)], [Progress(100)], 95, 95, 100);
    assert [StageChanged, Progress(95)] + [Progress(100)] == [StageChanged, Progress(95), Progress(100)];
    QuietAppend(log, [StageChanged, Progress(95), Progress(100)], 0, 95, 100);
  }

  lemma FinishInTime(start: seq<Signal>, log: seq<Signal>, end: Signal)
    requires start <= log && !end.SectorUpdate?
    ensures Timely(log, |start|, 0) ==>
      Timely(log + [StageChanged, Progress(95), Progress(100)] + [end], |start|, 0)
  {
  }

  /** A run that ends without any terminal signal. */
  method SilentRun() returns (job: DecodeJob)
    ensures job.log != [] && forall i | 0 <= i < |job.log| :: !IsTerminal(job.log[i])
    ensures job.files == map["a.adf" := [0]]
  {
    var world := new World(true);
    var cancel := new CancelFlag(0, 0);
    job := new DecodeJob(map["a.adf" := [0]], world, cancel);
    job.RunJob("a.adf", "b.adf", "adf", true, true, true, true);
  }

  /** The suffixes whose content is flux. */
  predicate IsFluxSuffix(extension: string) {
    || extension == "scp" || extension == "raw" || extension == "g64"
    || extension == "nib" || extension == "hfe" || extension == "ipf"
  }

  lemma DropDest(before: map<string, seq<int>>, dest: string, content: seq<int>, after: map<string, seq<int>>)
    requires after == before[dest := []][dest := content]
    ensures after == before[dest := content] && after - {dest} == before - {dest}
  {
  }

  /** No row of the format table fits, and the magic bytes are not known. */
  predicate Unrecognised(extension: string, size: nat, magic: bool) {
    !magic && forall i | 0 <= i < |FORMATS| :: !Fits(FORMATS[i], extension, size)
  }

  /** The geometry a valid image is verified with. */
  ghost predicate IsGeometryOf(extension: string, size: nat, magic: bool, g: Geometry) {
    exists info, origin ::
      IsValidation(extension, size, magic, info, origin) && info.valid && g == Effective(info.geometry)
  }

  lemma NothingReported(log: seq<Signal>)
    requires log == []
    ensures !NearlyDone(log)
  {
  }

  /** The copy reports 95 percent exactly when it is through. */
  lemma LastReport(log: seq<Signal>, pct: int, written: nat, total: nat)
    requires log != [] && log[|log| - 1] == Progress(pct)
    requires written <= total && 0 < total && pct == Share(written, total)
    ensures NearlyDone(log) <==> written == total
  {
    FitsIffBelowQuotient(10, total, written * 10);
    FitsIffBelowQuotient(11, total, written * 10);
  }

  lemma CopyPercent(before: nat, after: nat, total: nat)
    requires before <= after <= total && 0 < total
    ensures 85 <= Share(before, total) <= Share(after, total) <= 95
  {
    var a, b := before * 10 / total, after * 10 / total;
    FitsIffBelowQuotient(0, total, before * 10);
    FitsIffBelowQuotient(a, total, before * 10);
    assert a * total <= before * 10 <= after * 10;
    FitsIffBelowQuotient(a, total, after * 10);
    FitsIffBelowQuotient(11, total, after * 10);
    assert 0 <= a <= b < 11;
  }

  lemma IndexZero(g: Geometry, src: SourceFile, size: nat)
    requires 0 < g.heads && 0 < g.sectorsPerTrack && 0 < g.sectorSize
    ensures Index(g, 0, 0) == 0 && Inside(0, g.sectorSize, size) == 0
  {
  }

  lemma SilentThenProgress(seg: seq<Signal>, more: seq<Signal>, pct: int, reached: int)
    requires Quiet(seg, 30, reached) && Silent(more) && 30 <= reached <= pct
    ensures Quiet(seg + more + [Progress(pct)], 30, pct)
  {
    QuietAppend(seg, more, 30, reached, reached);
    QuietAppend(seg + more, [Progress(pct)], 30, reached, pct);
  }

  // ---------- When an image has bad sectors ----------

  /** Without read faults a sector image has no bad sector exactly when its geometry does not
      claim more bytes than the file holds. */
  lemma NoBadSectorsIff(total: nat, sectorSize: nat, size: nat)
    requires 0 < sectorSize
    ensures Min(total, size / sectorSize) == total <==> total * sectorSize <= size
  {
    FitsIffBelowQuotient(total, sectorSize, size);
  }

  /** Which images that is: all whose geometry came from the format table or the fallback, all
      of a known size but 819200 bytes, and those of undetermined geometry that are at least as
      large as the assumed 720K disk. */
  lemma ClaimFitsIff(info: Info, origin: Origin)
    requires IsOriginOf(info, origin) && !info.isFlux
    ensures Bytes(Effective(info.geometry)) <= info.fileSize <==>
      match origin
      case FromFormat(_) => true
      case FromKnownSize(_) => info.fileSize != 819200
      case FromFallback(_) => true
      case Undetermined => 737280 <= info.fileSize
  {
    match origin
    case FromFormat(i) => FormatClaims(i);
    case FromKnownSize(i) => KnownSizeClaims(i);
    case FromFallback(i) => FallbackIsExact(info, origin);
    case Undetermined =>
  }

  /** The known or typical sizes below the assumed 720K. */
  const SMALL_SIZES := {143360, 161280, 163840, 174848, 175531, 184320, 322560, 327680, 368640}

  /** A sector image holds all that its geometry claims: it has the exact size of a row of its
      suffix, or it is at least as large as the assumed 720K disk or of a small size the tables
      know, and not the 819200-byte size whose row claims too much. */
  predicate HoldsItsGeometry(extension: string, size: nat) {
    || (exists i | 0 <= i < |FORMATS| :: Exact(FORMATS[i], extension, size))
    || (size != 819200 && (737280 <= size || size in SMALL_SIZES))
  }

  /** Without read faults a finished job on a sector image reports no bad sector exactly under
      that condition on suffix and size. */
  lemma BadSectorsIff(extension: string, size: nat, magic: bool, g: Geometry)
    requires IsGeometryOf(extension, size, magic, g)
    ensures 0 < g.sectorSize && 0 < Sectors(g)
    ensures !IsFluxSuffix(extension) ==>
      (Min(Sectors(g), size / g.sectorSize) == Sectors(g) <==> HoldsItsGeometry(extension, size))
  {
    hide IsValidation, HoldsItsGeometry;
    var info, origin :|
      IsValidation(extension, size, magic, info, origin) && info.valid && g == Effective(info.geometry);
    if !IsFluxSuffix(extension) {
      ClaimsIff(extension, size, magic, info, origin);
      NoBadSectorsIff(Sectors(g), g.sectorSize, size);
    }
  }

  lemma ClaimsIff(extension: string, size: nat, magic: bool, info: Info, origin: Origin)
    requires IsValidation(extension, size, magic, info, origin) && info.valid && !IsFluxSuffix(extension)
    ensures Bytes(Effective(info.geometry)) <= size <==> HoldsItsGeometry(extension, size)
  {
    hide Effective, Bytes, IsDetected, IsFluxSuffix, IsOriginOf;
    var best :| IsBestMatch(FORMATS, extension, size, best) && FromMatch(best, size, magic, info, origin);
    if 0 <= best {
      FluxRows(best);
      OpenRowsAreUnknown(best);
    }
    ValidHasOrigin(extension, size, magic, info, origin);
    ClaimFitsIff(info, origin);
    if origin.FromFormat? {
      NotDetected(size, info, origin);
      FormatClaims(best);
      assert Exact(FORMATS[best], extension, size);
    } else {
      SizesListed(size, info.geometry, origin);
    }
  }

  lemma NotDetected(size: nat, info: Info, origin: Origin)
    requires origin.FromFormat?
    ensures !IsDetected(size, info.isFlux, UNKNOWN, info.geometry, origin)
  {
  }

  lemma FluxRows(i: nat)
    requires i < |FORMATS|
    ensures FORMATS[i].isFlux <==> IsFluxSuffix(FORMATS[i].extension)
  {
  }

  /** Which sizes lead to which origin. */
  lemma SizesListed(size: nat, g: Geometry, origin: Origin)
    requires IsDetected(size, false, UNKNOWN, g, origin)
    ensures match origin
      case FromFormat(_) => false
      case FromKnownSize(_) => 737280 <= size || size in SMALL_SIZES
      case FromFallback(_) => size != 819200 && (737280 <= size || size in SMALL_SIZES)
      case Undetermined => size != 819200 && size !in SMALL_SIZES
  {
    match origin
    case FromFormat(_) =>
    case FromKnownSize(i) => KnownListed(i);
    case FromFallback(i) => TypicalListed(i);
    case Undetermined => if size != 0 { Unlisted(size); }
  }

  lemma KnownListed(i: nat)
    requires i < |KNOWN_SIZES|
    ensures 737280 <= KNOWN_SIZES[i].size || KNOWN_SIZES[i].size in SMALL_SIZES
  {
  }

  lemma TypicalListed(i: nat)
    requires i < |TYPICAL|
    ensures var size := 512 * Sectors(TYPICAL[i]); size != 819200 && (737280 <= size || size in SMALL_SIZES)
  {
  }

  lemma Unlisted(size: nat)
    requires forall k | 0 <= k < |KNOWN_SIZES| :: KNOWN_SIZES[k].size != size
    requires size % 512 == 0 ==> forall k | 0 <= k < |TYPICAL| :: Sectors(TYPICAL[k]) != size / 512
    ensures size != 819200 && size !in SMALL_SIZES
  {
    assert KNOWN_SIZES[14].size == 819200;
    assert forall k | 0 <= k < |KNOWN_SIZES| :: KNOWN_SIZES[k].size != size;
    if size in {143360, 163840, 174848, 175531, 184320, 327680, 368640} { SmallKnown(size); }
    assert Sectors(TYPICAL[6]) == 630 && Sectors(TYPICAL[7]) == 315;
  }

  lemma SmallKnown(size: nat)
    requires size in {143360, 163840, 174848, 175531, 184320, 327680, 368640}
    ensures exists k | 0 <= k < |KNOWN_SIZES| :: KNOWN_SIZES[k].size == size
  {
    assert KNOWN_SIZES[12].size == 143360 && KNOWN_SIZES[2].size == 163840 && KNOWN_SIZES[10].size == 174848;
    assert KNOWN_SIZES[11].size == 175531 && KNOWN_SIZES[3].size == 184320 && KNOWN_SIZES[4].size == 327680;
    assert KNOWN_SIZES[5].size == 368640;
  }

  /** An 819200-byte .ima image is accepted with 1640 sectors, of which the file holds 1600: a
      faultless verification reports forty bad ones. */
  lemma AtariImageLosesForty(magic: bool, g: Geometry)
    requires IsGeometryOf("ima", 819200, magic, g)
    ensures Sectors(g) == 1640 && Min(Sectors(g), 819200 / g.sectorSize) == 1600
    ensures !HoldsItsGeometry("ima", 819200)
  {
    hide IsBestMatch;
    var info, origin :|
      IsValidation("ima", 819200, magic, info, origin) && info.valid && g == Effective(info.geometry);
    var best :| IsBestMatch(FORMATS, "ima", 819200, best) && FromMatch(best, 819200, magic, info, origin);
    ImaRow(819200);
    BestMatchUnique("ima", 819200, best, 8);
    AtariDetected(info.geometry, origin);
    assert forall i | 0 <= i < |FORMATS| :: !Exact(FORMATS[i], "ima", 819200) by { hide Exact; NoExactIma(819200); }
  }

  /** Such an image is accepted, with or without known magic bytes. */
  lemma AtariImageIsAccepted(magic: bool)
    ensures IsGeometryOf("ima", 819200, magic, Geometry(82, 2, 10, 512))
  {
    hide IsBestMatch, IsDetected, IsGeometryOf;
    var g := Geometry(82, 2, 10, 512);
    ImaRow(819200);
    AtariKnown(g);
    assert FromMatch(8, 819200, magic, Info(true, false, g, 819200), FromKnownSize(14));
    GeometryOf("ima", 819200, magic, Info(true, false, g, 819200), FromKnownSize(14), 8);
  }

  lemma GeometryOf(extension: string, size: nat, magic: bool, info: Info, origin: Origin, best: int)
    requires IsBestMatch(FORMATS, extension, size, best) && FromMatch(best, size, magic, info, origin) && info.valid
    ensures IsGeometryOf(extension, size, magic, Effective(info.geometry))
  {
    hide IsBestMatch, FromMatch, Effective;
    assert IsValidation(extension, size, magic, info, origin);
  }

  lemma AtariKnown(g: Geometry)
    requires g == Geometry(82, 2, 10, 512)
    ensures IsDetected(819200, false, UNKNOWN, g, FromKnownSize(14))
  {
    assert KNOWN_SIZES[14] == Known(819200, g);
  }

  /** The .ima row is the best match for every size. */
  lemma ImaRow(size: nat)
    ensures IsBestMatch(FORMATS, "ima", size, 8)
  {
  }

  lemma NoExactIma(size: nat)
    ensures forall i | 0 <= i < |FORMATS| :: !Exact(FORMATS[i], "ima", size)
  {
  }

  lemma AtariDetected(g: Geometry, origin: Origin)
    requires IsDetected(819200, false, UNKNOWN, g, origin)
    ensures g == Geometry(82, 2, 10, 512)
  {
    assert KNOWN_SIZES[14] == Known(819200, Geometry(82, 2, 10, 512));
  }

  lemma FormatClaims(i: nat)
    requires i < |FORMATS| && !FORMATS[i].isFlux && 0 < FORMATS[i].geometry.tracks
    ensures Bytes(Effective(FORMATS[i].geometry)) <= FORMATS[i].expectedSize && 0 < FORMATS[i].expectedSize
  {
  }

  /** Every byte offset the verifier computes fits the 32-bit integer it is computed in. */
  lemma OffsetsFit(info: Info, origin: Origin, track: nat, head: nat, sector: nat)
    requires IsOriginOf(info, origin)
    requires var g := Effective(info.geometry); track < g.tracks && head < g.heads && sector < g.sectorsPerTrack
    ensures var g := Effective(info.geometry);
      ((track * g.heads + head) * g.sectorsPerTrack + sector) * g.sectorSize < 0x8000_0000
  {
    var g := Effective(info.geometry);
    GeometryBounded(info, origin);
    hide IsOriginOf, Effective;
    Product(track, g.heads, 82, 2);
    Product(track * g.heads + head, g.sectorsPerTrack, 166, 36);
    Product((track * g.heads + head) * g.sectorsPerTrack + sector, g.sectorSize, 6012, 512);
  }

  lemma Product(x: nat, y: nat, a: nat, b: nat)
    requires x <= a && y <= b
    ensures x * y <= a * b
  {
    assert x * y <= a * y <= a * b;
  }

  lemma GeometryBounded(info: Info, origin: Origin)
    requires IsOriginOf(info, origin)
    ensures var g := Effective(info.geometry);
      g.tracks <= 82 && g.heads <= 2 && g.sectorsPerTrack <= 36 && g.sectorSize <= 512
  {
  }

  // ---------- The reports, in numbers ----------

  /** Sector `s` of a head is reported as sector `s` of its track, good or not by its own read. */
  lemma HeadInNumbers(track: nat, oks: seq<bool>, s: nat)
    requires s < |oks|
    ensures HeadSignals(track, oks)[s] == SectorUpdate(track, s, if oks[s] then Ok else ReadError)
  {
  }

  predicate IsGood(s: Signal) { s.SectorUpdate? && s.status == Ok }

  predicate IsBad(s: Signal) { s.SectorUpdate? && s.status == ReadError }

  lemma {:induction false} HeadCounts(track: nat, oks: seq<bool>)
    ensures Count(HeadSignals(track, oks), IsGood) == CountOf(oks, true)
    ensures Count(HeadSignals(track, oks), IsBad) == CountOf(oks, false)
    decreases |oks|
  {
    if oks != [] {
      var n := |oks| - 1;
      HeadCounts(track, oks[..n]);
      assert HeadSignals(track, oks)[..n] == HeadSignals(track, oks[..n]);
    }
  }

  lemma {:induction false} TrackCounts(track: nat, hs: seq<seq<bool>>)
    ensures Count(TrackSignals(track, hs), IsGood) == InTrack(hs, true)
    ensures Count(TrackSignals(track, hs), IsBad) == InTrack(hs, false)
    decreases |hs|
  {
    hide HeadSignals, CountOf;
    if hs != [] {
      var n := |hs| - 1;
      TrackCounts(track, hs[..n]);
      HeadCounts(track, hs[n]);
      CountAppend(TrackSignals(track, hs[..n]), HeadSignals(track, hs[n]), IsGood);
      CountAppend(TrackSignals(track, hs[..n]), HeadSignals(track, hs[n]), IsBad);
    }
  }

  /** The counters of a verification are the numbers of good and bad reports it sent. */
  lemma {:induction false} ReportsAreCounted(tracks: nat, ts: seq<seq<seq<bool>>>)
    requires 0 < tracks
    ensures Count(ImageSignals(tracks, ts), IsGood) == InImage(ts, true)
    ensures Count(ImageSignals(tracks, ts), IsBad) == InImage(ts, false)
    decreases |ts|
  {
    hide TrackSignals, InTrack;
    if ts != [] {
      var n := |ts| - 1;
      var front, last := ImageSignals(tracks, ts[..n]), Progress(30 + n * 50 / tracks);
      ReportsAreCounted(tracks, ts[..n]);
      TrackCounts(n, ts[n]);
      CountAppend(front + TrackSignals(n, ts[n]), [last], IsGood);
      CountAppend(front, TrackSignals(n, ts[n]), IsGood);
      CountSingle(last, IsGood);
      CountAppend(front + TrackSignals(n, ts[n]), [last], IsBad);
      CountAppend(front, TrackSignals(n, ts[n]), IsBad);
      CountSingle(last, IsBad);
    }
  }

  /** Behind track `k` the progress is 30 and the whole share of 50 that k tracks are; behind a copied
      chunk it is 85 and the whole share of 10. */
  lemma ProgressInNumbers(tracks: nat, ts: seq<seq<seq<bool>>>, written: nat, total: nat)
    requires 0 < |ts| <= tracks && written <= total && 0 < total
    ensures var s := ImageSignals(tracks, ts); var last := s[|s| - 1];
      last.Progress? && (last.percent - 30) * tracks <= 50 * (|ts| - 1) < (last.percent - 29) * tracks
    ensures (Share(written, total) - 85) * total <= 10 * written < (Share(written, total) - 84) * total
  {
    WholeShare((|ts| - 1) * 50, tracks);
    WholeShare(written * 10, total);
  }

  lemma WholeShare(x: nat, d: nat)
    requires 0 < d
    ensures x / d * d <= x < (x / d + 1) * d
  {
  }
}
