/** The write job: walk the slots of an SCP image and write every populated one to a drive that
    may answer anything, under a cancel flag that may be raised at any moment. */
module FluxWrite {
  import opened Flags
  import opened FluxSlicing
  import opened Outcomes

  const MAX_SLOTS := 168

  datatype Reason =
    | NoDevice | NoPath | NotReadable | NotScp | OutOfMemory | OpenFailure | NoTracks | MotorFailure
    | SeekFailure | WriteFailure | UserCancel

  /** A revolution as the parser hands it out; its flux pointer may be null. */
  datatype Revolution = NoFlux | Flux(data: seq<uint32>)

  /** The parser's answer for one slot. */
  datatype Answer = ReadError | Invalid | Track(revolutions: seq<Revolution>)

  datatype Event =
    | CreateContext(ok: bool)
    | OpenFile(ok: bool)
    | CloseFile
    | DestroyContext
    | MotorOn(motor: MotorOutcome)
    | MotorOff
    | ReadTrack(slot: nat, answer: Answer)
    | FreeTrack(slot: nat)
    | SeekTo(cylinder: nat, seek: SeekOutcome)
    | Write(cylinder: nat, side: nat, verify: bool, flux: seq<uint32>, result: WriteOutcome)
    | CancelSeen
    | Progress(percent: nat)
    | Error(reason: Reason)
    | Finished(written: nat, skipped: nat, hardErrors: nat)

  // ---------- Zero placeholders ----------

  function NonZero(data: seq<uint32>): seq<uint32> {
    if data == [] then []
    else NonZero(data[..|data| - 1]) + (if data[|data| - 1] == 0 then [] else [data[|data| - 1]])
  }

  function Sum(data: seq<uint32>): nat {
    if data == [] then 0 else Sum(data[..|data| - 1]) + data[|data| - 1]
  }

  /** Dropping the zeros keeps the total time. */
  lemma {:induction false} NonZeroKeepsTime(data: seq<uint32>)
    ensures Sum(NonZero(data)) == Sum(data)
    decreases |data|
  {
    if data != [] {
      var n := |data| - 1;
      var kept := NonZero(data[..n]);
      NonZeroKeepsTime(data[..n]);
      assert kept + [] == kept;
      assert (kept + [data[n]])[..|kept|] == kept;
    }
  }

  lemma {:induction false} NonZeroHasNoZero(data: seq<uint32>)
    ensures forall i | 0 <= i < |NonZero(data)| :: NonZero(data)[i] != 0
    decreases |data|
  {
    if data != [] {
      NonZeroHasNoZero(data[..|data| - 1]);
    }
  }

  /** Zeros apart, the order of the intervals is untouched. */
  lemma {:induction false} NonZeroAppend(a: seq<uint32>, b: seq<uint32>)
    ensures NonZero(a + b) == NonZero(a) + NonZero(b)
    decreases |b|
  {
    if b == [] {
      assert a + b == a;
    } else {
      assert (a + b)[..|a + b| - 1] == a + b[..|b| - 1];
      NonZeroAppend(a, b[..|b| - 1]);
    }
  }

  // ---------- What a run does ----------

  /** The flux to write for an answer; empty when the slot is to be skipped. */
  function FluxOf(a: Answer): seq<uint32> {
    if a.Track? && a.revolutions != [] && a.revolutions[0].Flux? then NonZero(a.revolutions[0].data) else []
  }

  datatype SlotRecord =
    | Skipped(answer: Answer)
    | SeekFailed(answer: Answer, seek: SeekOutcome)
    | WriteFailed(answer: Answer, result: WriteOutcome)
    | Written(answer: Answer)

  datatype Job = Job(populated: seq<bool>, trackCount: int, verify: bool)

  datatype Run =
    | Rejected(reason: Reason)
    | ContextMissing
    | OpenRefused
    | ImageEmpty
    | MotorFailed(motor: MotorOutcome)
    | Failed(motor: MotorOutcome, records: seq<SlotRecord>)
    | Cancelled(motor: MotorOutcome, records: seq<SlotRecord>)
    | Completed(motor: MotorOutcome, records: seq<SlotRecord>)

  /** The populated slots below `t`, in increasing order. */
  function Slots(populated: seq<bool>, t: nat): (s: seq<nat>)
    requires t <= |populated|
    ensures |s| <= t
    ensures forall i | 0 <= i < |s| :: s[i] < t && populated[s[i]]
  {
    if t == 0 then [] else Slots(populated, t - 1) + (if populated[t - 1] then [t - 1] else [])
  }

  predicate RecordOk(r: SlotRecord) {
    match r
    case Skipped(a) => FluxOf(a) == []
    case SeekFailed(a, o) => FluxOf(a) != [] && !o.SeekArrived?
    case WriteFailed(a, o) => FluxOf(a) != [] && !o.WriteCompleted?
    case Written(a) => FluxOf(a) != []
  }

  predicate Passed(r: SlotRecord) { r.Skipped? || r.Written? }

  predicate RecordsOk(j: Job, rs: seq<SlotRecord>) {
    && |j.populated| == MAX_SLOTS
    && |rs| <= |Slots(j.populated, MAX_SLOTS)|
    && (forall i | 0 <= i < |rs| :: RecordOk(rs[i]))
    && forall i | 0 <= i < |rs| - 1 :: Passed(rs[i])
  }

  function WrittenIn(rs: seq<SlotRecord>): nat {
    if rs == [] then 0 else WrittenIn(rs[..|rs| - 1]) + (if rs[|rs| - 1].Written? then 1 else 0)
  }

  function SkippedIn(rs: seq<SlotRecord>): nat {
    if rs == [] then 0 else SkippedIn(rs[..|rs| - 1]) + (if rs[|rs| - 1].Skipped? then 1 else 0)
  }

  function Percent(j: Job, written: nat): nat
    requires 0 < j.trackCount
  {
    if written * 100 / j.trackCount > 100 then 100 else written * 100 / j.trackCount
  }

  /** The events of one slot, given how many tracks have been written before it. */
  function SlotEvents(j: Job, slot: nat, before: nat, r: SlotRecord): seq<Event>
    requires 0 < j.trackCount
  {
    var cyl, side := slot / 2, slot % 2;
    match r
    case Skipped(a) => [ReadTrack(slot, a), FreeTrack(slot)]
    case SeekFailed(a, o) => [ReadTrack(slot, a), SeekTo(cyl, o), FreeTrack(slot)]
    case WriteFailed(a, o) =>
      [ReadTrack(slot, a), SeekTo(cyl, SeekArrived), Write(cyl, side, j.verify, FluxOf(a), o), FreeTrack(slot)]
    case Written(a) =>
      [ReadTrack(slot, a), SeekTo(cyl, SeekArrived), Write(cyl, side, j.verify, FluxOf(a), WriteCompleted),
       FreeTrack(slot), Progress(Percent(j, before + 1))]
  }

  function Body(j: Job, rs: seq<SlotRecord>): seq<Event>
    requires 0 < j.trackCount && |j.populated| == MAX_SLOTS && |rs| <= |Slots(j.populated, MAX_SLOTS)|
  {
    if rs == [] then []
    else
      var n := |rs| - 1;
      Body(j, rs[..n]) + SlotEvents(j, Slots(j.populated, MAX_SLOTS)[n], WrittenIn(rs[..n]), rs[n])
  }

  predicate RunOk(j: Job, run: Run) {
    match run
    case Rejected(r) => r.NoDevice? || r.NoPath? || r.NotReadable? || r.NotScp?
    case ContextMissing => true
    case OpenRefused => true
    case ImageEmpty => j.trackCount <= 0
    case MotorFailed(m) => 0 < j.trackCount && !MotorOk(m)
    case Failed(m, rs) => 0 < j.trackCount && MotorOk(m) && RecordsOk(j, rs) && rs != [] && !Passed(rs[|rs| - 1])
    case Cancelled(m, rs) => 0 < j.trackCount && MotorOk(m) && RecordsOk(j, rs) && (rs != [] ==> Passed(rs[|rs| - 1]))
    case Completed(m, rs) =>
      && 0 < j.trackCount
      && MotorOk(m)
      && RecordsOk(j, rs)
      && |rs| == |Slots(j.populated, MAX_SLOTS)|
      && (rs != [] ==> Passed(rs[|rs| - 1]))
  }

  function Opening(m: MotorOutcome): seq<Event> {
    [CreateContext(true), OpenFile(true), MotorOn(m)]
  }

  function Teardown(reason: Reason): seq<Event> { [MotorOff, CloseFile, DestroyContext, Error(reason)] }

  function FailureReason(r: SlotRecord): Reason { if r.SeekFailed? then SeekFailure else WriteFailure }

  /** The events of a run, in order. */
  function LogOf(j: Job, run: Run): seq<Event>
    requires RunOk(j, run)
  {
    match run
    case Rejected(r) => [Error(r)]
    case ContextMissing => [CreateContext(false), Error(OutOfMemory)]
    case OpenRefused => [CreateContext(true), OpenFile(false), DestroyContext, Error(OpenFailure)]
    case ImageEmpty => [CreateContext(true), OpenFile(true), CloseFile, DestroyContext, Error(NoTracks)]
    case MotorFailed(m) => Opening(m) + [CloseFile, DestroyContext, Error(MotorFailure)]
    case Failed(m, rs) => Opening(m) + [Progress(0)] + Body(j, rs) + Teardown(FailureReason(rs[|rs| - 1]))
    case Cancelled(m, rs) => Opening(m) + [Progress(0)] + Body(j, rs) + [CancelSeen] + Teardown(UserCancel)
    case Completed(m, rs) =>
      Opening(m) + [Progress(0)] + Body(j, rs)
        + [MotorOff, CloseFile, DestroyContext, Progress(100), Finished(WrittenIn(rs), SkippedIn(rs), 0)]
  }

  /** Every read from entry `from` on comes before entry `up`: no slot is begun once a flag that is
      up from then on has been raised. */
  predicate Timely(log: seq<Event>, from: nat, up: nat) {
    forall i | from <= i < |log| && log[i].ReadTrack? :: i < up
  }

  /** The end of a run with `n` entries: it is cancelled only if the flag may have been up at the
      cancel, and complete only if the flag was not up at the last look.  The last look is before
      the last slot, so it counts for the end only when that slot is not populated. */
  predicate Reasoned(populated: seq<bool>, run: Run, n: nat, possible: nat, certain: nat)
    requires |populated| == MAX_SLOTS
  {
    && (run.Cancelled? ==> possible + 5 <= n)
    && (run.Completed? && !populated[MAX_SLOTS - 1] ==> n < certain + 5)
  }

  lemma TimelyEnd(log: seq<Event>, es: seq<Event>, from: nat, up: nat)
    requires Timely(log, from, up) && forall i | 0 <= i < |es| :: !es[i].ReadTrack?
    ensures Timely(log + es, from, up)
  {
  }

  lemma OpeningLength(m: MotorOutcome)
    ensures |Opening(m)| == 3
  {
  }

  lemma OpeningTimely(log: seq<Event>, m: MotorOutcome, up: nat)
    requires 4 <= |log| && log[..3] == Opening(m) && log[3] == Progress(0) && Timely(log, 4, up)
    ensures Timely(log, 0, up)
  {
    assert log[0] == Opening(m)[0] && log[1] == Opening(m)[1] && log[2] == Opening(m)[2];
  }

  /** A log without reads is in time. */
  lemma NoReads(n: nat, up: nat)
    ensures forall log: seq<Event> | NoneRead(log) :: Timely(log, 0, up)
  {
  }

  predicate NoneRead(log: seq<Event>) {
    forall i | 0 <= i < |log| :: !log[i].ReadTrack?
  }

  lemma TeardownEnds(reason: Reason)
    ensures |Teardown(reason)| == 4 && forall i | 0 <= i < 4 :: !Teardown(reason)[i].ReadTrack?
  {
  }

  lemma NothingBegun(log: seq<Event>, up: nat)
    ensures Timely(log, |log|, up)
  {
  }

  lemma SlotTimely(j: Job, log: seq<Event>, from: nat, up: nat, slot: nat, before: nat, r: SlotRecord)
    requires 0 < j.trackCount && Timely(log, from, up) && |log| < up
    ensures Timely(log + SlotEvents(j, slot, before, r), from, up)
  {
    hide FluxOf, Percent;
  }

  lemma SlotsTimely(j: Job, log: seq<Event>, from: nat, up: nat, slot: nat, before: nat)
    requires 0 < j.trackCount && Timely(log, from, up) && |log| < up
    ensures forall r :: Timely(log + SlotEvents(j, slot, before, r), from, up)
  {
    hide Timely, SlotEvents;
    forall r ensures Timely(log + SlotEvents(j, slot, before, r), from, up) {
      SlotTimely(j, log, from, up, slot, before, r);
    }
  }

  // ---------- The job ----------

  class ScpImage {
    const populated: seq<bool>
    const trackCount: int

    constructor (populated: seq<bool>, trackCount: int)
      ensures this.populated == populated && this.trackCount == trackCount
    {
      this.populated, this.trackCount := populated, trackCount;
    }

    /** Reading may fail or return any track data. */
    method ReadSlot(t: nat) returns (a: Answer) { a := *; }
  }

  class FluxWriteJob {
    const drive: Drive?
    const image: ScpImage
    const verify: bool
    const cancel: CancelFlag
    var log: seq<Event>

    constructor (drive: Drive?, image: ScpImage, verify: bool, cancel: CancelFlag)
      ensures this.drive == drive && this.image == image && this.verify == verify && this.cancel == cancel
      ensures log == []
    {
      this.drive, this.image, this.verify, this.cancel := drive, image, verify, cancel;
      log := [];
    }

    function TheJob(): Job { Job(image.populated, image.trackCount, verify) }

    method Emit(e: Event)
      modifies this`log
      ensures log == old(log) + [e]
    {
      log := log + [e];
    }

    /** Dropping the zero placeholders of revolution 0. */
    method CollectFlux(a: Answer) returns (flux: seq<uint32>)
      ensures flux == FluxOf(a)
    {
      flux := [];
      if !a.Track? || a.revolutions == [] || a.revolutions[0].NoFlux? || a.revolutions[0].data == [] { return; }
      var data := a.revolutions[0].data;
      var i := 0;
      while i < |data|
        invariant 0 <= i <= |data|
        invariant flux == NonZero(data[..i])
      {
        assert data[..i + 1][..i] == data[..i];
        if data[i] != 0 { flux := flux + [data[i]]; }
        i := i + 1;
      }
      assert data[..|data|] == data;
    }

    /** One populated slot. */
    method WriteSlot(d: Drive, t: nat, written: nat) returns (r: SlotRecord)
      requires 0 < image.trackCount
      modifies this`log
      ensures RecordOk(r)
      ensures log == old(log) + SlotEvents(TheJob(), t, written, r)
    {
      hide FluxOf, Percent;
      var a := image.ReadSlot(t);
      Emit(ReadTrack(t, a));
      var flux := CollectFlux(a);
      if flux == [] {
        Emit(FreeTrack(t));
        return Skipped(a);
      }
      var sought := d.Seek(t / 2);
      Emit(SeekTo(t / 2, sought));
      if !sought.SeekArrived? {
        Emit(FreeTrack(t));
        return SeekFailed(a, sought);
      }
      var result := d.WriteRawFlux(t / 2, t % 2, verify, flux);
      Emit(Write(t / 2, t % 2, verify, flux, result));
      Emit(FreeTrack(t));
      if !result.WriteCompleted? { return WriteFailed(a, result); }
      Emit(Progress(Percent(TheJob(), written + 1)));
      r := Written(a);
    }

    /** The walk over the slot space. */
    method Walk(d: Drive)
      returns (ghost rs: seq<SlotRecord>, written: nat, skipped: nat, hardErrors: nat,
               failed: bool, reason: Reason, aborted: bool)
      requires 0 < image.trackCount && |image.populated| == MAX_SLOTS
      modifies this`log, cancel
      ensures old(cancel.raised) ==> cancel.raised
      ensures Timely(log, |old(log)|, old(cancel.Certain()))
      ensures aborted ==> old(cancel.Possible()) < |log|
      ensures !failed && !aborted && !image.populated[MAX_SLOTS - 1] ==> |log| < old(cancel.Certain())
      ensures RecordsOk(TheJob(), rs)
      ensures log == old(log) + Body(TheJob(), rs) + (if aborted then [CancelSeen] else [])
      ensures written == WrittenIn(rs) && skipped == SkippedIn(rs)
      ensures hardErrors == if failed then 1 else 0
      ensures failed <==> rs != [] && !Passed(rs[|rs| - 1])
      ensures failed ==> reason == FailureReason(rs[|rs| - 1]) && !aborted
      ensures !failed && !aborted ==> |rs| == |Slots(image.populated, MAX_SLOTS)|
    {
      hide SlotEvents, RecordOk, Body, WrittenIn, SkippedIn, Slots, Timely;
      NothingBegun(log, old(cancel.Certain()));
      rs, written, skipped, hardErrors, failed, reason, aborted := [], 0, 0, 0, false, NoDevice, false;
      NothingYet(TheJob());
      var t := 0;
      while t < MAX_SLOTS && !aborted && !failed
        invariant 0 <= t <= MAX_SLOTS
        invariant old(cancel.raised) ==> cancel.raised
        invariant !aborted && cancel.raised ==> old(cancel.raised)
        invariant Timely(log, |old(log)|, old(cancel.Certain()))
        invariant aborted ==> old(cancel.Possible()) < |log|
        invariant !failed && !aborted && 0 < t && !image.populated[t - 1] ==> |log| < old(cancel.Certain())
        invariant RecordsOk(TheJob(), rs)
        invariant !aborted ==> |rs| == |Slots(image.populated, t)|
        invariant log == old(log) + Body(TheJob(), rs) + (if aborted then [CancelSeen] else [])
        invariant written == WrittenIn(rs) && skipped == SkippedIn(rs)
        invariant hardErrors == if failed then 1 else 0
        invariant failed <==> rs != [] && !Passed(rs[|rs| - 1])
        invariant failed ==> reason == FailureReason(rs[|rs| - 1]) && !aborted
        decreases MAX_SLOTS - t, !aborted
      {
        var seen := cancel.Poll(|log|);
        if seen {
          TimelyEnd(log, [CancelSeen], |old(log)|, old(cancel.Certain()));
          Emit(CancelSeen);
          aborted := true;
        } else {
          SlotNext(image.populated, t);
          if image.populated[t] {
            SlotsTimely(TheJob(), log, |old(log)|, old(cancel.Certain()), t, written);
            var r := WriteSlot(d, t, written);
            RecordsGrow(TheJob(), rs, r);
            rs := rs + [r];
            match r {
              case Skipped(_) => skipped := skipped + 1;
              case Written(_) => written := written + 1;
              case SeekFailed(_, _) => hardErrors, failed, reason := hardErrors + 1, true, SeekFailure;
              case WriteFailed(_, _) => hardErrors, failed, reason := hardErrors + 1, true, WriteFailure;
            }
          }
          t := t + 1;
        }
      }
    }

    method RunJob(pathGiven: bool, readable: bool, isScp: bool) returns (ghost run: Run)
      requires log == [] && |image.populated| == MAX_SLOTS
      modifies this`log, cancel
      ensures old(cancel.raised) ==> cancel.raised
      ensures Timely(log, |old(log)|, old(cancel.Certain()))
      ensures Reasoned(image.populated, run, |log|, old(cancel.Possible()), old(cancel.Certain()))
      ensures run.Rejected? <==> drive == null || !pathGiven || !readable || !isScp
      ensures run.Rejected? ==>
        run.reason == (if drive == null then NoDevice
                       else if !pathGiven then NoPath
                       else if !readable then NotReadable
                       else NotScp)
      ensures RunOk(TheJob(), run) && log == LogOf(TheJob(), run)
    {
      if drive == null { Emit(Error(NoDevice)); return Rejected(NoDevice); }
      if !pathGiven { Emit(Error(NoPath)); return Rejected(NoPath); }
      if !readable { Emit(Error(NotReadable)); return Rejected(NotReadable); }
      if !isScp { Emit(Error(NotScp)); return Rejected(NotScp); }
      run := OpenAndWrite(drive);
    }

    method OpenAndWrite(d: Drive) returns (ghost run: Run)
      requires log == [] && |image.populated| == MAX_SLOTS
      modifies this`log, cancel
      ensures old(cancel.raised) ==> cancel.raised
      ensures Timely(log, 0, old(cancel.Certain()))
      ensures Reasoned(image.populated, run, |log|, old(cancel.Possible()), old(cancel.Certain()))
      ensures !run.Rejected? && RunOk(TheJob(), run) && log == LogOf(TheJob(), run)
    {
      hide Body, RecordsOk, Passed, Slots, Timely;
      NoReads(|log|, old(cancel.Certain()));
      var created := *;
      Emit(CreateContext(created));
      if !created { Emit(Error(OutOfMemory)); return ContextMissing; }
      var open := *;
      Emit(OpenFile(open));
      if !open {
        Emit(DestroyContext);
        Emit(Error(OpenFailure));
        return OpenRefused;
      }
      if image.trackCount <= 0 {
        Emit(CloseFile);
        Emit(DestroyContext);
        Emit(Error(NoTracks));
        return ImageEmpty;
      }
      var motor := d.SetMotor(true);
      Emit(MotorOn(motor));
      if !MotorOk(motor) {
        Emit(CloseFile);
        Emit(DestroyContext);
        Emit(Error(MotorFailure));
        return MotorFailed(motor);
      }
      run := WriteImage(d, motor);
    }

    /** The run from the moment the motor turns. */
    method WriteImage(d: Drive, motor: MotorOutcome) returns (ghost run: Run)
      requires 0 < image.trackCount && |image.populated| == MAX_SLOTS && MotorOk(motor)
      requires log == Opening(motor)
      modifies this`log, cancel
      ensures old(cancel.raised) ==> cancel.raised
      ensures Timely(log, 0, old(cancel.Certain()))
      ensures Reasoned(image.populated, run, |log|, old(cancel.Possible()), old(cancel.Certain()))
      ensures run.Failed? || run.Cancelled? || run.Completed?
      ensures RunOk(TheJob(), run) && log == LogOf(TheJob(), run)
    {
      hide Body, RecordsOk, Passed, FailureReason, Opening, Teardown, WrittenIn, SkippedIn, Slots;
      Emit(Progress(0));
      ghost var rs;
      var written, skipped, hardErrors, failed, reason, aborted;
      rs, written, skipped, hardErrors, failed, reason, aborted := Walk(d);
      ghost var soFar := log;
      OpeningLength(motor);
      assert soFar[3] == Progress(0) && soFar[..3] == Opening(motor);
      assert Timely(soFar, 0, old(cancel.Certain())) by { OpeningTimely(soFar, motor, old(cancel.Certain())); }
      if failed || aborted {
        TearDown(d, if failed then reason else UserCancel);
        TeardownEnds(if failed then reason else UserCancel);
        TimelyEnd(soFar, Teardown(if failed then reason else UserCancel), 0, old(cancel.Certain()));
        run := if failed then Failed(motor, rs) else Cancelled(motor, rs);
      } else {
        Finish(d, written, skipped, hardErrors);
        TimelyEnd(soFar, [MotorOff, CloseFile, DestroyContext, Progress(100), Finished(written, skipped, hardErrors)],
                  0, old(cancel.Certain()));
        run := Completed(motor, rs);
      }
    }

    method TearDown(d: Drive, reason: Reason)
      modifies this`log
      ensures log == old(log) + Teardown(reason)
    {
      var ignored := d.SetMotor(false);
      Emit(MotorOff);
      Emit(CloseFile);
      Emit(DestroyContext);
      Emit(Error(reason));
    }

    method Finish(d: Drive, written: nat, skipped: nat, hardErrors: nat)
      modifies this`log
      ensures log == old(log)
        + [MotorOff, CloseFile, DestroyContext, Progress(100), Finished(written, skipped, hardErrors)]
    {
      var ignored := d.SetMotor(false);
      Emit(MotorOff);
      Emit(CloseFile);
      Emit(DestroyContext);
      Emit(Progress(100));
      Emit(Finished(written, skipped, hardErrors));
    }
  }

  lemma NothingYet(j: Job)
    requires 0 < j.trackCount && |j.populated| == MAX_SLOTS
    ensures Slots(j.populated, 0) == [] && Body(j, []) == [] && WrittenIn([]) == 0 && SkippedIn([]) == 0
  {
  }

  /** A populated slot comes next in the slot list; any other adds nothing. */
  lemma SlotNext(populated: seq<bool>, t: nat)
    requires t < |populated| == MAX_SLOTS
    ensures |Slots(populated, t + 1)| == |Slots(populated, t)| + (if populated[t] then 1 else 0)
    ensures populated[t] ==>
      && |Slots(populated, t)| < |Slots(populated, MAX_SLOTS)|
      && Slots(populated, MAX_SLOTS)[|Slots(populated, t)|] == t
  {
    SlotsPrefix(populated, t + 1, MAX_SLOTS);
  }

  lemma {:induction false} SlotsPrefix(populated: seq<bool>, t: nat, u: nat)
    requires t <= u <= |populated|
    ensures Slots(populated, t) <= Slots(populated, u)
    decreases u
  {
    if t < u {
      SlotsPrefix(populated, t, u - 1);
    }
  }

  lemma RecordsGrow(j: Job, rs: seq<SlotRecord>, r: SlotRecord)
    requires 0 < j.trackCount && RecordsOk(j, rs) && RecordOk(r) && |rs| < |Slots(j.populated, MAX_SLOTS)|
    requires rs != [] ==> Passed(rs[|rs| - 1])
    ensures RecordsOk(j, rs + [r])
    ensures Body(j, rs + [r]) == Body(j, rs) + SlotEvents(j, Slots(j.populated, MAX_SLOTS)[|rs|], WrittenIn(rs), r)
    ensures WrittenIn(rs + [r]) == WrittenIn(rs) + (if r.Written? then 1 else 0)
    ensures SkippedIn(rs + [r]) == SkippedIn(rs) + (if r.Skipped? then 1 else 0)
  {
    hide SlotEvents, RecordOk, Passed;
    assert (rs + [r])[..|rs|] == rs;
  }

  predicate HasFlux(a: Answer) { a.Track? && a.revolutions != [] && a.revolutions[0].Flux? }

  /** What is written for a track: its first revolution, if it has one with flux, less the zeros; nothing
      for any other answer, nor for a revolution of zeros. */
  lemma FluxOfIs(a: Answer)
    ensures HasFlux(a) ==>
      && FluxOf(a) == NonZero(a.revolutions[0].data)
      && Sum(FluxOf(a)) == Sum(a.revolutions[0].data)
      && (FluxOf(a) == [] <==> forall i | 0 <= i < |a.revolutions[0].data| :: a.revolutions[0].data[i] == 0)
    ensures !HasFlux(a) ==> FluxOf(a) == []
  {
    if HasFlux(a) {
      NonZeroKeepsTime(a.revolutions[0].data);
      AllZero(a.revolutions[0].data);
    }
  }

  lemma {:induction false} AllZero(data: seq<uint32>)
    ensures NonZero(data) == [] <==> forall i | 0 <= i < |data| :: data[i] == 0
    decreases |data|
  {
    if data != [] { AllZero(data[..|data| - 1]); }
  }
}
