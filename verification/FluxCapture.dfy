/** The capture job: a protocol between a drive that may answer anything, an SCP writer, and a
    cancel flag that may be raised at any moment. */
module FluxCapture {
  import opened Flags
  import opened FluxSlicing
  import opened Outcomes

  // ---------- What a run does, as a log of events ----------

  datatype Reason =
    | NoDevice | NoPath | BadGeometry | NoDirectory
    | NoWriter | MotorFailure | UserCancel | DeviceGone | SaveFailure

  datatype Event =
    | CreateWriter(ok: bool)
    | FreeWriter
    | MotorOn(motor: MotorOutcome)
    | MotorOff
    | SeekTo(cylinder: nat, seek: SeekOutcome)
    | Read(cylinder: nat, side: nat, flux: FluxOutcome)
    | AddTrack(cylinder: nat, side: nat, samples: seq<uint32>, duration: uint32, slot: nat, ok: bool)
    | CancelSeen
    | Save(ok: bool)
    | Progress(percent: nat)
    | Error(reason: Reason)
    | Finished(errors: nat)

  /** The answers for one side: the read's outcome and the writer's answer to every revolution. */
  datatype SideRecord = SideRecord(flux: FluxOutcome, adds: seq<bool>)

  datatype CylinderRecord = Skipped(seek: SeekOutcome) | Visited(sides: seq<SideRecord>)

  datatype Config = Config(cylinders: nat, sides: nat, revolutions: nat)

  datatype Run =
    | Rejected(reason: Reason)
    | WriterMissing
    | MotorFailed(motor: MotorOutcome)
    | Aborted(motor: MotorOutcome, records: seq<CylinderRecord>, cancelSeen: bool, reason: Reason)
    | Completed(motor: MotorOutcome, records: seq<CylinderRecord>, saved: bool)

  function Revolutions(c: Config, s: SideRecord): seq<Slice> {
    match s.flux
    case FluxCaptured(ts, times) => Slices(ts, times, 0, 0, c.revolutions)
    case _ => []
  }

  function AddEvents(cyl: nat, side: nat, ts: seq<uint32>, ss: seq<Slice>, adds: seq<bool>): (es: seq<Event>)
    requires |adds| <= |ss| && forall i | 0 <= i < |ss| :: ss[i].start <= ss[i].end <= |ts|
    ensures |es| == |adds|
  {
    seq(|adds|, i requires 0 <= i < |adds| =>
      AddTrack(cyl, side, ts[ss[i].start..ss[i].end], ss[i].duration, ss[i].slot, adds[i]))
  }

  predicate SideOk(c: Config, s: SideRecord) { |s.adds| == |Revolutions(c, s)| }

  function SideEvents(c: Config, cyl: nat, side: nat, s: SideRecord): seq<Event>
    requires SideOk(c, s)
  {
    [Read(cyl, side, s.flux)]
      + (if s.flux.FluxCaptured? then AddEvents(cyl, side, s.flux.transitions, Revolutions(c, s), s.adds) else [])
  }

  function CountFalse(bs: seq<bool>): nat {
    if bs == [] then 0 else CountFalse(bs[..|bs| - 1]) + (if bs[|bs| - 1] then 0 else 1)
  }

  /** Errors logged for one side: a read without usable index marks, or every refused revolution.
      A lost device is not counted; it aborts. */
  function SideErrors(s: SideRecord): nat {
    match s.flux
    case FluxCaptured(ts, times) => if times == [] then 1 else CountFalse(s.adds)
    case FluxDisconnected => 0
    case _ => 1
  }

  predicate GeometryOk(c: Config) { 0 < c.cylinders && 0 < c.sides <= 2 }

  function Percent(c: Config, step: nat): nat
    requires GeometryOk(c)
  {
    step * 100 / (c.cylinders * c.sides)
  }

  predicate Lost(r: CylinderRecord) {
    match r
    case Skipped(o) => o.SeekDisconnected?
    case Visited(ss) => ss != [] && ss[|ss| - 1].flux.FluxDisconnected?
  }

  /** Answers that fit one cylinder: at most one per side, and none after the device is gone. */
  predicate RecordOk(c: Config, r: CylinderRecord) {
    match r
    case Skipped(o) => !o.SeekArrived?
    case Visited(ss) =>
      && |ss| <= c.sides
      && (forall i | 0 <= i < |ss| :: SideOk(c, ss[i]))
      && forall i | 0 <= i < |ss| - 1 :: !ss[i].flux.FluxDisconnected?
  }

  predicate Done(c: Config, r: CylinderRecord) {
    !Lost(r) && (r.Visited? ==> |r.sides| == c.sides)
  }

  predicate RecordsOk(c: Config, rs: seq<CylinderRecord>) {
    && |rs| <= c.cylinders
    && (forall i | 0 <= i < |rs| :: RecordOk(c, rs[i]))
    && forall i | 0 <= i < |rs| - 1 :: Done(c, rs[i])
  }

  function StepsIn(c: Config, r: CylinderRecord): nat { if r.Skipped? then c.sides else |r.sides| }

  function Steps(c: Config, rs: seq<CylinderRecord>): nat {
    if rs == [] then 0 else Steps(c, rs[..|rs| - 1]) + StepsIn(c, rs[|rs| - 1])
  }

  function SidesErrors(ss: seq<SideRecord>): nat {
    if ss == [] then 0 else SidesErrors(ss[..|ss| - 1]) + SideErrors(ss[|ss| - 1])
  }

  function Errors(rs: seq<CylinderRecord>): nat {
    if rs == [] then 0
    else Errors(rs[..|rs| - 1]) + (match rs[|rs| - 1] case Skipped(_) => 1 case Visited(ss) => SidesErrors(ss))
  }

  function SidesEvents(c: Config, cyl: nat, step: nat, ss: seq<SideRecord>): seq<Event>
    requires GeometryOk(c) && forall i | 0 <= i < |ss| :: SideOk(c, ss[i])
  {
    if ss == [] then []
    else
      var n := |ss| - 1;
      SidesEvents(c, cyl, step, ss[..n]) + SideEvents(c, cyl, n, ss[n]) + [Progress(Percent(c, step + n + 1))]
  }

  function CylinderEvents(c: Config, cyl: nat, step: nat, r: CylinderRecord): seq<Event>
    requires GeometryOk(c) && RecordOk(c, r)
  {
    match r
    case Skipped(o) => [SeekTo(cyl, o)]
    case Visited(ss) => [SeekTo(cyl, SeekArrived)] + SidesEvents(c, cyl, step, ss)
  }

  function Body(c: Config, rs: seq<CylinderRecord>): seq<Event>
    requires GeometryOk(c) && forall i | 0 <= i < |rs| :: RecordOk(c, rs[i])
  {
    if rs == [] then []
    else
      var n := |rs| - 1;
      Body(c, rs[..n]) + CylinderEvents(c, n, Steps(c, rs[..n]), rs[n])
  }

  /** Which runs there are. */
  predicate RunOk(c: Config, run: Run) {
    match run
    case Rejected(reason) => reason.NoDevice? || reason.NoPath? || reason.BadGeometry? || reason.NoDirectory?
    case WriterMissing => GeometryOk(c)
    case MotorFailed(m) => GeometryOk(c) && !MotorOk(m)
    case Aborted(m, rs, cancelSeen, reason) =>
      && GeometryOk(c)
      && MotorOk(m)
      && RecordsOk(c, rs)
      && (cancelSeen || (rs != [] && Lost(rs[|rs| - 1])))
      && (reason.UserCancel? || (reason.DeviceGone? && !cancelSeen))
    case Completed(m, rs, _) =>
      && GeometryOk(c)
      && MotorOk(m)
      && RecordsOk(c, rs)
      && |rs| == c.cylinders
      && Done(c, rs[|rs| - 1])
  }

  /** The events of a run, in order. */
  function LogOf(c: Config, run: Run): seq<Event>
    requires RunOk(c, run)
  {
    match run
    case Rejected(reason) => [Error(reason)]
    case WriterMissing => [CreateWriter(false), Error(NoWriter)]
    case MotorFailed(m) => [CreateWriter(true), MotorOn(m), FreeWriter, Error(MotorFailure)]
    case Aborted(m, rs, cancelSeen, reason) =>
      Opening(m) + Body(c, rs) + (if cancelSeen then [CancelSeen] else []) + [MotorOff, FreeWriter, Error(reason)]
    case Completed(m, rs, saved) =>
      Opening(m) + Body(c, rs) + [MotorOff] + Saving(saved, Errors(rs))
  }

  function Opening(m: MotorOutcome): seq<Event> { [CreateWriter(true), MotorOn(m), Progress(0)] }

  function Saving(saved: bool, errors: nat): seq<Event> {
    [Save(saved), FreeWriter] + (if saved then [Progress(100), Finished(errors)] else [Error(SaveFailure)])
  }

  /** The events that follow a look at the cancel flag. */
  predicate Begins(e: Event) { e.SeekTo? || e.Read? }

  /** Every seek and read from entry `from` on comes before entry `up`: no cylinder and no side is
      begun once a flag that is up from then on has been raised. */
  predicate Timely(log: seq<Event>, from: nat, up: nat) {
    forall i | from <= i < |log| && Begins(log[i]) :: i < up
  }

  /** The end of an aborted run with `n` entries: a cancel is seen only once the flag may be up, and
      the reason is the flag whenever it is up when the reason is chosen, the device otherwise. */
  predicate Reasoned(run: Run, n: nat, possible: nat, certain: nat)
    requires run.Aborted?
  {
    && (run.cancelSeen ==> possible + 4 <= n)
    && (certain < n ==> run.reason.UserCancel?)
    && (run.reason.UserCancel? ==> possible < n)
  }

  lemma SavingEnds(saved: bool, errors: nat)
    ensures forall i | 0 <= i < |[MotorOff] + Saving(saved, errors)| :: !Begins(([MotorOff] + Saving(saved, errors))[i])
  {
  }

  lemma TimelyEnd(log: seq<Event>, es: seq<Event>, from: nat, up: nat)
    requires Timely(log, from, up) && forall i | 0 <= i < |es| :: !Begins(es[i])
    ensures Timely(log + es, from, up)
  {
  }

  lemma TimelyEmit(log: seq<Event>, e: Event, from: nat, up: nat)
    requires Timely(log, from, up) && (Begins(e) ==> |log| < up)
    ensures Timely(log + [e], from, up)
  {
  }

  lemma SidesTimely(c: Config, log: seq<Event>, cyl: nat, side: nat, from: nat, up: nat)
    requires Timely(log, from, up) && |log| < up
    ensures forall r | SideOk(c, r) :: Timely(log + SideEvents(c, cyl, side, r), from, up)
  {
    hide Timely;
    forall r | SideOk(c, r) ensures Timely(log + SideEvents(c, cyl, side, r), from, up) {
      SideTimely(c, log, cyl, side, r, from, up);
    }
  }

  lemma SideTimely(c: Config, log: seq<Event>, cyl: nat, side: nat, r: SideRecord, from: nat, up: nat)
    requires Timely(log, from, up) && |log| < up && SideOk(c, r)
    ensures Timely(log + SideEvents(c, cyl, side, r), from, up)
  {
    hide Revolutions;
  }

  // ---------- The job ----------

  class FluxCaptureJob {
    const drive: Drive?
    const cancel: CancelFlag
    var outputPath: string
    var cylinders: int
    var sides: int
    var revolutions: int
    var log: seq<Event>

    constructor (drive: Drive?, cancel: CancelFlag)
      ensures Valid() && this.drive == drive && this.cancel == cancel && log == []
      ensures cylinders == 80 && sides == 2 && revolutions == 2 && outputPath == ""
    {
      this.drive, this.cancel := drive, cancel;
      outputPath, cylinders, sides, revolutions, log := "", 80, 2, 2, [];
    }

    predicate Valid()
      reads this
    {
      1 <= revolutions <= 5
    }

    method SetRevolutions(revs: int)
      modifies this`revolutions
      ensures Valid()
      ensures revolutions == if revs < 1 then 1 else if revs > 5 then 5 else revs
    {
      var r := revs;
      if r < 1 { r := 1; }
      if r > 5 { r := 5; }
      revolutions := r;
    }

    function Geometry(): Config
      reads this
      requires 0 < cylinders && 0 < sides && Valid()
    {
      Config(cylinders, sides, revolutions)
    }

    method Emit(e: Event)
      modifies this`log
      ensures log == old(log) + [e]
    {
      log := log + [e];
    }

    /** The inner loop: add up transitions, in 64 bits, until the index time is reached. */
    method Walk(ts: seq<uint32>, start: nat, sum: int, target: uint32) returns (end: nat, cumulative: int)
      requires start <= |ts| && sum == PrefixSum(ts, start)
      ensures end == BoundaryFrom(ts, start, target)
      ensures cumulative == PrefixSum(ts, end)
    {
      end, cumulative := start, sum;
      while end < |ts| && cumulative < target
        invariant start <= end <= |ts|
        invariant cumulative == PrefixSum(ts, end)
        invariant BoundaryFrom(ts, end, target) == BoundaryFrom(ts, start, target)
      {
        cumulative := (cumulative + ts[end] as int) % 0x1_0000_0000_0000_0000;
        end := end + 1;
      }
    }

    /** The slicing loop: walk the flux with a running 64-bit sum, cut at every index time, and
        hand every nonempty revolution to the writer until its slots are used up. */
    method AddRevolutions(cyl: nat, side: nat, ts: seq<uint32>, times: seq<uint32>)
      returns (adds: seq<bool>, errors: nat)
      requires Valid()
      modifies this`log
      ensures |adds| == |Slices(ts, times, 0, 0, revolutions)|
      ensures log == old(log) + AddEvents(cyl, side, ts, Slices(ts, times, 0, 0, revolutions), adds)
      ensures errors == CountFalse(adds)
    {
      hide Slices, Cut, AddEvents, CountFalse, BoundaryFrom, PrefixSum, Sub32;
      adds, errors := [], 0;
      ghost var all := Slices(ts, times, 0, 0, revolutions);
      var sampleStart: nat, cumulative: int, prevIndex: uint32, slot: nat, r: nat := 0, 0, 0, 0, 0;
      CutZero(ts, times);
      assert AddEvents(cyl, side, ts, all, []) == [];
      while r < |times| && slot < revolutions
        invariant 0 <= r <= |times| && slot == |adds| <= |all|
        invariant sampleStart == Cut(ts, times, r) && cumulative == PrefixSum(ts, sampleStart)
        invariant prevIndex == Previous(times, r)
        invariant Slices(ts, times, r, slot, revolutions) == all[slot..]
        invariant log == old(log) + AddEvents(cyl, side, ts, all, adds)
        invariant errors == CountFalse(adds)
      {
        var target := times[r];
        var sampleEnd;
        sampleEnd, cumulative := Walk(ts, sampleStart, cumulative, target);
        CutStep(ts, times, r);
        SlicesUnfold(ts, times, r, slot, revolutions);
        if sampleEnd > sampleStart {
          var ok := *;
          assert all[slot] == all[slot..][0] == Slice(slot, sampleStart, sampleEnd, r, Sub32(target, prevIndex));
          assert all[slot + 1..] == all[slot..][1..];
          Emit(AddTrack(cyl, side, ts[sampleStart..sampleEnd], Sub32(target, prevIndex), slot, ok));
          if !ok { errors := errors + 1; }
          AddEventsGrow(cyl, side, ts, all, adds, ok);
          CountFalseGrow(adds, ok);
          adds := adds + [ok];
          slot := slot + 1;
        }
        prevIndex := target;
        sampleStart := sampleEnd;
        r := r + 1;
      }
      assert Slices(ts, times, r, slot, revolutions) == [] by { SlicesEnd(ts, times, r, slot, revolutions); }
    }

    /** One side: the read and what its outcome leads to. */
    method CaptureSide(d: Drive, cyl: nat, side: nat) returns (rec: SideRecord, errors: nat)
      requires Valid() && 0 < cylinders && 0 < sides
      modifies this`log
      ensures SideOk(Geometry(), rec)
      ensures log == old(log) + SideEvents(Geometry(), cyl, side, rec)
      ensures errors == SideErrors(rec)
    {
      hide Slices, AddEvents;
      var o := d.ReadRawFlux(cyl, side, revolutions);
      Emit(Read(cyl, side, o));
      rec, errors := SideRecord(o, []), 0;
      match o {
        case FluxCaptured(ts, times) =>
          if times == [] {
            errors := 1;
            NoIndexNoSlices(ts, revolutions);
            assert AddEvents(cyl, side, ts, Slices(ts, times, 0, 0, revolutions), []) == [];
          } else {
            var adds;
            adds, errors := AddRevolutions(cyl, side, ts, times);
            rec := SideRecord(o, adds);
          }
        case FluxDisconnected =>
        case _ => errors := 1;
      }
    }

    /** One cylinder: the seek, then the sides until one of them ends the run. */
    method CaptureCylinder(d: Drive, cyl: nat, step0: nat)
      returns (rec: CylinderRecord, step: nat, errors: nat, aborted: bool, cancelSeen: bool)
      requires Valid() && 0 < cylinders && 0 < sides <= 2
      requires !cancel.raised && |log| < cancel.upFrom
      modifies this`log, cancel
      ensures Timely(log, |old(log)|, old(cancel.Certain()))
      ensures cancelSeen ==> old(cancel.Possible()) < |log|
      ensures !cancelSeen ==> cancel.raised == old(cancel.raised)
      ensures RecordOk(Geometry(), rec)
      ensures log == old(log) + CylinderEvents(Geometry(), cyl, step0, rec)
                     + (if cancelSeen then [CancelSeen] else [])
      ensures step == step0 + StepsIn(Geometry(), rec)
      ensures errors == match rec case Skipped(_) => 1 case Visited(ss) => SidesErrors(ss)
      ensures aborted <==> cancelSeen || Lost(rec)
      ensures !aborted ==> Done(Geometry(), rec)
      ensures cancelSeen ==> cancel.raised
    {
      hide SideErrors, SideEvents, SideOk;
      step, errors, aborted, cancelSeen := step0, 0, false, false;
      var o := d.Seek(cyl);
      Emit(SeekTo(cyl, o));
      if !o.SeekArrived? {
        return Skipped(o), step + sides, 1, o.SeekDisconnected?, false;
      }
      var ss: seq<SideRecord>;
      ss, step, errors, aborted, cancelSeen := CaptureSides(d, cyl, step0);
      rec := Visited(ss);
    }

    method CaptureSides(d: Drive, cyl: nat, step0: nat)
      returns (ss: seq<SideRecord>, step: nat, errors: nat, aborted: bool, cancelSeen: bool)
      requires Valid() && 0 < cylinders && 0 < sides <= 2
      modifies this`log, cancel
      ensures old(cancel.raised) ==> cancel.raised
      ensures Timely(log, |old(log)|, old(cancel.Certain()))
      ensures cancelSeen ==> old(cancel.Possible()) < |log|
      ensures !cancelSeen ==> cancel.raised == old(cancel.raised)
      ensures RecordOk(Geometry(), Visited(ss))
      ensures log == old(log) + SidesEvents(Geometry(), cyl, step0, ss) + (if cancelSeen then [CancelSeen] else [])
      ensures step == step0 + |ss| && errors == SidesErrors(ss)
      ensures aborted <==> cancelSeen || Lost(Visited(ss))
      ensures !aborted ==> |ss| == sides
      ensures cancelSeen ==> cancel.raised
    {
      hide SideErrors, SideEvents, SideOk, Percent, SidesEvents, SidesErrors;
      ss, step, errors, aborted, cancelSeen := [], step0, 0, false, false;
      NoSides(Geometry(), cyl, step0);
      while |ss| < sides && !aborted
        invariant old(cancel.raised) ==> cancel.raised
        invariant Timely(log, |old(log)|, old(cancel.Certain()))
        invariant cancelSeen ==> old(cancel.Possible()) < |log|
        invariant !cancelSeen ==> cancel.raised == old(cancel.raised)
        invariant RecordOk(Geometry(), Visited(ss))
        invariant log == old(log) + SidesEvents(Geometry(), cyl, step0, ss) + (if cancelSeen then [CancelSeen] else [])
        invariant step == step0 + |ss| && errors == SidesErrors(ss)
        invariant aborted <==> cancelSeen || Lost(Visited(ss))
        invariant cancelSeen ==> cancel.raised
        decreases sides - |ss|, !aborted
      {
        var seen := cancel.Poll(|log|);
        if seen {
          Emit(CancelSeen);
          aborted, cancelSeen := true, true;
        } else {
          SidesTimely(Geometry(), log, cyl, |ss|, |old(log)|, old(cancel.Certain()));
          var rec, errs := CaptureSide(d, cyl, |ss|);
          SidesGrow(Geometry(), cyl, step0, ss, rec);
          if rec.flux.FluxDisconnected? { aborted := true; }
          errors := errors + errs;
          step := step + 1;
          TimelyEmit(log, Progress(Percent(Geometry(), step)), |old(log)|, old(cancel.Certain()));
          Emit(Progress(Percent(Geometry(), step)));
          ss := ss + [rec];
        }
      }
    }

    /** The whole job.  `run` names the answers it met; the log is then fixed. */
    method RunJob(dirExists: bool) returns (ghost run: Run)
      requires Valid() && log == []
      modifies this`log, cancel
      ensures old(cancel.raised) ==> cancel.raised
      ensures Timely(log, |old(log)|, old(cancel.Certain()))
      ensures run.Aborted? ==> Reasoned(run, |log|, old(cancel.Possible()), old(cancel.Certain()))
      ensures run.Rejected? <==>
        drive == null || outputPath == "" || cylinders <= 0 || sides <= 0 || sides > 2 || !dirExists
      ensures run.Rejected? ==> log == [Error(run.reason)]
      ensures run.Rejected? ==>
        run.reason == (if drive == null then NoDevice
                       else if outputPath == "" then NoPath
                       else if cylinders <= 0 || sides <= 0 || sides > 2 then BadGeometry
                       else NoDirectory)
      ensures !run.Rejected? ==> RunOk(Geometry(), run) && log == LogOf(Geometry(), run)
    {
      hide Body, RecordsOk;
      if drive == null { Emit(Error(NoDevice)); return Rejected(NoDevice); }
      if outputPath == "" { Emit(Error(NoPath)); return Rejected(NoPath); }
      if cylinders <= 0 || sides <= 0 || sides > 2 { Emit(Error(BadGeometry)); return Rejected(BadGeometry); }
      if !dirExists { Emit(Error(NoDirectory)); return Rejected(NoDirectory); }
      var created := *;
      Emit(CreateWriter(created));
      if !created { Emit(Error(NoWriter)); return WriterMissing; }
      var motor := drive.SetMotor(true);
      Emit(MotorOn(motor));
      if !MotorOk(motor) {
        Emit(FreeWriter);
        Emit(Error(MotorFailure));
        return MotorFailed(motor);
      }
      run := Capture(drive, motor);
    }

    /** The run from the moment the motor turns. */
    method Capture(d: Drive, motor: MotorOutcome) returns (ghost run: Run)
      requires Valid() && 0 < cylinders && 0 < sides <= 2 && MotorOk(motor)
      requires log == [CreateWriter(true), MotorOn(motor)]
      modifies this`log, cancel
      ensures old(cancel.raised) ==> cancel.raised
      ensures Timely(log, |old(log)|, old(cancel.Certain()))
      ensures run.Aborted? ==> Reasoned(run, |log|, old(cancel.Possible()), old(cancel.Certain()))
      ensures run.Aborted? || run.Completed?
      ensures RunOk(Geometry(), run) && log == LogOf(Geometry(), run)
    {
      hide Body, RecordsOk, Done, Errors, Saving, Lost, Opening;
      Emit(Progress(0));
      assert log == Opening(motor) by { OpeningIs(motor); }
      var errors, aborted, cancelSeen;
      ghost var records;
      records, errors, aborted, cancelSeen := CaptureAll(d);
      ghost var soFar := log;
      var ignored := d.SetMotor(false);
      Emit(MotorOff);
      if aborted {
        var reason := EndAborted(cancelSeen);
        assert log == soFar + [MotorOff, FreeWriter, Error(reason)];
        TimelyEnd(soFar, [MotorOff, FreeWriter, Error(reason)], 2, old(cancel.Certain()));
        run := Aborted(motor, records, cancelSeen, reason);
      } else {
        var saved := SaveFile(errors);
        assert soFar + [] == soFar;
        SavingEnds(saved, errors);
        TimelyEnd(soFar, [MotorOff] + Saving(saved, errors), 2, old(cancel.Certain()));
        assert log == soFar + ([MotorOff] + Saving(saved, errors));
        run := Completed(motor, records, saved);
      }
    }

    method EndAborted(ghost cancelSeen: bool) returns (reason: Reason)
      requires cancelSeen ==> cancel.raised
      modifies this`log, cancel
      ensures old(cancel.raised) ==> cancel.raised
      ensures old(cancel.Certain()) <= |old(log)| + 1 ==> reason.UserCancel?
      ensures reason.UserCancel? ==> old(cancel.Possible()) <= |old(log)| + 1
      ensures log == old(log) + [FreeWriter, Error(reason)]
      ensures reason.UserCancel? || (reason.DeviceGone? && !cancelSeen)
    {
      Emit(FreeWriter);
      var cancelled := cancel.Poll(|log|);
      reason := if cancelled then UserCancel else DeviceGone;
      Emit(Error(reason));
    }

    method SaveFile(errors: nat) returns (saved: bool)
      modifies this`log
      ensures log == old(log) + Saving(saved, errors)
    {
      saved := *;
      Emit(Save(saved));
      Emit(FreeWriter);
      if !saved {
        Emit(Error(SaveFailure));
      } else {
        Emit(Progress(100));
        Emit(Finished(errors));
      }
    }

    method CaptureAll(d: Drive)
      returns (ghost records: seq<CylinderRecord>, errors: nat, aborted: bool, cancelSeen: bool)
      requires Valid() && 0 < cylinders && 0 < sides <= 2
      modifies this`log, cancel
      ensures old(cancel.raised) ==> cancel.raised
      ensures Timely(log, |old(log)|, old(cancel.Certain()))
      ensures cancelSeen ==> old(cancel.Possible()) < |log|
      ensures !cancelSeen ==> cancel.raised == old(cancel.raised)
      ensures RecordsOk(Geometry(), records)
      ensures log == old(log) + Body(Geometry(), records) + (if cancelSeen then [CancelSeen] else [])
      ensures errors == Errors(records)
      ensures aborted <==> cancelSeen || (records != [] && Lost(records[|records| - 1]))
      ensures !aborted ==> |records| == cylinders && Done(Geometry(), records[|records| - 1])
      ensures cancelSeen ==> cancel.raised
    {
      hide CylinderEvents, RecordOk, Done, SidesErrors, Body, Errors, Steps, StepsIn, Lost;
      records, errors, aborted, cancelSeen := [], 0, false, false;
      NoRecords(Geometry());
      var step, cyl := 0, 0;
      while cyl < cylinders && !aborted
        invariant 0 <= cyl <= cylinders
        invariant old(cancel.raised) ==> cancel.raised
        invariant Timely(log, |old(log)|, old(cancel.Certain()))
        invariant cancelSeen ==> old(cancel.Possible()) < |log|
        invariant !cancelSeen ==> cancel.raised == old(cancel.raised)
        invariant RecordsOk(Geometry(), records)
        invariant !aborted ==> |records| == cyl
        invariant log == old(log) + Body(Geometry(), records) + (if cancelSeen then [CancelSeen] else [])
        invariant errors == Errors(records)
        invariant !aborted ==> step == Steps(Geometry(), records)
        invariant aborted <==> cancelSeen || (records != [] && Lost(records[|records| - 1]))
        invariant !aborted && records != [] ==> Done(Geometry(), records[|records| - 1])
        invariant cancelSeen ==> cancel.raised
      {
        var seen := cancel.Poll(|log|);
        if seen {
          Emit(CancelSeen);
          aborted, cancelSeen := true, true;
        } else {
          var rec, errs;
          rec, step, errs, aborted, cancelSeen := CaptureCylinder(d, cyl, step);
          RecordsGrow(Geometry(), records, rec);
          errors := errors + errs;
          records := records + [rec];
        }
        cyl := cyl + 1;
      }
    }
  }

  lemma RecordsGrow(c: Config, rs: seq<CylinderRecord>, r: CylinderRecord)
    requires GeometryOk(c) && RecordsOk(c, rs) && RecordOk(c, r) && |rs| < c.cylinders
    requires rs != [] ==> Done(c, rs[|rs| - 1])
    ensures RecordsOk(c, rs + [r])
    ensures Body(c, rs + [r]) == Body(c, rs) + CylinderEvents(c, |rs|, Steps(c, rs), r)
    ensures Errors(rs + [r]) == Errors(rs) + (match r case Skipped(_) => 1 case Visited(ss) => SidesErrors(ss))
    ensures Steps(c, rs + [r]) == Steps(c, rs) + StepsIn(c, r)
  {
    hide CylinderEvents, RecordOk, Done, SidesErrors, StepsIn;
    assert (rs + [r])[..|rs|] == rs;
  }

  lemma OpeningIs(m: MotorOutcome)
    ensures Opening(m) == [CreateWriter(true), MotorOn(m)] + [Progress(0)]
  {
  }

  lemma NoRecords(c: Config)
    requires GeometryOk(c)
    ensures Body(c, []) == [] && Errors([]) == 0 && Steps(c, []) == 0
  {
  }

  lemma NoSides(c: Config, cyl: nat, step: nat)
    requires GeometryOk(c)
    ensures SidesEvents(c, cyl, step, []) == [] && SidesErrors([]) == 0
  {
  }

  lemma NoIndexNoSlices(ts: seq<uint32>, limit: nat)
    ensures Slices(ts, [], 0, 0, limit) == []
  {
  }

  lemma SidesGrow(c: Config, cyl: nat, step: nat, ss: seq<SideRecord>, r: SideRecord)
    requires GeometryOk(c) && RecordOk(c, Visited(ss)) && !Lost(Visited(ss)) && |ss| < c.sides && SideOk(c, r)
    ensures RecordOk(c, Visited(ss + [r]))
    ensures SidesEvents(c, cyl, step, ss + [r])
         == SidesEvents(c, cyl, step, ss) + SideEvents(c, cyl, |ss|, r) + [Progress(Percent(c, step + |ss| + 1))]
    ensures SidesErrors(ss + [r]) == SidesErrors(ss) + SideErrors(r)
  {
    hide SideOk, SideErrors, SideEvents, Percent;
    assert (ss + [r])[..|ss|] == ss;
  }

  lemma CutZero(ts: seq<uint32>, times: seq<uint32>)
    ensures Cut(ts, times, 0) == 0 && PrefixSum(ts, 0) == 0 && CountFalse([]) == 0
  {
  }

  lemma SlicesEnd(ts: seq<uint32>, times: seq<uint32>, r: nat, slot: nat, limit: nat)
    requires r <= |times| && (r == |times| || slot >= limit)
    ensures Slices(ts, times, r, slot, limit) == []
  {
  }

  lemma SlicesUnfold(ts: seq<uint32>, times: seq<uint32>, r: nat, slot: nat, limit: nat)
    requires r < |times| && slot < limit
    ensures var a, b := Cut(ts, times, r), Cut(ts, times, r + 1);
      Slices(ts, times, r, slot, limit)
      == if a < b then
           [Slice(slot, a, b, r, Sub32(times[r], Previous(times, r)))] + Slices(ts, times, r + 1, slot + 1, limit)
         else Slices(ts, times, r + 1, slot, limit)
  {
  }

  lemma AddEventsGrow(cyl: nat, side: nat, ts: seq<uint32>, ss: seq<Slice>, adds: seq<bool>, ok: bool)
    requires |adds| < |ss| && forall i | 0 <= i < |ss| :: ss[i].start <= ss[i].end <= |ts|
    ensures var s := ss[|adds|];
      AddEvents(cyl, side, ts, ss, adds + [ok])
      == AddEvents(cyl, side, ts, ss, adds) + [AddTrack(cyl, side, ts[s.start..s.end], s.duration, s.slot, ok)]
  {
    var more := adds + [ok];
    var p, q := AddEvents(cyl, side, ts, ss, more), AddEvents(cyl, side, ts, ss, adds);
    forall i | 0 <= i < |adds| ensures p[i] == q[i] {
      assert more[i] == adds[i];
    }
  }

  lemma CountFalseGrow(adds: seq<bool>, ok: bool)
    ensures CountFalse(adds + [ok]) == CountFalse(adds) + (if ok then 0 else 1)
  {
    assert (adds + [ok])[..|adds|] == adds;
  }
}
