/** What every run of the capture job keeps, whatever the drive answers and whenever the cancel
    flag is raised. */
module FluxCaptureSafety {
  import opened FluxSlicing
  import opened Ledger
  import opened Outcomes
  import opened FluxCapture

  // ---------- A monitor for the resources ----------

  datatype Monitor = Monitor(writer: Resource, motor: Resource, ended: bool)

  const START := Monitor(Idle, Idle, false)

  /** Whether an event is legal in a monitor state: nothing follows the terminal signal, the
      writer is used only while it lives, the drive only while its motor turns, the file is saved
      only after the motor was stopped, and the job ends with nothing held. */
  predicate Legal(m: Monitor, e: Event) {
    && !m.ended
    && match e
       case CreateWriter(_) => m.writer.Idle?
       case FreeWriter => m.writer.Held?
       case MotorOn(_) => m.writer.Held? && m.motor.Idle?
       case MotorOff => m.motor.Held?
       case SeekTo(_, _) => m.writer.Held? && m.motor.Held?
       case Read(_, _, _) => m.writer.Held? && m.motor.Held?
       case AddTrack(_, _, _, _, _, _) => m.writer.Held? && m.motor.Held?
       case CancelSeen => m.motor.Held?
       case Save(_) => m.writer.Held? && m.motor.Released?
       case Progress(_) => true
       case Error(_) => !m.writer.Held? && !m.motor.Held?
       case Finished(_) => m.writer.Released? && m.motor.Released?
  }

  function After(m: Monitor, e: Event): Monitor {
    match e
    case CreateWriter(ok) => if ok then m.(writer := Held) else m
    case FreeWriter => m.(writer := Released)
    case MotorOn(o) => if MotorOk(o) then m.(motor := Held) else m
    case MotorOff => m.(motor := Released)
    case Error(_) => m.(ended := true)
    case Finished(_) => m.(ended := true)
    case _ => m
  }

  function StateAfter(log: seq<Event>): Monitor {
    if log == [] then START else After(StateAfter(log[..|log| - 1]), log[|log| - 1])
  }

  predicate Accepted(log: seq<Event>) {
    forall i | 0 <= i < |log| :: Legal(StateAfter(log[..i]), log[i])
  }

  lemma AcceptOne(log: seq<Event>, e: Event)
    requires Accepted(log) && Legal(StateAfter(log), e)
    ensures Accepted(log + [e]) && StateAfter(log + [e]) == After(StateAfter(log), e)
  {
    hide Legal, After;
    var more := log + [e];
    assert more[..|log|] == log;
    forall i | 0 <= i < |more| ensures Legal(StateAfter(more[..i]), more[i]) {
      if i < |log| { assert more[..i] == log[..i]; }
    }
  }

  /** Drive and writer traffic between motor start and motor stop. */
  predicate Traffic(e: Event) { e.SeekTo? || e.Read? || e.AddTrack? || e.Progress? }

  lemma {:induction false} AcceptTraffic(log: seq<Event>, es: seq<Event>)
    requires Accepted(log) && forall i | 0 <= i < |es| :: Traffic(es[i])
    requires var m := StateAfter(log); m.writer.Held? && m.motor.Held? && !m.ended
    ensures Accepted(log + es) && StateAfter(log + es) == StateAfter(log)
    decreases |es|
  {
    hide Accepted, StateAfter;
    if es == [] {
      assert log + es == log;
    } else {
      var n := |es| - 1;
      AcceptTraffic(log, es[..n]);
      AcceptOne(log + es[..n], es[n]);
      assert log + es == (log + es[..n]) + [es[n]];
    }
  }

  // ---------- The body of a run is traffic ----------

  ghost predicate All(es: seq<Event>, p: Event -> bool) {
    forall i | 0 <= i < |es| :: p(es[i])
  }

  predicate Calm(e: Event) {
    match e
    case SeekTo(_, o) => !o.SeekDisconnected?
    case Read(_, _, o) => !o.FluxDisconnected?
    case AddTrack(_, _, _, _, _, _) => true
    case Progress(_) => true
    case _ => false
  }

  lemma {:induction false} SidesTraffic(c: Config, cyl: nat, step: nat, ss: seq<SideRecord>)
    requires GeometryOk(c) && forall i | 0 <= i < |ss| :: SideOk(c, ss[i])
    ensures All(SidesEvents(c, cyl, step, ss), Traffic)
    ensures (forall i | 0 <= i < |ss| :: !ss[i].flux.FluxDisconnected?) ==> All(SidesEvents(c, cyl, step, ss), Calm)
    decreases |ss|
  {
    hide SideOk, Percent;
    if ss != [] {
      SidesTraffic(c, cyl, step, ss[..|ss| - 1]);
    }
  }

  lemma CylinderTraffic(c: Config, cyl: nat, step: nat, r: CylinderRecord)
    requires GeometryOk(c) && RecordOk(c, r)
    ensures All(CylinderEvents(c, cyl, step, r), Traffic)
    ensures Done(c, r) ==> All(CylinderEvents(c, cyl, step, r), Calm)
  {
    hide SidesEvents, SideOk;
    if r.Visited? {
      SidesTraffic(c, cyl, step, r.sides);
    }
  }

  lemma {:induction false} BodyTraffic(c: Config, rs: seq<CylinderRecord>)
    requires GeometryOk(c) && forall i | 0 <= i < |rs| :: RecordOk(c, rs[i])
    ensures All(Body(c, rs), Traffic)
    ensures (forall i | 0 <= i < |rs| :: Done(c, rs[i])) ==> All(Body(c, rs), Calm)
    decreases |rs|
  {
    hide CylinderEvents, RecordOk, Done;
    if rs != [] {
      var n := |rs| - 1;
      BodyTraffic(c, rs[..n]);
      CylinderTraffic(c, n, Steps(c, rs[..n]), rs[n]);
    }
  }

  // ---------- Theorems ----------

  lemma AcceptOpening(m: MotorOutcome)
    requires MotorOk(m)
    ensures Accepted(Opening(m)) && StateAfter(Opening(m)) == Monitor(Held, Held, false)
  {
    hide Accepted, StateAfter;
    AcceptNone();
    var log := [] + [CreateWriter(true)];
    AcceptOne([], CreateWriter(true));
    AcceptOne(log, MotorOn(m));
    AcceptOne(log + [MotorOn(m)], Progress(0));
    assert log + [MotorOn(m)] + [Progress(0)] == Opening(m);
  }

  lemma AcceptNone()
    ensures Accepted([]) && StateAfter([]) == START
  {
  }

  /** The log of a run up to the motor stop. */
  lemma AcceptCapture(c: Config, m: MotorOutcome, rs: seq<CylinderRecord>)
    requires GeometryOk(c) && MotorOk(m) && RecordsOk(c, rs)
    ensures Accepted(Opening(m) + Body(c, rs))
    ensures StateAfter(Opening(m) + Body(c, rs)) == Monitor(Held, Held, false)
  {
    hide Accepted, StateAfter, Body, Opening;
    AcceptOpening(m);
    BodyTraffic(c, rs);
    AcceptTraffic(Opening(m), Body(c, rs));
  }

  /** Every run is accepted and ends with nothing held. */
  lemma RunIsSafe(c: Config, run: Run)
    requires RunOk(c, run)
    ensures Accepted(LogOf(c, run))
    ensures var m := StateAfter(LogOf(c, run)); m.ended && !m.writer.Held? && !m.motor.Held?
  {
    hide Accepted, StateAfter, Body, Opening, Saving;
    AcceptNone();
    match run
    case Rejected(reason) =>
      AcceptOne([], Error(reason));
      assert [] + [Error(reason)] == LogOf(c, run);
    case WriterMissing =>
      AcceptOne([], CreateWriter(false));
      AcceptOne([] + [CreateWriter(false)], Error(NoWriter));
      assert [] + [CreateWriter(false)] + [Error(NoWriter)] == LogOf(c, run);
    case MotorFailed(m) =>
      AcceptOne([], CreateWriter(true));
      AcceptOne([] + [CreateWriter(true)], MotorOn(m));
      AcceptOne([] + [CreateWriter(true)] + [MotorOn(m)], FreeWriter);
      AcceptOne([] + [CreateWriter(true)] + [MotorOn(m)] + [FreeWriter], Error(MotorFailure));
      assert [] + [CreateWriter(true)] + [MotorOn(m)] + [FreeWriter] + [Error(MotorFailure)] == LogOf(c, run);
    case Aborted(m, rs, cancelSeen, reason) =>
      AcceptCapture(c, m, rs);
      var log := Opening(m) + Body(c, rs);
      if cancelSeen {
        AcceptOne(log, CancelSeen);
        log := log + [CancelSeen];
      } else {
        assert log + [] == log;
      }
      AcceptOne(log, MotorOff);
      AcceptOne(log + [MotorOff], FreeWriter);
      AcceptOne(log + [MotorOff] + [FreeWriter], Error(reason));
      assert log + [MotorOff] + [FreeWriter] + [Error(reason)] == LogOf(c, run);
    case Completed(m, rs, saved) =>
      AcceptCapture(c, m, rs);
      AcceptSaving(Opening(m) + Body(c, rs), saved, Errors(rs));
  }

  lemma AcceptSaving(log: seq<Event>, saved: bool, errors: nat)
    requires Accepted(log) && StateAfter(log) == Monitor(Held, Held, false)
    ensures var all := log + [MotorOff] + Saving(saved, errors);
      Accepted(all) && StateAfter(all) == Monitor(Released, Released, true)
  {
    hide Accepted, StateAfter;
    var log1 := log + [MotorOff];
    AcceptOne(log, MotorOff);
    AcceptOne(log1, Save(saved));
    AcceptOne(log1 + [Save(saved)], FreeWriter);
    var log2 := log1 + [Save(saved)] + [FreeWriter];
    if saved {
      AcceptOne(log2, Progress(100));
      AcceptOne(log2 + [Progress(100)], Finished(errors));
      assert log2 + [Progress(100)] + [Finished(errors)] == log1 + Saving(saved, errors);
    } else {
      AcceptOne(log2, Error(SaveFailure));
      assert log2 + [Error(SaveFailure)] == log1 + Saving(saved, errors);
    }
  }

  predicate IsTerminal(e: Event) { e.Error? || e.Finished? }

  predicate IsFree(e: Event) { e.FreeWriter? }

  predicate IsStop(e: Event) { e.MotorOff? }

  predicate Undisturbed(e: Event) { !e.CancelSeen? }

  predicate IsStart(e: Event) { e.MotorOn? && MotorOk(e.motor) }

  predicate IsCreation(e: Event) { e.CreateWriter? && e.ok }

  /** The monitor state counts: in an accepted log every resource is taken and given back at most
      once, in that order, and the terminal signal comes at most once. */
  lemma {:induction false} StateCounts(log: seq<Event>)
    requires Accepted(log)
    ensures var m := StateAfter(log);
      && Count(log, IsTerminal) == One(m.ended)
      && Count(log, IsCreation) == One(!m.writer.Idle?)
      && Count(log, IsFree) == One(m.writer.Released?)
      && Count(log, IsStart) == One(!m.motor.Idle?)
      && Count(log, IsStop) == One(m.motor.Released?)
    decreases |log|
  {
    hide StateAfter, Accepted;
    if log == [] {
      AcceptNone();
    } else {
      var front := log[..|log| - 1];
      AcceptFront(log);
      StateCounts(front);
    }
  }

  lemma AcceptFront(log: seq<Event>)
    requires log != [] && Accepted(log)
    ensures var front, e := log[..|log| - 1], log[|log| - 1];
      Accepted(front) && Legal(StateAfter(front), e) && StateAfter(log) == After(StateAfter(front), e)
  {
    hide Legal, After;
    var front := log[..|log| - 1];
    forall i | 0 <= i < |front| ensures Legal(StateAfter(front[..i]), front[i]) {
      assert front[..i] == log[..i] && front[i] == log[i];
    }
    assert Legal(StateAfter(log[..|log| - 1]), log[|log| - 1]);
  }

  /** Every run sends exactly one terminal signal, frees the writer exactly as often as it was
      created, and stops the motor exactly as often as it was started. */
  lemma RunIsBalanced(c: Config, run: Run)
    requires RunOk(c, run)
    ensures var log := LogOf(c, run);
      && Count(log, IsTerminal) == 1
      && Count(log, IsFree) == Count(log, IsCreation)
      && Count(log, IsStop) == Count(log, IsStart)
  {
    hide StateAfter, Accepted, LogOf;
    RunIsSafe(c, run);
    StateCounts(LogOf(c, run));
  }

  /** A file is saved only by a run that saw no cancel and never lost the device. */
  lemma SaveMeansUndisturbed(c: Config, run: Run)
    requires RunOk(c, run) && exists i :: 0 <= i < |LogOf(c, run)| && LogOf(c, run)[i].Save?
    ensures run.Completed?
    ensures All(LogOf(c, run), Undisturbed)
    ensures All(Body(c, run.records), Calm)
  {
    hide Body, RecordOk, Done;
    match run
    case Completed(m, rs, saved) =>
      AllDone(c, rs);
      BodyTraffic(c, rs);
    case Aborted(m, rs, cancelSeen, reason) =>
      BodyTraffic(c, rs);
      assert false;
    case _ => assert false;
  }

  lemma AllDone(c: Config, rs: seq<CylinderRecord>)
    requires RecordsOk(c, rs) && rs != [] && Done(c, rs[|rs| - 1])
    ensures forall i | 0 <= i < |rs| :: Done(c, rs[i])
  {
    hide Done;
  }

  // ---------- Progress ----------

  function PercentOf(e: Event): int { if e.Progress? then e.percent else -1 }

  lemma PercentMonotone(c: Config, s: nat, t: nat)
    requires GeometryOk(c) && s <= t
    ensures Percent(c, s) <= Percent(c, t)
  {
    var total := c.cylinders * c.sides;
    DivMonotone(s * 100, t * 100, total);
  }

  lemma PercentFull(c: Config)
    requires GeometryOk(c)
    ensures Percent(c, c.cylinders * c.sides) == 100
  {
    var total := c.cylinders * c.sides;
    assert total * 100 / total == 100 by { MultipleDiv(total); }
  }

  lemma MultipleDiv(d: nat)
    requires 0 < d
    ensures d * 100 / d == 100
  {
  }

  lemma {:induction false} SidesRising(c: Config, cyl: nat, step: nat, ss: seq<SideRecord>)
    requires GeometryOk(c) && forall i | 0 <= i < |ss| :: SideOk(c, ss[i])
    ensures Rising(SidesEvents(c, cyl, step, ss), PercentOf, Percent(c, step), Percent(c, step + |ss|))
    decreases |ss|
  {
    hide Percent, SideOk, Rising;
    if ss == [] {
      RisingNone(PercentOf, Percent(c, step));
    } else {
      var n := |ss| - 1;
      var lo, mid, hi := Percent(c, step), Percent(c, step + n), Percent(c, step + n + 1);
      SidesRising(c, cyl, step, ss[..n]);
      PercentMonotone(c, step, step + n);
      PercentMonotone(c, step + n, step + n + 1);
      SideRising(c, cyl, n, ss[n], mid);
      RisingAppend(SidesEvents(c, cyl, step, ss[..n]), SideEvents(c, cyl, n, ss[n]), PercentOf, lo, mid, mid);
      RisingOne(Progress(hi), PercentOf, mid, hi);
      RisingAppend(SidesEvents(c, cyl, step, ss[..n]) + SideEvents(c, cyl, n, ss[n]), [Progress(hi)],
                   PercentOf, lo, mid, hi);
    }
  }

  lemma SideRising(c: Config, cyl: nat, side: nat, s: SideRecord, p: nat)
    requires SideOk(c, s)
    ensures Rising(SideEvents(c, cyl, side, s), PercentOf, p, p)
  {
  }

  lemma CylinderRising(c: Config, cyl: nat, step: nat, r: CylinderRecord)
    requires GeometryOk(c) && RecordOk(c, r)
    ensures Rising(CylinderEvents(c, cyl, step, r), PercentOf, Percent(c, step), Percent(c, step + StepsIn(c, r)))
  {
    hide Percent, SidesEvents;
    PercentMonotone(c, step, step + StepsIn(c, r));
    if r.Visited? {
      SidesRising(c, cyl, step, r.sides);
      RisingAppend([SeekTo(cyl, SeekArrived)], SidesEvents(c, cyl, step, r.sides), PercentOf,
                   Percent(c, step), Percent(c, step), Percent(c, step + StepsIn(c, r)));
    }
  }

  lemma {:induction false} BodyRising(c: Config, rs: seq<CylinderRecord>)
    requires GeometryOk(c) && forall i | 0 <= i < |rs| :: RecordOk(c, rs[i])
    ensures Rising(Body(c, rs), PercentOf, Percent(c, 0), Percent(c, Steps(c, rs)))
    decreases |rs|
  {
    hide Percent, CylinderEvents, RecordOk, Rising, StepsIn;
    if rs == [] {
      RisingNone(PercentOf, Percent(c, 0));
    } else {
      var n := |rs| - 1;
      BodyRising(c, rs[..n]);
      CylinderRising(c, n, Steps(c, rs[..n]), rs[n]);
      PercentMonotone(c, 0, Steps(c, rs[..n]));
      PercentMonotone(c, Steps(c, rs[..n]), Steps(c, rs));
      RisingAppend(Body(c, rs[..n]), CylinderEvents(c, n, Steps(c, rs[..n]), rs[n]), PercentOf,
                   Percent(c, 0), Percent(c, Steps(c, rs[..n])), Percent(c, Steps(c, rs)));
    }
  }

  lemma {:induction false} StepsBounded(c: Config, rs: seq<CylinderRecord>)
    requires forall i | 0 <= i < |rs| :: RecordOk(c, rs[i])
    ensures Steps(c, rs) <= |rs| * c.sides
    ensures (forall i | 0 <= i < |rs| :: Done(c, rs[i])) ==> Steps(c, rs) == |rs| * c.sides
    decreases |rs|
  {
    hide SideOk;
    if rs != [] {
      StepsBounded(c, rs[..|rs| - 1]);
      assert |rs| * c.sides == (|rs| - 1) * c.sides + c.sides;
    }
  }

  /** A completed run has made every one of its cylinders * sides steps. */
  lemma CompletedStepsAll(c: Config, run: Run)
    requires RunOk(c, run) && run.Completed?
    ensures Steps(c, run.records) == c.cylinders * c.sides
  {
    hide RecordOk, Done;
    AllDone(c, run.records);
    StepsBounded(c, run.records);
  }

  /** The progress values of every run stay in 0..100 and never fall. */
  lemma RunProgress(c: Config, run: Run)
    requires RunOk(c, run)
    ensures Rising(LogOf(c, run), PercentOf, 0, 100)
  {
    hide Body, RecordOk, Done, Percent, Steps, Rising, Opening, Saving, Errors;
    match run
    case Aborted(m, rs, cancelSeen, reason) =>
      CaptureProgress(c, m, rs);
      var last := (if cancelSeen then [CancelSeen] else []) + [MotorOff, FreeWriter, Error(reason)];
      Regroup(Opening(m) + Body(c, rs), if cancelSeen then [CancelSeen] else [], [MotorOff, FreeWriter, Error(reason)]);
      RisingEnd(last, PercentOf, 100, 100);
      RisingAppend(Opening(m) + Body(c, rs), last, PercentOf, 0, 100, 100);
    case Completed(m, rs, saved) =>
      CaptureProgress(c, m, rs);
      var last := [MotorOff] + Saving(saved, Errors(rs));
      Regroup(Opening(m) + Body(c, rs), [MotorOff], Saving(saved, Errors(rs)));
      SavingProgress(saved, Errors(rs));
      RisingAppend(Opening(m) + Body(c, rs), last, PercentOf, 0, 100, 100);
    case _ => EarlyProgress(c, run);
  }

  lemma CaptureProgress(c: Config, m: MotorOutcome, rs: seq<CylinderRecord>)
    requires GeometryOk(c) && RecordsOk(c, rs)
    ensures Rising(Opening(m) + Body(c, rs), PercentOf, 0, 100)
  {
    hide Body, RecordOk, Done;
    BodyProgress(c, rs);
    RisingAppend(Opening(m), Body(c, rs), PercentOf, 0, 0, 100);
  }

  lemma SavingProgress(saved: bool, errors: nat)
    ensures Rising([MotorOff] + Saving(saved, errors), PercentOf, 100, 100)
  {
    RisingEnd([MotorOff] + Saving(saved, errors), PercentOf, 100, 100);
  }

  lemma EarlyProgress(c: Config, run: Run)
    requires RunOk(c, run) && !run.Aborted? && !run.Completed?
    ensures Rising(LogOf(c, run), PercentOf, 0, 100)
  {
  }

  lemma Regroup(a: seq<Event>, b: seq<Event>, d: seq<Event>)
    ensures a + b + d == a + (b + d)
  {
  }

  lemma BodyProgress(c: Config, rs: seq<CylinderRecord>)
    requires GeometryOk(c) && RecordsOk(c, rs)
    ensures Rising(Body(c, rs), PercentOf, 0, 100)
  {
    hide Body, RecordOk, Done, Percent, Steps;
    StepsBounded(c, rs);
    BodyRising(c, rs);
    assert |rs| * c.sides <= c.cylinders * c.sides;
    PercentMonotone(c, Steps(c, rs), c.cylinders * c.sides);
    PercentFull(c);
    PercentZero(c);
  }

  lemma PercentZero(c: Config)
    requires GeometryOk(c)
    ensures Percent(c, 0) == 0
  {
  }

  // ---------- What a finished run has read and stored ----------

  predicate FullyRead(s: SideRecord) {
    s.flux.FluxCaptured? && s.flux.indexTimes != [] && forall i | 0 <= i < |s.adds| :: s.adds[i]
  }

  lemma {:induction false} NoneFalse(bs: seq<bool>)
    ensures CountFalse(bs) == 0 <==> forall i | 0 <= i < |bs| :: bs[i]
    decreases |bs|
  {
    if bs != [] {
      NoneFalse(bs[..|bs| - 1]);
    }
  }

  lemma {:induction false} NoSideErrors(ss: seq<SideRecord>)
    requires forall i | 0 <= i < |ss| :: !ss[i].flux.FluxDisconnected?
    ensures SidesErrors(ss) == 0 <==> forall i | 0 <= i < |ss| :: FullyRead(ss[i])
    decreases |ss|
  {
    hide FullyRead, SideErrors;
    if ss != [] {
      var n := |ss| - 1;
      NoSideErrors(ss[..n]);
      SideErrorFree(ss[n]);
    }
  }

  lemma SideErrorFree(s: SideRecord)
    requires !s.flux.FluxDisconnected?
    ensures SideErrors(s) == 0 <==> FullyRead(s)
  {
    NoneFalse(s.adds);
  }

  predicate CylinderRead(c: Config, r: CylinderRecord) {
    r.Visited? && |r.sides| == c.sides && forall i | 0 <= i < |r.sides| :: FullyRead(r.sides[i])
  }

  lemma {:induction false} NoErrors(c: Config, rs: seq<CylinderRecord>)
    requires forall i | 0 <= i < |rs| :: RecordOk(c, rs[i]) && Done(c, rs[i])
    ensures Errors(rs) == 0 <==> forall i | 0 <= i < |rs| :: CylinderRead(c, rs[i])
    decreases |rs|
  {
    hide CylinderRead, RecordOk, Done, SidesErrors;
    if rs != [] {
      var n := |rs| - 1;
      NoErrors(c, rs[..n]);
      CylinderErrorFree(c, rs[n]);
    }
  }

  lemma CylinderErrorFree(c: Config, r: CylinderRecord)
    requires RecordOk(c, r) && Done(c, r)
    ensures (match r case Skipped(_) => 1 case Visited(ss) => SidesErrors(ss)) == 0 <==> CylinderRead(c, r)
  {
    hide FullyRead, SideOk;
    if r.Visited? {
      NoSideErrors(r.sides);
    }
  }

  /** A completed run reports zero errors exactly when every side of every cylinder was read with
      index marks and the writer took every revolution. */
  lemma ZeroErrorsMeansAllRead(c: Config, run: Run)
    requires RunOk(c, run) && run.Completed?
    ensures |run.records| == c.cylinders
    ensures Errors(run.records) == 0 <==> forall i | 0 <= i < c.cylinders :: CylinderRead(c, run.records[i])
  {
    hide RecordOk, Done, CylinderRead;
    AllDone(c, run.records);
    NoErrors(c, run.records);
  }

  /** In the log: `finished` is sent exactly by a completed run whose save succeeded, and it reports
      the run's errors. */
  lemma FinishedReportsErrors(c: Config, run: Run, e: nat)
    requires RunOk(c, run)
    ensures Finished(e) in LogOf(c, run) <==> run.Completed? && run.saved && e == Errors(run.records)
  {
    hide Body, RecordOk, Done, Errors, Percent;
    if run.Aborted? || run.Completed? {
      BodyTraffic(c, run.records);
    }
  }

  /** `finished` with zero errors is sent exactly when the file was saved, every side of every
      cylinder was read with index marks, and the writer took every revolution. */
  lemma FinishedCleanIff(c: Config, run: Run)
    requires RunOk(c, run)
    ensures Finished(0) in LogOf(c, run) <==>
      && run.Completed? && run.saved
      && forall i | 0 <= i < c.cylinders :: i < |run.records| && CylinderRead(c, run.records[i])
  {
    hide LogOf, RecordOk, Done, CylinderRead, Errors;
    FinishedReportsErrors(c, run, 0);
    if run.Completed? { ZeroErrorsMeansAllRead(c, run); }
  }

  /** The samples of the writer calls in a stretch of log. */
  function SamplesIn(es: seq<Event>): seq<uint32> {
    if es == [] then []
    else
      var e := es[|es| - 1];
      SamplesIn(es[..|es| - 1]) + (if e.AddTrack? then e.samples else [])
  }

  lemma {:induction false} AddsStore(cyl: nat, side: nat, ts: seq<uint32>, ss: seq<Slice>, adds: seq<bool>)
    requires |adds| <= |ss| && forall i | 0 <= i < |ss| :: ss[i].start <= ss[i].end <= |ts|
    ensures SamplesIn(AddEvents(cyl, side, ts, ss, adds)) == Stored(ts, ss[..|adds|])
    decreases |adds|
  {
    if adds != [] {
      var n := |adds| - 1;
      AddsStore(cyl, side, ts, ss, adds[..n]);
      var es := AddEvents(cyl, side, ts, ss, adds);
      assert es[..n] == AddEvents(cyl, side, ts, ss, adds[..n]);
      assert ss[..|adds|][..n] == ss[..n];
    }
  }

  lemma SamplesAfterRead(e: Event, es: seq<Event>)
    requires !e.AddTrack?
    ensures SamplesIn([e] + es) == SamplesIn(es)
    decreases |es|
  {
    if es == [] {
      assert [e] + es == [e];
    } else {
      var n := |es| - 1;
      assert ([e] + es)[..|es|] == [e] + es[..n];
      SamplesAfterRead(e, es[..n]);
    }
  }

  /** Whatever the index times are, the writer is given a prefix of the captured flux: nothing
      is invented, reordered or dropped in between. */
  lemma SideStoresPrefix(c: Config, cyl: nat, side: nat, s: SideRecord)
    requires SideOk(c, s) && s.flux.FluxCaptured?
    ensures var ts, ss := s.flux.transitions, Revolutions(c, s);
      && LastEnd(ss, 0) <= |ts|
      && SamplesIn(SideEvents(c, cyl, side, s)) == ts[..LastEnd(ss, 0)]
  {
    hide AddEvents, Slices;
    var ts, ss := s.flux.transitions, Revolutions(c, s);
    SlicesConserve(ts, s.flux.indexTimes, c.revolutions);
    AddsStore(cyl, side, ts, ss, s.adds);
    assert ss[..|s.adds|] == ss;
    SamplesAfterRead(Read(cyl, side, s.flux), AddEvents(cyl, side, ts, ss, s.adds));
  }

  // ---------- One side in the log of a run ----------

  predicate IsSide(e: Event, cyl: nat, side: nat) {
    (e.Read? || e.AddTrack?) && e.cylinder == cyl && e.side == side
  }

  /** The reads and the writer calls of one side, in order. */
  function OfSide(es: seq<Event>, cyl: nat, side: nat): seq<Event> {
    if es == [] then []
    else
      var n := |es| - 1;
      OfSide(es[..n], cyl, side) + (if IsSide(es[n], cyl, side) then [es[n]] else [])
  }

  lemma {:induction false} OfSideAppend(a: seq<Event>, b: seq<Event>, cyl: nat, side: nat)
    ensures OfSide(a + b, cyl, side) == OfSide(a, cyl, side) + OfSide(b, cyl, side)
    decreases |b|
  {
    hide IsSide;
    if b == [] {
      assert a + b == a;
    } else {
      assert (a + b)[..|a + b| - 1] == a + b[..|b| - 1];
      OfSideAppend(a, b[..|b| - 1], cyl, side);
    }
  }

  lemma {:induction false} OfSideAll(es: seq<Event>, cyl: nat, side: nat)
    requires forall i | 0 <= i < |es| :: IsSide(es[i], cyl, side)
    ensures OfSide(es, cyl, side) == es
    decreases |es|
  {
    hide IsSide;
    if es != [] {
      OfSideAll(es[..|es| - 1], cyl, side);
    }
  }

  lemma {:induction false} OfSideNone(es: seq<Event>, cyl: nat, side: nat)
    requires forall i | 0 <= i < |es| :: !IsSide(es[i], cyl, side)
    ensures OfSide(es, cyl, side) == []
    decreases |es|
  {
    hide IsSide;
    if es != [] {
      OfSideNone(es[..|es| - 1], cyl, side);
    }
  }

  /** What a visit of cylinder `at` with these answers does to one side. */
  function SideVisit(c: Config, at: nat, ss: seq<SideRecord>, cyl: nat, side: nat): seq<Event>
    requires forall i | 0 <= i < |ss| :: SideOk(c, ss[i])
  {
    if cyl == at && side < |ss| then SideEvents(c, cyl, side, ss[side]) else []
  }

  lemma OfOneSide(c: Config, at: nat, n: nat, s: SideRecord, cyl: nat, side: nat)
    requires SideOk(c, s)
    ensures OfSide(SideEvents(c, at, n, s), cyl, side) == if at == cyl && n == side then SideEvents(c, at, n, s) else []
  {
    hide SideOk, Revolutions;
    var es := SideEvents(c, at, n, s);
    if at == cyl && n == side { OfSideAll(es, cyl, side); } else { OfSideNone(es, cyl, side); }
  }

  lemma ProgressIsNoSide(p: nat, cyl: nat, side: nat)
    ensures OfSide([Progress(p)], cyl, side) == []
  {
    OfSideNone([Progress(p)], cyl, side);
  }

  lemma {:induction false} OfSides(c: Config, at: nat, step: nat, ss: seq<SideRecord>, cyl: nat, side: nat)
    requires GeometryOk(c) && forall i | 0 <= i < |ss| :: SideOk(c, ss[i])
    ensures OfSide(SidesEvents(c, at, step, ss), cyl, side) == SideVisit(c, at, ss, cyl, side)
    decreases |ss|
  {
    hide SideEvents, SideOk, Percent, OfSide, IsSide;
    if ss == [] {
      OfSideNone([], cyl, side);
    } else {
      var n := |ss| - 1;
      OfSides(c, at, step, ss[..n], cyl, side);
      OfOneSide(c, at, n, ss[n], cyl, side);
      var front, last := SidesEvents(c, at, step, ss[..n]), [Progress(Percent(c, step + n + 1))];
      OfSideAppend(front + SideEvents(c, at, n, ss[n]), last, cyl, side);
      OfSideAppend(front, SideEvents(c, at, n, ss[n]), cyl, side);
      ProgressIsNoSide(Percent(c, step + n + 1), cyl, side);
    }
  }

  /** What the cylinders visited so far do to one side. */
  function SideTraffic(c: Config, rs: seq<CylinderRecord>, cyl: nat, side: nat): seq<Event>
    requires forall i | 0 <= i < |rs| :: RecordOk(c, rs[i])
  {
    if cyl < |rs| && rs[cyl].Visited? then
      assert RecordOk(c, rs[cyl]);
      SideVisit(c, cyl, rs[cyl].sides, cyl, side)
    else []
  }

  lemma {:induction false} OfBody(c: Config, rs: seq<CylinderRecord>, cyl: nat, side: nat)
    requires GeometryOk(c) && forall i | 0 <= i < |rs| :: RecordOk(c, rs[i])
    ensures OfSide(Body(c, rs), cyl, side) == SideTraffic(c, rs, cyl, side)
    decreases |rs|
  {
    hide SidesEvents, SideOk, SideEvents, Steps;
    if rs != [] {
      var n := |rs| - 1;
      var step := Steps(c, rs[..n]);
      OfBody(c, rs[..n], cyl, side);
      OfSideAppend(Body(c, rs[..n]), CylinderEvents(c, n, step, rs[n]), cyl, side);
      if rs[n].Visited? {
        OfSideAppend([SeekTo(n, SeekArrived)], SidesEvents(c, n, step, rs[n].sides), cyl, side);
        OfSideNone([SeekTo(n, SeekArrived)], cyl, side);
        OfSides(c, n, step, rs[n].sides, cyl, side);
      } else {
        OfSideNone(CylinderEvents(c, n, step, rs[n]), cyl, side);
      }
    }
  }

  /** One side in the whole log: what its record says, or nothing. */
  lemma OfLog(c: Config, run: Run, cyl: nat, side: nat)
    requires RunOk(c, run)
    ensures OfSide(LogOf(c, run), cyl, side)
         == if run.Aborted? || run.Completed? then SideTraffic(c, run.records, cyl, side) else []
  {
    hide Body, SideTraffic, RecordOk, Done, Errors, OfSide;
    if run.Aborted? || run.Completed? {
      var first, body := Opening(run.motor), Body(c, run.records);
      var last := if run.Completed? then [MotorOff] + Saving(run.saved, Errors(run.records))
                  else (if run.cancelSeen then [CancelSeen] else []) + [MotorOff, FreeWriter, Error(run.reason)];
      assert LogOf(c, run) == first + body + last;
      OfSideAppend(first + body, last, cyl, side);
      OfSideAppend(first, body, cyl, side);
      OfSideNone(first, cyl, side);
      OfSideNone(last, cyl, side);
      OfBody(c, run.records, cyl, side);
    } else {
      OfSideNone(LogOf(c, run), cyl, side);
    }
  }

  /** In every run each side of each cylinder is read at most once, and the writer calls for it
      fill slots 0, 1, 2, ... once each, as many as the configuration allows at most, with a prefix
      of the flux of that read, which reaches the last cut when slots are left over; each call is one
      revolution with its true duration; a read without flux is followed by no call. */
  lemma SideInLog(c: Config, run: Run, cyl: nat, side: nat)
    requires RunOk(c, run)
    ensures var es := OfSide(LogOf(c, run), cyl, side);
      es != [] ==>
        && es[0].Read?
        && (forall i | 1 <= i < |es| :: es[i].AddTrack? && es[i].slot == i - 1)
        && |es| <= 1 + c.revolutions
        && SamplesIn(es) <= (if es[0].flux.FluxCaptured? then es[0].flux.transitions else [])
        && (es[0].flux.FluxCaptured? ==> AllStored(c, es, es[0].flux.transitions, es[0].flux.indexTimes))
  {
    hide LogOf, SideOk, SideEvents, AddEvents, Slices, SamplesIn, OfSide;
    OfLog(c, run, cyl, side);
    var es := OfSide(LogOf(c, run), cyl, side);
    if es != [] { RecordedSide(c, cyl, side, run.records[cyl].sides[side]); }
  }

  lemma RecordedSide(c: Config, cyl: nat, side: nat, s: SideRecord)
    requires SideOk(c, s)
    ensures var es := SideEvents(c, cyl, side, s);
      && es[0] == Read(cyl, side, s.flux)
      && (forall i | 1 <= i < |es| :: es[i].AddTrack? && es[i].slot == i - 1)
      && |es| <= 1 + c.revolutions
      && SamplesIn(es) <= (if s.flux.FluxCaptured? then s.flux.transitions else [])
      && (s.flux.FluxCaptured? ==> AllStored(c, es, s.flux.transitions, s.flux.indexTimes))
  {
    hide Slices, Cut, AllStored, SamplesIn;
    if s.flux.FluxCaptured? {
      SlicesConserve(s.flux.transitions, s.flux.indexTimes, c.revolutions);
      SideStoresPrefix(c, cyl, side, s);
      SideStoresAll(c, cyl, side, s);
    } else {
      NoSamples(Read(cyl, side, s.flux));
    }
  }

  lemma NoSamples(e: Event)
    requires !e.AddTrack?
    ensures SamplesIn([e]) == [] && SamplesIn([e] + []) == []
  {
    assert [e] + [] == [e];
  }

  lemma SideStoresAll(c: Config, cyl: nat, side: nat, s: SideRecord)
    requires SideOk(c, s) && s.flux.FluxCaptured?
    ensures AllStored(c, SideEvents(c, cyl, side, s), s.flux.transitions, s.flux.indexTimes)
  {
    hide Slices, Cut, SamplesIn, OneRevolution;
    var ts, times := s.flux.transitions, s.flux.indexTimes;
    SlicesConserve(ts, times, c.revolutions);
    SideStoresPrefix(c, cyl, side, s);
    var es := SideEvents(c, cyl, side, s);
    forall i | 1 <= i < |es| ensures es[i].AddTrack? && IsRevolution(ts, times, es[i].samples, es[i].duration) {
      CallIsRevolution(c, cyl, side, s, i);
    }
  }

  lemma CallIsRevolution(c: Config, cyl: nat, side: nat, s: SideRecord, i: nat)
    requires SideOk(c, s) && s.flux.FluxCaptured? && 1 <= i < |SideEvents(c, cyl, side, s)|
    ensures var e := SideEvents(c, cyl, side, s)[i];
      e.AddTrack? && IsRevolution(s.flux.transitions, s.flux.indexTimes, e.samples, e.duration)
  {
    hide Slices, Cut;
    var ts, times := s.flux.transitions, s.flux.indexTimes;
    SliceFacts(ts, times, 0, 0, c.revolutions, i - 1);
    var e := SideEvents(c, cyl, side, s)[i];
    assert OneRevolution(ts, times, Revolutions(c, s)[i - 1].pulse, e.samples, e.duration);
  }

  predicate OneRevolution(ts: seq<uint32>, times: seq<uint32>, p: nat, samples: seq<uint32>, duration: uint32) {
    && p < |times| && Cut(ts, times, p) < Cut(ts, times, p + 1)
    && samples == ts[Cut(ts, times, p)..Cut(ts, times, p + 1)]
    && duration == times[p] - (if p == 0 then 0 else times[p - 1])
  }

  /** The samples run between the cuts of two neighbouring index pulses and last as long as these
      are apart. */
  ghost predicate IsRevolution(ts: seq<uint32>, times: seq<uint32>, samples: seq<uint32>, duration: uint32) {
    exists p :: OneRevolution(ts, times, p, samples, duration)
  }

  ghost predicate AllStored(c: Config, es: seq<Event>, ts: seq<uint32>, times: seq<uint32>) {
    && (|es| < 1 + c.revolutions ==> SamplesIn(es) == ts[..Cut(ts, times, |times|)])
    && forall i | 1 <= i < |es| :: es[i].AddTrack? && IsRevolution(ts, times, es[i].samples, es[i].duration)
  }

  // ---------- What a cancel does ----------

  /** A flag that is up before the first cylinder: nothing is sought for or read, the run does not
      complete, and once its motor turned it ends with the user's cancel. */
  lemma CancelBeforeCapture(c: Config, run: Run, up: nat)
    requires RunOk(c, run) && Timely(LogOf(c, run), 0, up) && up <= 3
    ensures All(LogOf(c, run), NotBegun) && !run.Completed?
    ensures run.Aborted? ==> LogOf(c, run)[|LogOf(c, run)| - 1] == Error(UserCancel)
  {
    hide Body, RecordOk, Done, Errors;
    if run.Aborted? || run.Completed? {
      if run.records != [] { FirstSeek(c, run); }
      assert run.records == [];
      assert Body(c, run.records) == [] by { NoRecords(c); }
    }
  }

  predicate NotBegun(e: Event) { !e.SeekTo? && !e.Read? && !e.AddTrack? }

  lemma FirstSeek(c: Config, run: Run)
    requires RunOk(c, run) && (run.Aborted? || run.Completed?) && run.records != []
    ensures 3 < |LogOf(c, run)| && LogOf(c, run)[3].SeekTo?
  {
    hide Body, RecordOk, Done, Errors;
    BodyStarts(c, run.records);
    var before := Opening(run.motor);
    assert |before| == 3;
    assert (before + Body(c, run.records))[3] == Body(c, run.records)[0];
  }

  lemma {:induction false} BodyStarts(c: Config, rs: seq<CylinderRecord>)
    requires GeometryOk(c) && rs != [] && forall i | 0 <= i < |rs| :: RecordOk(c, rs[i])
    ensures Body(c, rs) != [] && Body(c, rs)[0].SeekTo?
    decreases |rs|
  {
    hide SidesEvents, Steps, SideOk;
    if |rs| > 1 { BodyStarts(c, rs[..|rs| - 1]); } else { assert Body(c, rs[..0]) == []; }
  }

  // ---------- What the end means ----------

  predicate DeviceLost(e: Event) {
    (e.SeekTo? && e.seek.SeekDisconnected?) || (e.Read? && e.flux.FluxDisconnected?)
  }

  predicate MotorRefused(e: Event) { e.MotorOn? && !e.motor.MotorRunning? && !e.motor.MotorStopped? }

  ghost predicate Some(es: seq<Event>, p: Event -> bool) { exists i | 0 <= i < |es| :: p(es[i]) }

  lemma SomeAppend(a: seq<Event>, b: seq<Event>, p: Event -> bool)
    ensures Some(a + b, p) <==> Some(a, p) || Some(b, p)
  {
    if Some(a, p) {
      var i :| 0 <= i < |a| && p(a[i]);
      assert p((a + b)[i]);
    }
    if Some(b, p) {
      var i :| 0 <= i < |b| && p(b[i]);
      assert p((a + b)[|a| + i]);
    }
  }

  lemma {:induction false} SidesLose(c: Config, cyl: nat, step: nat, ss: seq<SideRecord>)
    requires GeometryOk(c) && forall i | 0 <= i < |ss| :: SideOk(c, ss[i])
    ensures Some(SidesEvents(c, cyl, step, ss), DeviceLost)
       <==> exists i | 0 <= i < |ss| :: ss[i].flux.FluxDisconnected?
    decreases |ss|
  {
    hide SideOk, Percent, SideEvents, Some, DeviceLost;
    if ss == [] {
      NothingLost();
    } else {
      var n := |ss| - 1;
      SidesLose(c, cyl, step, ss[..n]);
      var front, last := SidesEvents(c, cyl, step, ss[..n]), [Progress(Percent(c, step + n + 1))];
      SideLoses(c, cyl, n, ss[n]);
      SomeAppend(front + SideEvents(c, cyl, n, ss[n]), last, DeviceLost);
      SomeAppend(front, SideEvents(c, cyl, n, ss[n]), DeviceLost);
      ProgressLosesNothing(Percent(c, step + n + 1));
      if i :| 0 <= i < |ss| && ss[i].flux.FluxDisconnected? { assert i < n ==> ss[..n][i] == ss[i]; }
    }
  }

  lemma NothingLost()
    ensures !Some([], DeviceLost)
  {
  }

  lemma ProgressLosesNothing(p: nat)
    ensures !Some([Progress(p)], DeviceLost)
  {
  }

  lemma SideLoses(c: Config, cyl: nat, side: nat, s: SideRecord)
    requires SideOk(c, s)
    ensures Some(SideEvents(c, cyl, side, s), DeviceLost) <==> s.flux.FluxDisconnected?
  {
    hide Revolutions;
    if s.flux.FluxDisconnected? { assert DeviceLost(SideEvents(c, cyl, side, s)[0]); }
  }

  lemma CylinderLoses(c: Config, cyl: nat, step: nat, r: CylinderRecord)
    requires GeometryOk(c) && RecordOk(c, r)
    ensures Some(CylinderEvents(c, cyl, step, r), DeviceLost) <==> Lost(r)
  {
    hide SidesEvents, SideOk, Some;
    match r
    case Skipped(o) => SeekLoses(cyl, o);
    case Visited(ss) =>
      SidesLose(c, cyl, step, ss);
      SeekLoses(cyl, SeekArrived);
      SomeAppend([SeekTo(cyl, SeekArrived)], SidesEvents(c, cyl, step, ss), DeviceLost);
  }

  lemma SeekLoses(cyl: nat, o: SeekOutcome)
    ensures Some([SeekTo(cyl, o)], DeviceLost) <==> o.SeekDisconnected?
  {
    assert [SeekTo(cyl, o)][0] == SeekTo(cyl, o);
  }

  /** A body meets a lost device at its last cylinder or not at all. */
  lemma {:induction false} BodyLoses(c: Config, rs: seq<CylinderRecord>)
    requires GeometryOk(c) && RecordsOk(c, rs)
    ensures Some(Body(c, rs), DeviceLost) <==> rs != [] && Lost(rs[|rs| - 1])
    decreases |rs|
  {
    hide CylinderEvents, RecordOk, Some, DeviceLost, Steps, Lost;
    if rs == [] {
      NothingLost();
    } else {
      var n := |rs| - 1;
      BodyLoses(c, rs[..n]);
      CylinderLoses(c, n, Steps(c, rs[..n]), rs[n]);
      SomeAppend(Body(c, rs[..n]), CylinderEvents(c, n, Steps(c, rs[..n]), rs[n]), DeviceLost);
      if n > 0 { assert Done(c, rs[n - 1]); }
    }
  }

  /** The terminal signal by what was met: a missing writer, a refused motor and a failed save each
      have their own; a run is aborted exactly when a cancel was seen or the device was lost, and
      a seen cancel is the user's. */
  lemma EndIsNamed(c: Config, run: Run)
    requires RunOk(c, run) && !run.Rejected?
    ensures var log := LogOf(c, run); var last := log[|log| - 1];
      && (last == Error(NoWriter) <==> CreateWriter(false) in log)
      && (last == Error(MotorFailure) <==> Some(log, MotorRefused))
      && (last == Error(SaveFailure) <==> Save(false) in log)
      && (last == Error(UserCancel) || last == Error(DeviceGone) <==> CancelSeen in log || Some(log, DeviceLost))
      && (CancelSeen in log ==> last == Error(UserCancel))
      && (last.Finished? <==> Save(true) in log)
      && (last.Finished? || last.Error?)
  {
    hide Body, RecordOk, Errors;
    if run.Aborted? || run.Completed? {
      CaptureIsNamed(c, run);
    } else if run.WriterMissing? {
      assert LogOf(c, run)[0] == CreateWriter(false);
    } else {
      assert MotorRefused(LogOf(c, run)[1]);
    }
  }

  function Closing(run: Run): seq<Event>
    requires run.Aborted? || run.Completed?
  {
    match run
    case Aborted(_, _, cancelSeen, reason) =>
      (if cancelSeen then [CancelSeen] else []) + [MotorOff, FreeWriter, Error(reason)]
    case Completed(_, rs, saved) => [MotorOff] + Saving(saved, Errors(rs))
  }

  lemma CaptureIsNamed(c: Config, run: Run)
    requires RunOk(c, run) && (run.Aborted? || run.Completed?)
    ensures var log := LogOf(c, run); var last := log[|log| - 1];
      && CreateWriter(false) !in log && !Some(log, MotorRefused)
      && (last == Error(SaveFailure) <==> Save(false) in log)
      && (last == Error(UserCancel) || last == Error(DeviceGone) <==> CancelSeen in log || Some(log, DeviceLost))
      && (CancelSeen in log ==> last == Error(UserCancel))
      && (last.Finished? <==> Save(true) in log)
      && (last.Finished? || last == Error(SaveFailure) || last == Error(UserCancel) || last == Error(DeviceGone))
  {
    hide Body, RecordOk, RecordsOk, Errors, Some, Lost, Done, Closing, Opening, Saving, All, DeviceLost, MotorRefused;
    ThreeParts(c, run);
    var before, body, end := Opening(run.motor), Body(c, run.records), Closing(run);
    BodyTraffic(c, run.records);
    BodyLoses(c, run.records);
    AroundBody(run);
    NoneInTraffic(body);
    SomeAppend(before + body, end, DeviceLost);
    SomeAppend(before, body, DeviceLost);
    SomeAppend(before + body, end, MotorRefused);
    SomeAppend(before, body, MotorRefused);
    ClosingIsNamed(c, run);
  }

  lemma ThreeParts(c: Config, run: Run)
    requires RunOk(c, run) && (run.Aborted? || run.Completed?)
    ensures LogOf(c, run) == Opening(run.motor) + Body(c, run.records) + Closing(run)
    ensures RecordsOk(c, run.records) && GeometryOk(c) && MotorOk(run.motor)
    ensures forall i | 0 <= i < |run.records| :: RecordOk(c, run.records[i])
  {
    hide Body, Opening, Saving, Errors, RecordOk;
  }

  lemma ClosingIsNamed(c: Config, run: Run)
    requires RunOk(c, run) && (run.Aborted? || run.Completed?)
    ensures Closing(run) != []
    ensures var last, rs := Closing(run)[|Closing(run)| - 1], run.records;
      && CreateWriter(false) !in Closing(run)
      && (last == Error(SaveFailure) <==> Save(false) in Closing(run))
      && (last == Error(UserCancel) || last == Error(DeviceGone) <==>
            CancelSeen in Closing(run) || (rs != [] && Lost(rs[|rs| - 1])))
      && (CancelSeen in Closing(run) ==> last == Error(UserCancel))
      && (last.Finished? <==> Save(true) in Closing(run))
      && (last.Finished? || last == Error(SaveFailure) || last == Error(UserCancel) || last == Error(DeviceGone))
  {
    hide RecordsOk, Errors, Lost;
    if run.Completed? { DoneKeeps(c, run.records[|run.records| - 1]); }
  }

  lemma DoneKeeps(c: Config, r: CylinderRecord)
    requires Done(c, r)
    ensures !Lost(r)
  {
  }

  lemma AroundBody(run: Run)
    requires run.Aborted? || run.Completed?
    requires MotorOk(run.motor)
    ensures !Some(Opening(run.motor), DeviceLost) && !Some(Closing(run), DeviceLost)
    ensures !Some(Opening(run.motor), MotorRefused) && !Some(Closing(run), MotorRefused)
    ensures CancelSeen !in Opening(run.motor) && CreateWriter(false) !in Opening(run.motor)
    ensures forall ok :: Save(ok) !in Opening(run.motor)
  {
    hide Errors;
  }

  lemma NoneInTraffic(es: seq<Event>)
    requires All(es, Traffic)
    ensures !Some(es, MotorRefused)
    ensures CancelSeen !in es && forall ok :: CreateWriter(ok) !in es && Save(ok) !in es
  {
  }

  // ---------- What is counted ----------

  /** A failed seek, a read that yields no flux although the device is there, or no index marks, and a
      refused revolution. */
  predicate IsFault(e: Event) {
    match e
    case SeekTo(_, o) => !o.SeekArrived?
    case Read(_, _, FluxCaptured(_, times)) => times == []
    case Read(_, _, o) => !o.FluxDisconnected?
    case AddTrack(_, _, _, _, _, ok) => !ok
    case _ => false
  }

  lemma {:induction false} AddsFail(cyl: nat, side: nat, ts: seq<uint32>, ss: seq<Slice>, adds: seq<bool>)
    requires |adds| <= |ss| && forall i | 0 <= i < |ss| :: ss[i].start <= ss[i].end <= |ts|
    ensures Count(AddEvents(cyl, side, ts, ss, adds), IsFault) == CountFalse(adds)
    decreases |adds|
  {
    if adds != [] {
      var n := |adds| - 1;
      AddsFail(cyl, side, ts, ss, adds[..n]);
      assert AddEvents(cyl, side, ts, ss, adds)[..n] == AddEvents(cyl, side, ts, ss, adds[..n]);
    }
  }

  lemma SideFails(c: Config, cyl: nat, side: nat, s: SideRecord)
    requires SideOk(c, s)
    ensures Count(SideEvents(c, cyl, side, s), IsFault) == SideErrors(s)
  {
    hide AddEvents, Slices, Count, CountFalse;
    var read := Read(cyl, side, s.flux);
    CountSingle(read, IsFault);
    match s.flux
    case FluxCaptured(ts, times) =>
      var adds := AddEvents(cyl, side, ts, Revolutions(c, s), s.adds);
      CountAppend([read], adds, IsFault);
      AddsFail(cyl, side, ts, Revolutions(c, s), s.adds);
      if times == [] { NoneRefused(c, ts, s.adds); }
    case _ => assert [read] + [] == [read];
  }

  lemma NoneRefused(c: Config, ts: seq<uint32>, adds: seq<bool>)
    requires |adds| == |Slices(ts, [], 0, 0, c.revolutions)|
    ensures CountFalse(adds) == 0
  {
  }

  lemma {:induction false} SidesFail(c: Config, cyl: nat, step: nat, ss: seq<SideRecord>)
    requires GeometryOk(c) && forall i | 0 <= i < |ss| :: SideOk(c, ss[i])
    ensures Count(SidesEvents(c, cyl, step, ss), IsFault) == SidesErrors(ss)
    decreases |ss|
  {
    hide SideOk, Percent, SideEvents, SideErrors;
    if ss != [] {
      var n := |ss| - 1;
      SidesFail(c, cyl, step, ss[..n]);
      SideFails(c, cyl, n, ss[n]);
      var front, last := SidesEvents(c, cyl, step, ss[..n]), Progress(Percent(c, step + n + 1));
      CountAppend(front + SideEvents(c, cyl, n, ss[n]), [last], IsFault);
      CountAppend(front, SideEvents(c, cyl, n, ss[n]), IsFault);
      CountSingle(last, IsFault);
    }
  }

  lemma {:induction false} BodyFails(c: Config, rs: seq<CylinderRecord>)
    requires GeometryOk(c) && forall i | 0 <= i < |rs| :: RecordOk(c, rs[i])
    ensures Count(Body(c, rs), IsFault) == Errors(rs)
    decreases |rs|
  {
    hide SidesEvents, SideOk, Steps, SidesErrors;
    if rs != [] {
      var n := |rs| - 1;
      var step := Steps(c, rs[..n]);
      BodyFails(c, rs[..n]);
      CountAppend(Body(c, rs[..n]), CylinderEvents(c, n, step, rs[n]), IsFault);
      match rs[n]
      case Skipped(o) => CountSingle(SeekTo(n, o), IsFault);
      case Visited(ss) =>
        SidesFail(c, n, step, ss);
        CountAppend([SeekTo(n, SeekArrived)], SidesEvents(c, n, step, ss), IsFault);
        CountSingle(SeekTo(n, SeekArrived), IsFault);
    }
  }

  /** The errors a finished run reports are the faults in its log. */
  lemma FinishedCountsFaults(c: Config, run: Run, e: nat)
    requires RunOk(c, run) && Finished(e) in LogOf(c, run)
    ensures e == Count(LogOf(c, run), IsFault)
  {
    hide Body, RecordsOk, RecordOk, Errors, LogOf, Opening, Closing, Count;
    FinishedReportsErrors(c, run, e);
    ThreeParts(c, run);
    BodyFails(c, run.records);
    CountAppend(Opening(run.motor) + Body(c, run.records), Closing(run), IsFault);
    CountAppend(Opening(run.motor), Body(c, run.records), IsFault);
    NoFaultsAround(run);
  }

  lemma NoFaultsAround(run: Run)
    requires run.Aborted? || run.Completed?
    ensures Count(Opening(run.motor), IsFault) == 0 && Count(Closing(run), IsFault) == 0
  {
    hide Errors;
    CountNone(Opening(run.motor), IsFault);
    CountNone(Closing(run), IsFault);
  }

  // ---------- What progress means ----------

  predicate IsRead(e: Event) { e.Read? }

  predicate IsSkip(e: Event) { e.SeekTo? && !e.seek.SeekArrived? }

  /** The sides dealt with: those read, and all of a cylinder that was not reached. */
  ghost function Made(c: Config, es: seq<Event>): nat { Count(es, IsRead) + c.sides * Count(es, IsSkip) }

  lemma MadeAppend(c: Config, a: seq<Event>, b: seq<Event>)
    ensures Made(c, a + b) == Made(c, a) + Made(c, b)
  {
    hide Count;
    CountAppend(a, b, IsRead);
    CountAppend(a, b, IsSkip);
  }

  /** Every progress report is the share of the steps that the events before it make. */
  ghost predicate Honest(c: Config, es: seq<Event>, before: nat)
    requires GeometryOk(c)
  {
    forall i | 0 <= i < |es| && es[i].Progress? :: es[i].percent == Percent(c, before + Made(c, es[..i]))
  }

  lemma HonestAppend(c: Config, a: seq<Event>, b: seq<Event>, before: nat)
    requires GeometryOk(c) && Honest(c, a, before) && Honest(c, b, before + Made(c, a))
    ensures Honest(c, a + b, before)
  {
    hide Made, Percent;
    var all := a + b;
    forall i | 0 <= i < |all| && all[i].Progress? ensures all[i].percent == Percent(c, before + Made(c, all[..i])) {
      if i < |a| {
        assert all[..i] == a[..i];
      } else {
        var k := i - |a|;
        assert all[..i] == a + b[..k] && all[i] == b[k];
        MadeAppend(c, a, b[..k]);
      }
    }
  }

  lemma SideHonest(c: Config, cyl: nat, side: nat, s: SideRecord, before: nat)
    requires GeometryOk(c) && SideOk(c, s)
    ensures Honest(c, SideEvents(c, cyl, side, s), before) && Made(c, SideEvents(c, cyl, side, s)) == 1
  {
    hide Revolutions, Count;
    var es := SideEvents(c, cyl, side, s);
    assert es == [es[0]] + es[1..];
    CountAppend([es[0]], es[1..], IsRead);
    CountAppend([es[0]], es[1..], IsSkip);
    CountSingle(es[0], IsRead);
    CountSingle(es[0], IsSkip);
    CountNone(es[1..], IsRead);
    CountNone(es[1..], IsSkip);
  }

  lemma OneHonest(c: Config, step: nat)
    requires GeometryOk(c)
    ensures Honest(c, [Progress(Percent(c, step))], step) && Made(c, [Progress(Percent(c, step))]) == 0
  {
    hide Percent;
    var es := [Progress(Percent(c, step))];
    assert es[..0] == [];
  }

  lemma {:induction false} SidesHonest(c: Config, cyl: nat, step: nat, ss: seq<SideRecord>)
    requires GeometryOk(c) && forall i | 0 <= i < |ss| :: SideOk(c, ss[i])
    ensures Honest(c, SidesEvents(c, cyl, step, ss), step) && Made(c, SidesEvents(c, cyl, step, ss)) == |ss|
    decreases |ss|
  {
    hide SideOk, Percent, SideEvents, Honest, Made;
    if ss == [] {
      NoneHonest(c, step);
    } else {
      var n := |ss| - 1;
      SidesHonest(c, cyl, step, ss[..n]);
      SideHonest(c, cyl, n, ss[n], step + n);
      OneHonest(c, step + n + 1);
      var front, last := SidesEvents(c, cyl, step, ss[..n]), [Progress(Percent(c, step + n + 1))];
      HonestAppend(c, front, SideEvents(c, cyl, n, ss[n]), step);
      MadeAppend(c, front, SideEvents(c, cyl, n, ss[n]));
      HonestAppend(c, front + SideEvents(c, cyl, n, ss[n]), last, step);
      MadeAppend(c, front + SideEvents(c, cyl, n, ss[n]), last);
    }
  }

  lemma NoneHonest(c: Config, step: nat)
    requires GeometryOk(c)
    ensures Honest(c, [], step) && Made(c, []) == 0
  {
  }

  lemma SeekHonest(c: Config, cyl: nat, o: SeekOutcome, step: nat)
    requires GeometryOk(c)
    ensures Honest(c, [SeekTo(cyl, o)], step) && Made(c, [SeekTo(cyl, o)]) == if o.SeekArrived? then 0 else c.sides
  {
    hide Count;
    CountSingle(SeekTo(cyl, o), IsRead);
    CountSingle(SeekTo(cyl, o), IsSkip);
  }

  lemma {:induction false} BodyHonest(c: Config, rs: seq<CylinderRecord>)
    requires GeometryOk(c) && forall i | 0 <= i < |rs| :: RecordOk(c, rs[i])
    ensures Honest(c, Body(c, rs), 0) && Made(c, Body(c, rs)) == Steps(c, rs)
    decreases |rs|
  {
    hide SidesEvents, SideOk, Honest, Made;
    if rs == [] {
      NoneHonest(c, 0);
    } else {
      var n := |rs| - 1;
      var step := Steps(c, rs[..n]);
      BodyHonest(c, rs[..n]);
      match rs[n] {
        case Skipped(o) => SeekHonest(c, n, o, step);
        case Visited(ss) =>
          SidesHonest(c, n, step, ss);
          SeekHonest(c, n, SeekArrived, step);
          HonestAppend(c, [SeekTo(n, SeekArrived)], SidesEvents(c, n, step, ss), step);
          MadeAppend(c, [SeekTo(n, SeekArrived)], SidesEvents(c, n, step, ss));
      }
      HonestAppend(c, Body(c, rs[..n]), CylinderEvents(c, n, step, rs[n]), 0);
      MadeAppend(c, Body(c, rs[..n]), CylinderEvents(c, n, step, rs[n]));
    }
  }

  /** Until the motor stops, every progress report of a run is the whole percentage of the sides
      dealt with so far. */
  lemma ProgressIsShare(c: Config, run: Run, i: nat)
    requires RunOk(c, run) && (run.Aborted? || run.Completed?)
    requires i < |LogOf(c, run)| && LogOf(c, run)[i].Progress? && MotorOff !in LogOf(c, run)[..i]
    ensures var p, total := LogOf(c, run)[i].percent, c.cylinders * c.sides;
      p * total <= 100 * Made(c, LogOf(c, run)[..i]) < (p + 1) * total
  {
    hide Body, RecordsOk, RecordOk, LogOf, Opening, Closing, Honest, Made, Percent;
    ThreeParts(c, run);
    BodyHonest(c, run.records);
    OpeningHonest(c, run.motor);
    var a, b := Opening(run.motor), Body(c, run.records);
    HonestAppend(c, a, b, 0);
    if i < |a + b| {
      assert LogOf(c, run)[..i] == (a + b)[..i] && LogOf(c, run)[i] == (a + b)[i];
      HonestAt(c, a + b, i);
      PercentIsFloor(c, Made(c, (a + b)[..i]));
    } else {
      MotorStopsFirst(a + b, run, i);
      assert false;
    }
  }

  lemma OpeningHonest(c: Config, m: MotorOutcome)
    requires GeometryOk(c)
    ensures Honest(c, Opening(m), 0) && Made(c, Opening(m)) == 0
  {
    hide Count;
    var es := Opening(m);
    CountNone(es, IsRead);
    CountNone(es, IsSkip);
    CountNone(es[..2], IsRead);
    CountNone(es[..2], IsSkip);
  }

  lemma HonestAt(c: Config, es: seq<Event>, i: nat)
    requires GeometryOk(c) && Honest(c, es, 0) && i < |es| && es[i].Progress?
    ensures es[i].percent == Percent(c, Made(c, es[..i]))
  {
    hide Made, Percent;
    assert es[i].percent == Percent(c, 0 + Made(c, es[..i]));
  }

  lemma MotorStopsFirst(before: seq<Event>, run: Run, i: nat)
    requires run.Aborted? || run.Completed?
    requires |before| <= i < |before + Closing(run)| && (before + Closing(run))[i].Progress?
    ensures MotorOff in (before + Closing(run))[..i]
  {
    hide Errors;
    assert run.Completed? && Closing(run)[0] == MotorOff;
    assert (before + Closing(run))[..i][|before|] == MotorOff;
  }

  lemma PercentIsFloor(c: Config, step: nat)
    requires GeometryOk(c)
    ensures var p, total := Percent(c, step), c.cylinders * c.sides;
      p * total <= 100 * step < (p + 1) * total
  {
    Floor(step * 100, c.cylinders * c.sides);
  }

  lemma Floor(x: nat, d: nat)
    requires 0 < d
    ensures x / d * d <= x < (x / d + 1) * d
  {
  }
}
