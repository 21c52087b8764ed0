/** What every run of the write job keeps, whatever image and drive answer and whenever the cancel
    flag is raised. */
module FluxWriteSafety {
  import opened FluxSlicing
  import opened Ledger
  import opened Outcomes
  import opened FluxWrite

  // ---------- A monitor for order and resources ----------

  /** The track in hand has been read, its cylinder reached, or its flux handed to the drive. */
  datatype Stage = Loaded | Reached | Sent

  datatype TrackInHand = None | InHand(slot: nat, answer: Answer, stage: Stage)

  /** `next` is the first slot that has not been read yet. */
  datatype Monitor =
    Monitor(context: Resource, file: Resource, motor: Resource, track: TrackInHand, next: nat, ended: bool)

  const START := Monitor(Idle, Idle, Idle, None, 0, false)

  const CAPTURING := Monitor(Held, Held, Held, None, 0, false)

  /** Whether an event is legal: slots are read in increasing order, one at a time; only the track
      in hand is sought for and then written once, on its own cylinder and side, with revolution 0
      less its zeros; everything taken is given back before the one terminal signal. */
  predicate Legal(m: Monitor, verify: bool, e: Event) {
    && !m.ended
    && match e
       case CreateContext(_) => m.context.Idle?
       case OpenFile(_) => m.context.Held? && m.file.Idle?
       case CloseFile => m.file.Held? && !m.motor.Held? && m.track.None?
       case DestroyContext => m.context.Held? && !m.file.Held?
       case MotorOn(_) => m.file.Held? && m.motor.Idle?
       case MotorOff => m.motor.Held? && m.track.None?
       case ReadTrack(t, _) => m.motor.Held? && m.file.Held? && m.track.None? && m.next <= t
       case FreeTrack(t) => m.track.InHand? && m.track.slot == t
       case SeekTo(c, _) => m.motor.Held? && m.track.InHand? && m.track.stage.Loaded? && c == m.track.slot / 2
       case Write(c, s, v, flux, _) =>
         && m.motor.Held? && m.track.InHand? && m.track.stage.Reached?
         && c == m.track.slot / 2 && s == m.track.slot % 2
         && v == verify
         && flux == FluxOf(m.track.answer) && flux != []
       case CancelSeen => m.motor.Held?
       case Progress(_) => true
       case Error(_) => !m.context.Held? && !m.file.Held? && !m.motor.Held? && m.track.None?
       case Finished(_, _, _) => m.context.Released? && m.file.Released? && m.motor.Released? && m.track.None?
  }

  function After(m: Monitor, e: Event): Monitor {
    match e
    case CreateContext(ok) => if ok then m.(context := Held) else m
    case OpenFile(ok) => if ok then m.(file := Held) else m
    case CloseFile => m.(file := Released)
    case DestroyContext => m.(context := Released)
    case MotorOn(o) => if MotorOk(o) then m.(motor := Held) else m
    case MotorOff => m.(motor := Released)
    case ReadTrack(t, a) => m.(track := InHand(t, a, Loaded), next := t + 1)
    case SeekTo(_, o) => if m.track.InHand? && o.SeekArrived? then m.(track := m.track.(stage := Reached)) else m
    case Write(_, _, _, _, _) => if m.track.InHand? then m.(track := m.track.(stage := Sent)) else m
    case FreeTrack(_) => m.(track := None)
    case Error(_) => m.(ended := true)
    case Finished(_, _, _) => m.(ended := true)
    case _ => m
  }

  function StateAfter(log: seq<Event>): Monitor {
    if log == [] then START else After(StateAfter(log[..|log| - 1]), log[|log| - 1])
  }

  predicate Accepted(log: seq<Event>, verify: bool) {
    forall i | 0 <= i < |log| :: Legal(StateAfter(log[..i]), verify, log[i])
  }

  lemma AcceptOne(log: seq<Event>, verify: bool, e: Event)
    requires Accepted(log, verify) && Legal(StateAfter(log), verify, e)
    ensures Accepted(log + [e], verify) && StateAfter(log + [e]) == After(StateAfter(log), e)
  {
    hide Legal, After;
    var more := log + [e];
    assert more[..|log|] == log;
    forall i | 0 <= i < |more| ensures Legal(StateAfter(more[..i]), verify, more[i]) {
      if i < |log| { assert more[..i] == log[..i]; }
    }
  }

  // ---------- The walk ----------

  lemma {:induction false} SlotsIncrease(populated: seq<bool>, t: nat)
    requires t <= |populated|
    ensures forall i, k | 0 <= i < k < |Slots(populated, t)| :: Slots(populated, t)[i] < Slots(populated, t)[k]
  {
    if t > 0 {
      SlotsIncrease(populated, t - 1);
    }
  }

  function Ready(next: nat): Monitor { CAPTURING.(next := next) }

  lemma SlotAccepted(j: Job, log: seq<Event>, slot: nat, before: nat, r: SlotRecord, next: nat)
    requires 0 < j.trackCount && RecordOk(r) && next <= slot
    requires Accepted(log, j.verify) && StateAfter(log) == Ready(next)
    ensures var all := log + SlotEvents(j, slot, before, r);
      Accepted(all, j.verify) && StateAfter(all) == Ready(slot + 1)
  {
    hide Accepted, StateAfter, FluxOf, Percent;
    var es := SlotEvents(j, slot, before, r);
    var l1 := log + [es[0]];
    var l2 := l1 + [es[1]];
    AcceptOne(log, j.verify, es[0]);
    AcceptOne(l1, j.verify, es[1]);
    if r.Skipped? {
      assert log + es == l2;
    } else {
      var l3 := l2 + [es[2]];
      AcceptOne(l2, j.verify, es[2]);
      if r.SeekFailed? {
        assert log + es == l3;
      } else {
        var l4 := l3 + [es[3]];
        AcceptOne(l3, j.verify, es[3]);
        if r.WriteFailed? {
          assert log + es == l4;
        } else {
          AcceptOne(l4, j.verify, es[4]);
          assert log + es == l4 + [es[4]];
        }
      }
    }
  }

  /** The slot after the last one visited. */
  function NextSlot(j: Job, n: nat): nat
    requires |j.populated| == MAX_SLOTS && n <= |Slots(j.populated, MAX_SLOTS)|
  {
    if n == 0 then 0 else Slots(j.populated, MAX_SLOTS)[n - 1] + 1
  }

  lemma {:induction false} BodyAccepted(j: Job, log: seq<Event>, rs: seq<SlotRecord>)
    requires 0 < j.trackCount && |j.populated| == MAX_SLOTS && |rs| <= |Slots(j.populated, MAX_SLOTS)|
    requires forall i | 0 <= i < |rs| :: RecordOk(rs[i])
    requires Accepted(log, j.verify) && StateAfter(log) == CAPTURING
    ensures Accepted(log + Body(j, rs), j.verify)
    ensures StateAfter(log + Body(j, rs)) == Ready(NextSlot(j, |rs|))
    decreases |rs|
  {
    hide Accepted, StateAfter, SlotEvents, RecordOk;
    if rs == [] {
      assert log + [] == log;
    } else {
      var n := |rs| - 1;
      var slot := Slots(j.populated, MAX_SLOTS)[n];
      BodyAccepted(j, log, rs[..n]);
      SlotsIncrease(j.populated, MAX_SLOTS);
      var es := SlotEvents(j, slot, WrittenIn(rs[..n]), rs[n]);
      SlotAccepted(j, log + Body(j, rs[..n]), slot, WrittenIn(rs[..n]), rs[n], NextSlot(j, n));
      assert log + Body(j, rs) == (log + Body(j, rs[..n])) + es;
    }
  }

  lemma AcceptOpening(m: MotorOutcome, verify: bool)
    requires MotorOk(m)
    ensures Accepted(Opening(m) + [Progress(0)], verify)
    ensures StateAfter(Opening(m) + [Progress(0)]) == CAPTURING
  {
    hide Accepted, StateAfter;
    AcceptNone(verify);
    var log := [] + [CreateContext(true)];
    AcceptOne([], verify, CreateContext(true));
    AcceptOne(log, verify, OpenFile(true));
    AcceptOne(log + [OpenFile(true)], verify, MotorOn(m));
    AcceptOne(log + [OpenFile(true)] + [MotorOn(m)], verify, Progress(0));
    assert log + [OpenFile(true)] + [MotorOn(m)] == Opening(m);
  }

  lemma AcceptNone(verify: bool)
    ensures Accepted([], verify) && StateAfter([]) == START
  {
  }

  /** The tail of a run that got past the motor: stop, close, destroy, then the signals. */
  lemma AcceptTeardown(log: seq<Event>, verify: bool, last: seq<Event>)
    requires Accepted(log, verify)
    requires var m := StateAfter(log); m.context.Held? && m.file.Held? && m.motor.Held? && m.track.None? && !m.ended
    requires (|last| == 1 && last[0].Error?) || (|last| == 2 && last[0].Progress? && last[1].Finished?)
    ensures var all := log + [MotorOff, CloseFile, DestroyContext] + last;
      Accepted(all, verify) && StateAfter(all).ended && AtRest(StateAfter(all))
  {
    hide Accepted, StateAfter;
    var l1 := log + [MotorOff];
    var l2 := l1 + [CloseFile];
    var l3 := l2 + [DestroyContext];
    AcceptOne(log, verify, MotorOff);
    AcceptOne(l1, verify, CloseFile);
    AcceptOne(l2, verify, DestroyContext);
    AcceptOne(l3, verify, last[0]);
    assert log + [MotorOff, CloseFile, DestroyContext] == l3;
    if |last| == 2 {
      AcceptOne(l3 + [last[0]], verify, last[1]);
      assert l3 + [last[0]] + [last[1]] == l3 + last;
    } else {
      assert l3 + [last[0]] == l3 + last;
    }
  }

  predicate AtRest(m: Monitor) { !m.context.Held? && !m.file.Held? && !m.motor.Held? && m.track.None? }

  lemma AcceptWalk(j: Job, m: MotorOutcome, rs: seq<SlotRecord>)
    requires 0 < j.trackCount && MotorOk(m) && RecordsOk(j, rs)
    ensures var log := Opening(m) + [Progress(0)] + Body(j, rs);
      Accepted(log, j.verify) && StateAfter(log) == Ready(NextSlot(j, |rs|))
  {
    hide Accepted, StateAfter, Opening, RecordOk, Passed;
    AcceptOpening(m, j.verify);
    BodyAccepted(j, Opening(m) + [Progress(0)], rs);
  }

  /** Every run is accepted and ends with nothing held. */
  lemma RunIsSafe(j: Job, run: Run)
    requires RunOk(j, run)
    ensures Accepted(LogOf(j, run), j.verify)
    ensures var m := StateAfter(LogOf(j, run)); m.ended && AtRest(m)
  {
    hide Accepted, StateAfter, Body, Opening, RecordOk, Passed, AtRest, Slots, WrittenIn, SkippedIn, FailureReason;
    match run
    case Failed(m, rs) =>
      AcceptWalk(j, m, rs);
      var log, last := Opening(m) + [Progress(0)] + Body(j, rs), [Error(FailureReason(rs[|rs| - 1]))];
      AcceptTeardown(log, j.verify, last);
      assert log + [MotorOff, CloseFile, DestroyContext] + last == LogOf(j, run);
    case Cancelled(m, rs) =>
      AcceptWalk(j, m, rs);
      var log := Opening(m) + [Progress(0)] + Body(j, rs);
      AcceptOne(log, j.verify, CancelSeen);
      AcceptTeardown(log + [CancelSeen], j.verify, [Error(UserCancel)]);
      assert log + [CancelSeen] + [MotorOff, CloseFile, DestroyContext] + [Error(UserCancel)] == LogOf(j, run);
    case Completed(m, rs) =>
      AcceptWalk(j, m, rs);
      var log := Opening(m) + [Progress(0)] + Body(j, rs);
      var last := [Progress(100), Finished(WrittenIn(rs), SkippedIn(rs), 0)];
      AcceptTeardown(log, j.verify, last);
      assert log + [MotorOff, CloseFile, DestroyContext] + last == LogOf(j, run);
    case _ => EarlyEndIsSafe(j, run);
  }

  lemma EarlyEndIsSafe(j: Job, run: Run)
    requires RunOk(j, run) && !run.Failed? && !run.Cancelled? && !run.Completed?
    ensures Accepted(LogOf(j, run), j.verify)
    ensures var m := StateAfter(LogOf(j, run)); m.ended && AtRest(m)
  {
    hide Accepted, StateAfter;
    AcceptNone(j.verify);
    var es := LogOf(j, run);
    var l1 := [] + [es[0]];
    AcceptOne([], j.verify, es[0]);
    if run.Rejected? {
      assert es == l1;
    } else {
      var l2 := l1 + [es[1]];
      AcceptOne(l1, j.verify, es[1]);
      if run.ContextMissing? {
        assert es == l2;
      } else {
        EarlyEndOpened(j, run, l2);
      }
    }
  }

  lemma EarlyEndOpened(j: Job, run: Run, l2: seq<Event>)
    requires RunOk(j, run) && (run.OpenRefused? || run.ImageEmpty? || run.MotorFailed?)
    requires l2 == LogOf(j, run)[..2] && Accepted(l2, j.verify)
    requires StateAfter(l2) == START.(context := Held, file := if run.OpenRefused? then Idle else Held)
    ensures Accepted(LogOf(j, run), j.verify)
    ensures var m := StateAfter(LogOf(j, run)); m.ended && AtRest(m)
  {
    hide Accepted, StateAfter;
    var es := LogOf(j, run);
    var l3, l4 := l2 + [es[2]], l2 + [es[2]] + [es[3]];
    AcceptOne(l2, j.verify, es[2]);
    AcceptOne(l3, j.verify, es[3]);
    if run.OpenRefused? {
      assert es == l4;
    } else {
      AcceptOne(l4, j.verify, es[4]);
      if run.ImageEmpty? {
        assert es == l4 + [es[4]];
      } else {
        AcceptOne(l4 + [es[4]], j.verify, es[5]);
        assert es == l4 + [es[4]] + [es[5]];
      }
    }
  }

  // ---------- Theorems ----------

  predicate IsTerminal(e: Event) { e.Error? || e.Finished? }

  predicate IsCreation(e: Event) { e.CreateContext? && e.ok }

  predicate IsDestruction(e: Event) { e.DestroyContext? }

  predicate IsStart(e: Event) { e.MotorOn? && MotorOk(e.motor) }

  predicate IsStop(e: Event) { e.MotorOff? }

  predicate IsRead(e: Event) { e.ReadTrack? }

  predicate IsFree(e: Event) { e.FreeTrack? }

  lemma AcceptFront(log: seq<Event>, verify: bool)
    requires log != [] && Accepted(log, verify)
    ensures var front, e := log[..|log| - 1], log[|log| - 1];
      Accepted(front, verify) && Legal(StateAfter(front), verify, e) && StateAfter(log) == After(StateAfter(front), e)
  {
    hide Legal, After;
    var front := log[..|log| - 1];
    forall i | 0 <= i < |front| ensures Legal(StateAfter(front[..i]), verify, front[i]) {
      assert front[..i] == log[..i] && front[i] == log[i];
    }
    assert Legal(StateAfter(log[..|log| - 1]), verify, log[|log| - 1]);
  }

  /** The monitor state counts what has been taken and given back. */
  lemma {:induction false} StateCounts(log: seq<Event>, verify: bool)
    requires Accepted(log, verify)
    ensures var m := StateAfter(log);
      && Count(log, IsTerminal) == One(m.ended)
      && Count(log, IsCreation) == One(!m.context.Idle?)
      && Count(log, IsDestruction) == One(m.context.Released?)
      && Count(log, IsStart) == One(!m.motor.Idle?)
      && Count(log, IsStop) == One(m.motor.Released?)
      && Count(log, IsRead) == Count(log, IsFree) + One(m.track.InHand?)
    decreases |log|
  {
    hide StateAfter, Accepted, Legal, After, IsTerminal, IsCreation, IsDestruction, IsStart, IsStop, IsRead, IsFree;
    if log == [] {
      AcceptNone(verify);
    } else {
      var n := |log| - 1;
      AcceptFront(log, verify);
      StateCounts(log[..n], verify);
      OneEvent(StateAfter(log[..n]), verify, log[n]);
    }
  }

  /** What one legal event takes or gives back shows in the monitor. */
  lemma OneEvent(m: Monitor, verify: bool, e: Event)
    requires Legal(m, verify, e)
    ensures var n := After(m, e);
      && One(n.ended) == One(m.ended) + One(IsTerminal(e))
      && One(!n.context.Idle?) == One(!m.context.Idle?) + One(IsCreation(e))
      && One(n.context.Released?) == One(m.context.Released?) + One(IsDestruction(e))
      && One(!n.motor.Idle?) == One(!m.motor.Idle?) + One(IsStart(e))
      && One(n.motor.Released?) == One(m.motor.Released?) + One(IsStop(e))
      && One(n.track.InHand?) + One(IsFree(e)) == One(m.track.InHand?) + One(IsRead(e))
  {
    hide FluxOf;
  }

  /** Every run sends exactly one terminal signal, frees each track it read exactly once, destroys
      the context exactly as often as it was created and stops the motor exactly as often as it
      was started. */
  lemma RunIsBalanced(j: Job, run: Run)
    requires RunOk(j, run)
    ensures var log := LogOf(j, run);
      && Count(log, IsTerminal) == 1
      && Count(log, IsRead) == Count(log, IsFree)
      && Count(log, IsDestruction) == Count(log, IsCreation)
      && Count(log, IsStop) == Count(log, IsStart)
  {
    hide StateAfter, Accepted, LogOf;
    RunIsSafe(j, run);
    StateCounts(LogOf(j, run), j.verify);
  }

  /** A track in hand was read before, nothing has been freed since, and every slot read later is
      larger. */
  lemma {:induction false} InHandWasRead(log: seq<Event>, verify: bool)
    requires Accepted(log, verify)
    ensures var m := StateAfter(log);
      && (m.track.InHand? ==> m.track.slot + 1 == m.next)
      && forall i | 0 <= i < |log| && log[i].ReadTrack? :: log[i].slot < m.next
    decreases |log|
  {
    hide StateAfter, Accepted, FluxOf;
    if log == [] {
      AcceptNone(verify);
    } else {
      AcceptFront(log, verify);
      InHandWasRead(log[..|log| - 1], verify);
    }
  }

  /** The slot a write goes to. */
  function SlotOf(e: Event): nat
    requires e.Write?
  {
    2 * e.cylinder + e.side
  }

  /** The slots written so far lie below the next one to read, and below the one in hand until its
      own flux is sent. */
  predicate WritesBelow(log: seq<Event>, m: Monitor) {
    && (m.track.InHand? ==> m.track.slot + 1 == m.next)
    && forall i | 0 <= i < |log| && log[i].Write? ::
         SlotOf(log[i]) < (if m.track.InHand? && !m.track.stage.Sent? then m.track.slot else m.next)
  }

  lemma {:induction false} WritesStayBelow(log: seq<Event>, verify: bool)
    requires Accepted(log, verify)
    ensures WritesBelow(log, StateAfter(log))
    decreases |log|
  {
    hide StateAfter, Accepted, Legal, After, WritesBelow;
    if log == [] {
      AcceptNone(verify);
      assert WritesBelow([], START) by { NothingBelow(); }
    } else {
      var n := |log| - 1;
      AcceptFront(log, verify);
      WritesStayBelow(log[..n], verify);
      OneMoreBelow(log[..n], StateAfter(log[..n]), verify, log[n]);
      assert log[..n] + [log[n]] == log;
    }
  }

  lemma NothingBelow()
    ensures WritesBelow([], START)
  {
  }

  lemma OneMoreBelow(log: seq<Event>, m: Monitor, verify: bool, e: Event)
    requires WritesBelow(log, m) && Legal(m, verify, e)
    ensures WritesBelow(log + [e], After(m, e))
    ensures e.Write? ==> forall i | 0 <= i < |log| && log[i].Write? :: SlotOf(log[i]) < SlotOf(e)
  {
    hide FluxOf;
  }

  /** Writes go to strictly increasing slots, so no slot is written twice. */
  lemma WritesIncrease(j: Job, run: Run, i: nat, k: nat)
    requires RunOk(j, run) && i < k < |LogOf(j, run)|
    requires LogOf(j, run)[i].Write? && LogOf(j, run)[k].Write?
    ensures SlotOf(LogOf(j, run)[i]) < SlotOf(LogOf(j, run)[k])
  {
    hide StateAfter, LogOf, Legal, WritesBelow;
    RunIsSafe(j, run);
    var log := LogOf(j, run);
    assert Legal(StateAfter(log[..k]), j.verify, log[k]);
    PrefixAccepted(log, j.verify, k);
    WritesStayBelow(log[..k], j.verify);
    OneMoreBelow(log[..k], StateAfter(log[..k]), j.verify, log[k]);
    assert log[..k][i] == log[i];
  }

  /** Slots are read in strictly increasing order. */
  lemma ReadsIncrease(j: Job, run: Run, i: nat, k: nat)
    requires RunOk(j, run) && i < k < |LogOf(j, run)|
    requires LogOf(j, run)[i].ReadTrack? && LogOf(j, run)[k].ReadTrack?
    ensures LogOf(j, run)[i].slot < LogOf(j, run)[k].slot
  {
    hide StateAfter, LogOf, FluxOf;
    RunIsSafe(j, run);
    var log := LogOf(j, run);
    assert Legal(StateAfter(log[..k]), j.verify, log[k]);
    PrefixAccepted(log, j.verify, k);
    InHandWasRead(log[..k], j.verify);
    assert log[..k][i] == log[i];
  }

  lemma PrefixAccepted(log: seq<Event>, verify: bool, n: nat)
    requires Accepted(log, verify) && n <= |log|
    ensures Accepted(log[..n], verify)
  {
    hide Legal, StateAfter;
    forall i | 0 <= i < n ensures Legal(StateAfter(log[..n][..i]), verify, log[..n][i]) {
      assert log[..n][..i] == log[..i];
    }
  }

  // ---------- Which slots are written ----------

  /** The events of record `m` stand in the body. */
  lemma {:induction false} BodyHolds(j: Job, rs: seq<SlotRecord>, m: nat, e: Event)
    requires 0 < j.trackCount && |j.populated| == MAX_SLOTS && m < |rs| <= |Slots(j.populated, MAX_SLOTS)|
    requires e in SlotEvents(j, Slots(j.populated, MAX_SLOTS)[m], WrittenIn(rs[..m]), rs[m])
    ensures e in Body(j, rs)
    decreases |rs|
  {
    hide Slots, SlotEvents, WrittenIn;
    var n := |rs| - 1;
    if m < n {
      assert rs[..n][..m] == rs[..m];
      BodyHolds(j, rs[..n], m, e);
    }
  }

  /** Every event of the body belongs to a record. */
  lemma {:induction false} BodyComesFrom(j: Job, rs: seq<SlotRecord>, e: Event) returns (m: nat)
    requires 0 < j.trackCount && |j.populated| == MAX_SLOTS && |rs| <= |Slots(j.populated, MAX_SLOTS)|
    requires e in Body(j, rs)
    ensures m < |rs| && e in SlotEvents(j, Slots(j.populated, MAX_SLOTS)[m], WrittenIn(rs[..m]), rs[m])
    decreases |rs|
  {
    hide Slots, SlotEvents, WrittenIn;
    var n := |rs| - 1;
    if e in Body(j, rs[..n]) {
      m := BodyComesFrom(j, rs[..n], e);
      assert rs[..n][..m] == rs[..m];
    } else {
      m := n;
    }
  }

  /** Reads and writes happen in the body only. */
  lemma TrafficInBody(j: Job, run: Run, e: Event)
    requires RunOk(j, run) && e in LogOf(j, run) && (e.ReadTrack? || e.Write?)
    ensures run.Failed? || run.Cancelled? || run.Completed?
    ensures RecordsOk(j, run.records) && e in Body(j, run.records)
  {
    hide Body, RecordsOk, FluxOf, WrittenIn, SkippedIn;
  }

  lemma BodyInLog(j: Job, run: Run, e: Event)
    requires RunOk(j, run) && (run.Failed? || run.Cancelled? || run.Completed?) && e in Body(j, run.records)
    ensures e in LogOf(j, run)
  {
    hide Body, RecordsOk, FluxOf, WrittenIn, SkippedIn;
  }

  /** What a record's reads and writes say. */
  lemma SlotTraffic(j: Job, slot: nat, before: nat, r: SlotRecord, e: Event)
    requires 0 < j.trackCount && RecordOk(r)
    requires e in SlotEvents(j, slot, before, r)
    ensures e.ReadTrack? ==> e == ReadTrack(slot, r.answer)
    ensures e.Write? ==>
      && SlotOf(e) == slot && e.flux == FluxOf(r.answer) && e.flux != []
      && (e.result.WriteCompleted? <==> r.Written?)
  {
    hide FluxOf, Percent;
  }

  lemma SlotHas(j: Job, slot: nat, before: nat, r: SlotRecord)
    requires 0 < j.trackCount && RecordOk(r)
    ensures ReadTrack(slot, r.answer) in SlotEvents(j, slot, before, r)
    ensures r.Written? ==>
      Write(slot / 2, slot % 2, j.verify, FluxOf(r.answer), WriteCompleted) in SlotEvents(j, slot, before, r)
  {
    hide FluxOf, Percent;
    var es := SlotEvents(j, slot, before, r);
    assert es[0] == ReadTrack(slot, r.answer);
    if r.Written? {
      assert es[2] == Write(slot / 2, slot % 2, j.verify, FluxOf(r.answer), WriteCompleted);
    }
  }

  /** What the log shows for slot `t`: it was read, and then either held no flux or was written in
      full. */
  ghost predicate Handled(j: Job, log: seq<Event>, t: nat) {
    exists a :: ReadTrack(t, a) in log &&
      (FluxOf(a) == [] || Write(t / 2, t % 2, j.verify, FluxOf(a), WriteCompleted) in log)
  }

  lemma RecordHandled(j: Job, run: Run, m: nat)
    requires RunOk(j, run) && (run.Failed? || run.Cancelled? || run.Completed?)
    requires m < |run.records| && Passed(run.records[m])
    ensures m < |Slots(j.populated, MAX_SLOTS)| && RecordOk(run.records[m])
    ensures ReadTrack(Slots(j.populated, MAX_SLOTS)[m], run.records[m].answer) in LogOf(j, run)
    ensures Handled(j, LogOf(j, run), Slots(j.populated, MAX_SLOTS)[m])
  {
    hide Slots, FluxOf, Body, LogOf, SlotEvents, WrittenIn;
    var rs := run.records;
    var slot, r := Slots(j.populated, MAX_SLOTS)[m], rs[m];
    SlotHas(j, slot, WrittenIn(rs[..m]), r);
    BodyHolds(j, rs, m, ReadTrack(slot, r.answer));
    BodyInLog(j, run, ReadTrack(slot, r.answer));
    if r.Written? {
      var w := Write(slot / 2, slot % 2, j.verify, FluxOf(r.answer), WriteCompleted);
      BodyHolds(j, rs, m, w);
      BodyInLog(j, run, w);
    }
  }

  /** The written slots are a prefix of the writable ones: when a slot is written, every populated
      slot before it has been read and was written in full unless it held no flux.  A slot is
      written only when it is populated, and with the flux just read from it. */
  lemma WrittenArePrefix(j: Job, run: Run, w: Event, t: nat)
    requires RunOk(j, run) && |j.populated| == MAX_SLOTS && w in LogOf(j, run) && w.Write?
    ensures SlotOf(w) < MAX_SLOTS && j.populated[SlotOf(w)]
    ensures exists a :: ReadTrack(SlotOf(w), a) in LogOf(j, run) && w.flux == FluxOf(a) && w.flux != []
    ensures t < SlotOf(w) && j.populated[t] ==> Handled(j, LogOf(j, run), t)
  {
    hide FluxOf, Body, LogOf, SlotEvents, WrittenIn, Handled, Slots;
    TrafficInBody(j, run, w);
    var rs := run.records;
    var m := BodyComesFrom(j, rs, w);
    SlotTraffic(j, Slots(j.populated, MAX_SLOTS)[m], WrittenIn(rs[..m]), rs[m], w);
    var read := ReadTrack(SlotOf(w), rs[m].answer);
    SlotHas(j, SlotOf(w), WrittenIn(rs[..m]), rs[m]);
    BodyHolds(j, rs, m, read);
    BodyInLog(j, run, read);
    if t < SlotOf(w) && j.populated[t] {
      var k := Listed(j, t);
      SlotsIncrease(j.populated, MAX_SLOTS);
      assert k < m;
      RecordHandled(j, run, k);
    }
  }

  /** A populated slot has its place in the slot list. */
  lemma Listed(j: Job, t: nat) returns (k: nat)
    requires |j.populated| == MAX_SLOTS && t < MAX_SLOTS && j.populated[t]
    ensures k < |Slots(j.populated, MAX_SLOTS)| && Slots(j.populated, MAX_SLOTS)[k] == t
  {
    hide Slots;
    SlotNext(j.populated, t);
    k := |Slots(j.populated, t)|;
  }

  lemma {:induction false} NoneSkipped(rs: seq<SlotRecord>)
    ensures SkippedIn(rs) == 0 <==> forall i | 0 <= i < |rs| :: !rs[i].Skipped?
    decreases |rs|
  {
    if rs != [] {
      NoneSkipped(rs[..|rs| - 1]);
    }
  }

  /** A finished run reports no skip exactly when every populated slot answered with flux: that is
      when no unreadable track was passed over. */
  lemma NothingSkippedIff(j: Job, run: Run, written: nat, skipped: nat)
    requires RunOk(j, run) && |j.populated| == MAX_SLOTS && Finished(written, skipped, 0) in LogOf(j, run)
    ensures skipped == 0 <==>
      forall t | 0 <= t < MAX_SLOTS && j.populated[t] :: exists a :: ReadTrack(t, a) in LogOf(j, run) && FluxOf(a) != []
  {
    hide FluxOf, Body, LogOf, SlotEvents, WrittenIn, SkippedIn, Handled, Slots;
    FinishedCounts(j, run, written, skipped);
    var rs := run.records;
    NoneSkipped(rs);
    SlotsIncrease(j.populated, MAX_SLOTS);
    if skipped == 0 {
      forall t | 0 <= t < MAX_SLOTS && j.populated[t]
        ensures exists a :: ReadTrack(t, a) in LogOf(j, run) && FluxOf(a) != []
      {
        var k := Listed(j, t);
        RecordHandled(j, run, k);
        assert !rs[k].Skipped? && FluxOf(rs[k].answer) != [];
      }
    } else {
      var k :| 0 <= k < |rs| && rs[k].Skipped?;
      var t := Slots(j.populated, MAX_SLOTS)[k];
      forall a | ReadTrack(t, a) in LogOf(j, run) ensures FluxOf(a) == [] {
        OnlyRead(j, run, k, a);
      }
      assert j.populated[t] && t < MAX_SLOTS;
    }
  }

  /** A slot's read in the log is the one of its record. */
  lemma OnlyRead(j: Job, run: Run, k: nat, a: Answer)
    requires RunOk(j, run) && run.Completed? && k < |run.records| && k < |Slots(j.populated, MAX_SLOTS)|
    requires ReadTrack(Slots(j.populated, MAX_SLOTS)[k], a) in LogOf(j, run)
    ensures a == run.records[k].answer
  {
    hide FluxOf, Body, LogOf, SlotEvents, WrittenIn, Slots;
    var read := ReadTrack(Slots(j.populated, MAX_SLOTS)[k], a);
    TrafficInBody(j, run, read);
    var m := BodyComesFrom(j, run.records, read);
    SlotTraffic(j, Slots(j.populated, MAX_SLOTS)[m], WrittenIn(run.records[..m]), run.records[m], read);
    SlotsIncrease(j.populated, MAX_SLOTS);
    assert m == k;
  }

  lemma FinishedCounts(j: Job, run: Run, written: nat, skipped: nat)
    requires RunOk(j, run) && Finished(written, skipped, 0) in LogOf(j, run)
    ensures run.Completed? && RecordsOk(j, run.records)
    ensures written == WrittenIn(run.records) && skipped == SkippedIn(run.records)
    ensures |run.records| == |Slots(j.populated, MAX_SLOTS)|
    ensures forall i | 0 <= i < |run.records| :: Passed(run.records[i])
  {
    hide Body, Slots, RecordOk, Passed;
    FinishedCoversAll(j, run);
    NoFinishInBody(j, run.records);
  }

  /** An unreadable track does not stop the write: an image whose one track cannot be read is
      reported as finished, with that track skipped. */
  lemma UnreadableTrackIsSkipped(verify: bool)
    ensures var j := Job(seq(MAX_SLOTS, t => t == 3), 1, verify);
      var run := Completed(MotorRunning, [Skipped(ReadError)]);
      && RunOk(j, run)
      && ReadTrack(3, ReadError) in LogOf(j, run)
      && Finished(0, 1, 0) in LogOf(j, run)
  {
    var j := Job(seq(MAX_SLOTS, t => t == 3), 1, verify);
    var rs := [Skipped(ReadError)];
    var run := Completed(MotorRunning, rs);
    OneSlot(j.populated, 3, MAX_SLOTS);
    assert rs[..0] == [];
    assert RecordsOk(j, rs);
    var log := LogOf(j, run);
    assert log[|log| - 1] == Finished(0, 1, 0);
    assert SlotEvents(j, 3, 0, rs[0])[0] == ReadTrack(3, ReadError);
    BodyHolds(j, rs, 0, ReadTrack(3, ReadError));
    BodyInLog(j, run, ReadTrack(3, ReadError));
  }

  lemma {:induction false} OneSlot(populated: seq<bool>, s: nat, t: nat)
    requires s < |populated| && t <= |populated|
    requires forall i | 0 <= i < |populated| :: populated[i] <==> i == s
    ensures Slots(populated, t) == if s < t then [s] else []
    decreases t
  {
    if t > 0 { OneSlot(populated, s, t - 1); }
  }

  lemma {:induction false} AllCounted(rs: seq<SlotRecord>)
    requires forall i | 0 <= i < |rs| :: Passed(rs[i])
    ensures WrittenIn(rs) + SkippedIn(rs) == |rs|
    decreases |rs|
  {
    if rs != [] {
      AllCounted(rs[..|rs| - 1]);
    }
  }

  predicate IsCompletedWrite(e: Event) { e.Write? && e.result.WriteCompleted? }

  /** Of the events of one slot, exactly a written record's hold a completed write. */
  lemma SlotWrites(j: Job, slot: nat, before: nat, r: SlotRecord)
    requires 0 < j.trackCount && RecordOk(r)
    ensures Count(SlotEvents(j, slot, before, r), IsCompletedWrite) == if r.Written? then 1 else 0
  {
    hide FluxOf, Percent, Count;
    var es := SlotEvents(j, slot, before, r);
    if r.Written? || r.WriteFailed? {
      CountAppend(es[..2], es[2..], IsCompletedWrite);
      CountAppend([es[2]], es[3..], IsCompletedWrite);
      CountSingle(es[2], IsCompletedWrite);
      assert es == es[..2] + es[2..] && es[2..] == [es[2]] + es[3..];
      CountNone(es[..2], IsCompletedWrite);
      CountNone(es[3..], IsCompletedWrite);
    } else {
      CountNone(es, IsCompletedWrite);
    }
  }

  lemma {:induction false} BodyWrites(j: Job, rs: seq<SlotRecord>)
    requires 0 < j.trackCount && |j.populated| == MAX_SLOTS && |rs| <= |Slots(j.populated, MAX_SLOTS)|
    requires forall i | 0 <= i < |rs| :: RecordOk(rs[i])
    ensures Count(Body(j, rs), IsCompletedWrite) == WrittenIn(rs)
    decreases |rs|
  {
    hide SlotEvents, Slots, RecordOk, IsCompletedWrite;
    if rs != [] {
      var n := |rs| - 1;
      BodyWrites(j, rs[..n]);
      var es := SlotEvents(j, Slots(j.populated, MAX_SLOTS)[n], WrittenIn(rs[..n]), rs[n]);
      SlotWrites(j, Slots(j.populated, MAX_SLOTS)[n], WrittenIn(rs[..n]), rs[n]);
      CountAppend(Body(j, rs[..n]), es, IsCompletedWrite);
    }
  }

  /** The completed writes of a run that turned the motor are its written records. */
  lemma LogWrites(j: Job, run: Run)
    requires RunOk(j, run) && run.Completed?
    ensures Count(LogOf(j, run), IsCompletedWrite) == WrittenIn(run.records)
  {
    hide Body, WrittenIn, Slots, RecordOk;
    var rs := run.records;
    var before := Opening(run.motor) + [Progress(0)];
    var after := [MotorOff, CloseFile, DestroyContext, Progress(100), Finished(WrittenIn(rs), SkippedIn(rs), 0)];
    BodyWrites(j, rs);
    CountAppend(before + Body(j, rs), after, IsCompletedWrite);
    CountAppend(before, Body(j, rs), IsCompletedWrite);
    CountNone(before, IsCompletedWrite);
    CountNone(after, IsCompletedWrite);
  }

  /** A finished run has written or skipped every populated slot and reports no hard error; the
      number it reports as written is the number of writes the drive completed. */
  lemma FinishedCoversAll(j: Job, run: Run)
    requires RunOk(j, run)
    ensures run.Completed? <==> exists i :: 0 <= i < |LogOf(j, run)| && LogOf(j, run)[i].Finished?
    ensures run.Completed? ==>
      var last := LogOf(j, run)[|LogOf(j, run)| - 1];
      && last.Finished? && last.hardErrors == 0
      && last.written == Count(LogOf(j, run), IsCompletedWrite)
      && last.written + last.skipped == |Slots(j.populated, MAX_SLOTS)|
  {
    hide Body, Slots, RecordOk, Passed;
    if run.Completed? {
      LogWrites(j, run);
      AllCounted(run.records);
      var last := LogOf(j, run)[|LogOf(j, run)| - 1];
      assert last.Finished?;
    } else if run.Failed? || run.Cancelled? {
      NoFinishInBody(j, run.records);
    }
  }

  lemma {:induction false} NoFinishInBody(j: Job, rs: seq<SlotRecord>)
    requires 0 < j.trackCount && |j.populated| == MAX_SLOTS && |rs| <= |Slots(j.populated, MAX_SLOTS)|
    ensures forall i | 0 <= i < |Body(j, rs)| :: !Body(j, rs)[i].Finished?
    decreases |rs|
  {
    hide Slots, Percent;
    if rs != [] {
      NoFinishInBody(j, rs[..|rs| - 1]);
    }
  }

  // ---------- Progress ----------

  function PercentOf(e: Event): int { if e.Progress? then e.percent else -1 }

  lemma PercentMonotone(j: Job, s: nat, t: nat)
    requires 0 < j.trackCount && s <= t
    ensures Percent(j, s) <= Percent(j, t) <= 100 && Percent(j, 0) == 0
  {
    DivMonotone(s * 100, t * 100, j.trackCount);
  }

  lemma SlotRising(j: Job, slot: nat, before: nat, r: SlotRecord)
    requires 0 < j.trackCount
    ensures Rising(SlotEvents(j, slot, before, r), PercentOf, Percent(j, before),
                   Percent(j, before + (if r.Written? then 1 else 0)))
  {
    hide FluxOf, Percent;
    PercentMonotone(j, before, before + 1);
  }

  lemma {:induction false} BodyRising(j: Job, rs: seq<SlotRecord>)
    requires 0 < j.trackCount && |j.populated| == MAX_SLOTS && |rs| <= |Slots(j.populated, MAX_SLOTS)|
    ensures Rising(Body(j, rs), PercentOf, 0, Percent(j, WrittenIn(rs)))
    decreases |rs|
  {
    hide Percent, SlotEvents, Slots, Rising;
    PercentMonotone(j, 0, 0);
    if rs == [] {
      RisingNone(PercentOf, 0);
    } else {
      var n := |rs| - 1;
      var slot, before := Slots(j.populated, MAX_SLOTS)[n], WrittenIn(rs[..n]);
      BodyRising(j, rs[..n]);
      SlotRising(j, slot, before, rs[n]);
      PercentMonotone(j, before, WrittenIn(rs));
      RisingAppend(Body(j, rs[..n]), SlotEvents(j, slot, before, rs[n]), PercentOf, 0, Percent(j, before),
                   Percent(j, WrittenIn(rs)));
    }
  }

  /** The progress values of every run stay in 0..100 and never fall. */
  lemma RunProgress(j: Job, run: Run)
    requires RunOk(j, run)
    ensures Rising(LogOf(j, run), PercentOf, 0, 100)
  {
    hide Body, Opening, Rising, RecordOk, Passed, WrittenIn, SkippedIn, FailureReason;
    match run
    case Failed(m, rs) => WalkProgress(j, m, rs, Teardown(FailureReason(rs[|rs| - 1])));
    case Cancelled(m, rs) =>
      WalkProgress(j, m, rs, [CancelSeen] + Teardown(UserCancel));
      assert LogOf(j, run) == Opening(m) + [Progress(0)] + Body(j, rs) + ([CancelSeen] + Teardown(UserCancel));
    case Completed(m, rs) =>
      var last := [MotorOff, CloseFile, DestroyContext, Progress(100), Finished(WrittenIn(rs), SkippedIn(rs), 0)];
      WalkProgress(j, m, rs, last);
    case _ => EarlyProgress(j, run);
  }

  lemma EarlyProgress(j: Job, run: Run)
    requires RunOk(j, run) && !run.Failed? && !run.Cancelled? && !run.Completed?
    ensures Rising(LogOf(j, run), PercentOf, 0, 100)
  {
  }

  lemma WalkProgress(j: Job, m: MotorOutcome, rs: seq<SlotRecord>, last: seq<Event>)
    requires 0 < j.trackCount && RecordsOk(j, rs)
    requires forall i | 0 <= i < |last| && PercentOf(last[i]) >= 0 :: PercentOf(last[i]) == 100
    ensures Rising(Opening(m) + [Progress(0)] + Body(j, rs) + last, PercentOf, 0, 100)
  {
    hide Body, WrittenIn, Rising, RecordOk, Passed, Percent;
    var start := Opening(m) + [Progress(0)];
    StartProgress(m);
    BodyRising(j, rs);
    PercentMonotone(j, 0, WrittenIn(rs));
    RisingAppend(start, Body(j, rs), PercentOf, 0, 0, Percent(j, WrittenIn(rs)));
    RisingEnd(last, PercentOf, Percent(j, WrittenIn(rs)), 100);
    RisingAppend(start + Body(j, rs), last, PercentOf, 0, Percent(j, WrittenIn(rs)), 100);
  }

  lemma StartProgress(m: MotorOutcome)
    ensures Rising(Opening(m) + [Progress(0)], PercentOf, 0, 0)
  {
  }

  // ---------- What a cancel does ----------

  /** The track in hand is the one read last. */
  lemma {:induction false} InHandSince(log: seq<Event>) returns (i: nat)
    requires StateAfter(log).track.InHand?
    ensures i < |log| && log[i] == ReadTrack(StateAfter(log).track.slot, StateAfter(log).track.answer)
    ensures forall l | i < l < |log| :: !log[l].ReadTrack?
    decreases |log|
  {
    var n := |log| - 1;
    if log[n].ReadTrack? {
      i := n;
    } else {
      i := InHandSince(log[..n]);
      assert forall l | i < l < n :: log[l] == log[..n][l];
    }
  }

  predicate Works(e: Event) { e.SeekTo? || e.Write? }

  /** Once the flag is up only the slot in hand is still sought for and written: it is the slot read
      last, and read before, with its own flux; no later slot is begun. */
  lemma OnlySlotInHand(j: Job, run: Run, up: nat, k: nat) returns (i: nat)
    requires RunOk(j, run) && Timely(LogOf(j, run), 0, up) && up <= k < |LogOf(j, run)| && Works(LogOf(j, run)[k])
    ensures i < up && i < |LogOf(j, run)| && LogOf(j, run)[i].ReadTrack?
    ensures var read, e := LogOf(j, run)[i], LogOf(j, run)[k];
      && e.cylinder == read.slot / 2
      && (e.Write? ==> e.side == read.slot % 2 && e.flux == FluxOf(read.answer))
    ensures forall l | i < l < |LogOf(j, run)| :: !LogOf(j, run)[l].ReadTrack?
  {
    hide LogOf, Accepted, StateAfter, FluxOf;
    RunIsSafe(j, run);
    var log := LogOf(j, run);
    LegalAt(log, j.verify, k);
    i := InHandSince(log[..k]);
    assert forall l | i < l < k :: log[l] == log[..k][l];
  }

  lemma LegalAt(log: seq<Event>, verify: bool, k: nat)
    requires Accepted(log, verify) && k < |log|
    ensures Legal(StateAfter(log[..k]), verify, log[k])
  {
    hide Legal, StateAfter;
  }

  /** A flag that is up before the walk: nothing is read, sought for or written, and a run whose
      motor started ends with the user's cancel. */
  lemma CancelBeforeWalk(j: Job, run: Run, up: nat, possible: nat)
    requires RunOk(j, run) && |j.populated| == MAX_SLOTS && up <= 4
    requires Timely(LogOf(j, run), 0, up) && Reasoned(j.populated, run, |LogOf(j, run)|, possible, up)
    ensures forall i | 0 <= i < |LogOf(j, run)| :: !LogOf(j, run)[i].ReadTrack? && !Works(LogOf(j, run)[i])
    ensures run.Failed? || run.Cancelled? || run.Completed? ==>
      LogOf(j, run)[|LogOf(j, run)| - 1] == Error(UserCancel)
  {
    hide Body, Slots, RecordOk, Passed, FluxOf, SlotEvents, WrittenIn, SkippedIn;
    if run.Failed? || run.Cancelled? || run.Completed? {
      var rs := run.records;
      if rs != [] { FirstRead(j, run); }
      assert rs == [];
      assert Body(j, rs) == [] by { NothingYet(j); }
      if run.Completed? { NoneBelowLast(j); }
    }
  }

  lemma NoneBelowLast(j: Job)
    requires |j.populated| == MAX_SLOTS && Slots(j.populated, MAX_SLOTS) == []
    ensures !j.populated[MAX_SLOTS - 1]
  {
  }

  /** A run with records has its first read behind the opening, at entry 4. */
  lemma FirstRead(j: Job, run: Run)
    requires RunOk(j, run) && (run.Failed? || run.Cancelled? || run.Completed?) && run.records != []
    ensures 4 < |LogOf(j, run)| && LogOf(j, run)[4].ReadTrack?
  {
    hide Slots, RecordOk, Passed, FluxOf, SlotEvents, WrittenIn, SkippedIn, Body;
    BodyStarts(j, run.records);
    var before := Opening(run.motor) + [Progress(0)];
    assert |before| == 4;
    assert (before + Body(j, run.records))[4] == Body(j, run.records)[0];
  }

  lemma {:induction false} BodyStarts(j: Job, rs: seq<SlotRecord>)
    requires 0 < j.trackCount && |j.populated| == MAX_SLOTS && 0 < |rs| <= |Slots(j.populated, MAX_SLOTS)|
    ensures Body(j, rs) != [] && Body(j, rs)[0].ReadTrack?
    decreases |rs|
  {
    hide Slots, Percent, FluxOf;
    if |rs| > 1 { BodyStarts(j, rs[..|rs| - 1]); } else { assert Body(j, rs[..0]) == []; }
  }

  // ---------- What the end means ----------

  predicate SeekBroken(e: Event) { e.SeekTo? && !e.seek.SeekArrived? }

  predicate WriteBroken(e: Event) { e.Write? && !e.result.WriteCompleted? }

  predicate MotorRefused(e: Event) { e.MotorOn? && !e.motor.MotorRunning? && !e.motor.MotorStopped? }

  predicate IsMotorOn(e: Event) { e.MotorOn? }

  ghost predicate Some(log: seq<Event>, p: Event -> bool) { exists i | 0 <= i < |log| :: p(log[i]) }

  lemma SomeAppend(a: seq<Event>, b: seq<Event>, p: Event -> bool)
    ensures Some(a + b, p) <==> Some(a, p) || Some(b, p)
  {
    if Some(a, p) {
      var i :| 0 <= i < |a| && p(a[i]);
      assert p((a + b)[i]);
    }
    if Some(b, p) {
      var i :| 0 <= i < |b| && p(b[i]);
      assert p((a + b)[|a| + i]);
    }
  }

  lemma SlotBreaks(j: Job, slot: nat, before: nat, r: SlotRecord)
    requires 0 < j.trackCount
    requires RecordOk(r)
    ensures var es := SlotEvents(j, slot, before, r);
      (Some(es, SeekBroken) <==> r.SeekFailed?) && (Some(es, WriteBroken) <==> r.WriteFailed?)
  {
    hide FluxOf, Percent;
    var es := SlotEvents(j, slot, before, r);
    if r.SeekFailed? { assert SeekBroken(es[1]); }
    if r.WriteFailed? { assert WriteBroken(es[2]); }
  }

  /** A walk breaks at its last slot only. */
  lemma {:induction false} BodyBreaks(j: Job, rs: seq<SlotRecord>)
    requires 0 < j.trackCount && RecordsOk(j, rs)
    ensures Some(Body(j, rs), SeekBroken) <==> rs != [] && rs[|rs| - 1].SeekFailed?
    ensures Some(Body(j, rs), WriteBroken) <==> rs != [] && rs[|rs| - 1].WriteFailed?
    decreases |rs|
  {
    hide SlotEvents, Slots, RecordOk, SeekBroken, WriteBroken, Some;
    if rs == [] {
      NoneBroken();
    } else {
      var n := |rs| - 1;
      var es := SlotEvents(j, Slots(j.populated, MAX_SLOTS)[n], WrittenIn(rs[..n]), rs[n]);
      BodyBreaks(j, rs[..n]);
      SlotBreaks(j, Slots(j.populated, MAX_SLOTS)[n], WrittenIn(rs[..n]), rs[n]);
      SomeAppend(Body(j, rs[..n]), es, SeekBroken);
      SomeAppend(Body(j, rs[..n]), es, WriteBroken);
    }
  }

  lemma NoneBroken()
    ensures !Some([], SeekBroken) && !Some([], WriteBroken)
  {
  }

  /** The terminal signal by what was met: out of memory, refused file, empty image, refused motor,
      broken seek, broken write and cancel each have their own, and without any of them the run
      finishes. */
  lemma EndIsNamed(j: Job, run: Run)
    requires RunOk(j, run) && !run.Rejected?
    ensures var log := LogOf(j, run); var last := log[|log| - 1];
      && (last == Error(OutOfMemory) <==> CreateContext(false) in log)
      && (last == Error(OpenFailure) <==> OpenFile(false) in log)
      && (last == Error(NoTracks) <==> OpenFile(true) in log && !Some(log, IsMotorOn))
      && (last == Error(MotorFailure) <==> Some(log, MotorRefused))
      && (last == Error(SeekFailure) <==> Some(log, SeekBroken))
      && (last == Error(WriteFailure) <==> Some(log, WriteBroken))
      && (last == Error(UserCancel) <==> CancelSeen in log)
      && (last.Finished? || last.Error?)
  {
    hide Body, Slots, RecordOk, FluxOf, WrittenIn, SkippedIn;
    if run.Failed? || run.Cancelled? || run.Completed? {
      WalkIsNamed(j, run);
    } else {
      EarlyIsNamed(j, run);
    }
  }

  lemma EarlyIsNamed(j: Job, run: Run)
    requires RunOk(j, run) && !run.Rejected? && !run.Failed? && !run.Cancelled? && !run.Completed?
    ensures var log := LogOf(j, run); var last := log[|log| - 1];
      && (last == Error(OutOfMemory) <==> CreateContext(false) in log)
      && (last == Error(OpenFailure) <==> OpenFile(false) in log)
      && (last == Error(NoTracks) <==> OpenFile(true) in log && !Some(log, IsMotorOn))
      && (last == Error(MotorFailure) <==> Some(log, MotorRefused))
      && !Some(log, SeekBroken) && !Some(log, WriteBroken) && CancelSeen !in log
      && last.Error? && last != Error(SeekFailure) && last != Error(WriteFailure) && last != Error(UserCancel)
  {
    var log := LogOf(j, run);
    if run.MotorFailed? { assert MotorRefused(log[2]) && IsMotorOn(log[2]) && log[1] == OpenFile(true); }
    if run.ImageEmpty? { assert log[1] == OpenFile(true); }
    if run.OpenRefused? { assert log[1] == OpenFile(false); }
    if run.ContextMissing? { assert log[0] == CreateContext(false); }
  }

  /** Events that only a walk has. */
  predicate OfWalk(e: Event) { e.ReadTrack? || e.FreeTrack? || e.SeekTo? || e.Write? || e.Progress? }

  lemma {:induction false} BodyIsWalk(j: Job, rs: seq<SlotRecord>)
    requires 0 < j.trackCount && |j.populated| == MAX_SLOTS && |rs| <= |Slots(j.populated, MAX_SLOTS)|
    ensures forall i | 0 <= i < |Body(j, rs)| :: OfWalk(Body(j, rs)[i])
    decreases |rs|
  {
    hide Slots, Percent, FluxOf;
    if rs != [] { BodyIsWalk(j, rs[..|rs| - 1]); }
  }

  /** What surrounds a walk. */
  function Ending(run: Run): seq<Event>
    requires run.Failed? || run.Cancelled? || run.Completed?
    requires run.Failed? ==> run.records != []
  {
    match run
    case Failed(m, rs) => Teardown(FailureReason(rs[|rs| - 1]))
    case Cancelled(m, rs) => [CancelSeen] + Teardown(UserCancel)
    case Completed(m, rs) =>
      [MotorOff, CloseFile, DestroyContext, Progress(100), Finished(WrittenIn(rs), SkippedIn(rs), 0)]
  }

  lemma WalkIsNamed(j: Job, run: Run)
    requires RunOk(j, run) && (run.Failed? || run.Cancelled? || run.Completed?)
    ensures var log := LogOf(j, run); var last := log[|log| - 1];
      && CreateContext(false) !in log && OpenFile(false) !in log && Some(log, IsMotorOn) && !Some(log, MotorRefused)
      && (last == Error(SeekFailure) <==> Some(log, SeekBroken))
      && (last == Error(WriteFailure) <==> Some(log, WriteBroken))
      && (last == Error(UserCancel) <==> CancelSeen in log)
      && (last.Finished? || last == Error(SeekFailure) || last == Error(WriteFailure) || last == Error(UserCancel))
  {
    hide Body, Slots, RecordOk, Passed, Opening, Ending, FluxOf, WrittenIn, SkippedIn, Some, SeekBroken, WriteBroken,
      IsMotorOn, MotorRefused, LogOf;
    WalkParts(j, run);
    BodyIsWalk(j, run.records);
    BodyBreaks(j, run.records);
    BeforeWalk(run.motor);
    AfterWalk(run);
    EndingIsNamed(j, run);
    var before, body, end := Opening(run.motor) + [Progress(0)], Body(j, run.records), Ending(run);
    WalkHasNone(body);
    SomeAppend(before + body, end, SeekBroken);
    SomeAppend(before, body, SeekBroken);
    SomeAppend(before + body, end, WriteBroken);
    SomeAppend(before, body, WriteBroken);
    SomeAppend(before + body, end, MotorRefused);
    SomeAppend(before, body, MotorRefused);
    SomeAppend(before + body, end, IsMotorOn);
    SomeAppend(before, body, IsMotorOn);
  }

  lemma EndingIsNamed(j: Job, run: Run)
    requires RunOk(j, run) && (run.Failed? || run.Cancelled? || run.Completed?)
    ensures Ending(run) != []
    ensures var last, rs := Ending(run)[|Ending(run)| - 1], run.records;
      && CreateContext(false) !in Ending(run) && OpenFile(false) !in Ending(run)
      && (last == Error(SeekFailure) <==> rs != [] && rs[|rs| - 1].SeekFailed?)
      && (last == Error(WriteFailure) <==> rs != [] && rs[|rs| - 1].WriteFailed?)
      && (last == Error(UserCancel) <==> CancelSeen in Ending(run))
      && (last.Finished? || last == Error(SeekFailure) || last == Error(WriteFailure) || last == Error(UserCancel))
  {
    hide Slots, RecordOk, WrittenIn, SkippedIn;
  }

  lemma BeforeWalk(m: MotorOutcome)
    requires MotorOk(m)
    ensures var es := Opening(m) + [Progress(0)];
      && !Some(es, SeekBroken) && !Some(es, WriteBroken) && !Some(es, MotorRefused) && Some(es, IsMotorOn)
      && CreateContext(false) !in es && OpenFile(false) !in es && CancelSeen !in es
  {
    var es := Opening(m) + [Progress(0)];
    assert IsMotorOn(es[2]);
  }

  lemma AfterWalk(run: Run)
    requires run.Failed? || run.Cancelled? || run.Completed?
    requires run.Failed? ==> run.records != []
    ensures var es := Ending(run);
      !Some(es, SeekBroken) && !Some(es, WriteBroken) && !Some(es, MotorRefused)
  {
  }

  lemma WalkHasNone(es: seq<Event>)
    requires forall i | 0 <= i < |es| :: OfWalk(es[i])
    ensures !Some(es, MotorRefused)
    ensures CreateContext(false) !in es && OpenFile(false) !in es && CancelSeen !in es
  {
  }

  // ---------- What progress means ----------

  ghost function Made(es: seq<Event>): nat { Count(es, IsCompletedWrite) }

  /** Every progress report is the share of the tracks written before it. */
  ghost predicate Honest(j: Job, es: seq<Event>, before: nat)
    requires 0 < j.trackCount
  {
    forall i | 0 <= i < |es| && es[i].Progress? :: es[i].percent == Percent(j, before + Made(es[..i]))
  }

  lemma HonestAppend(j: Job, a: seq<Event>, b: seq<Event>, before: nat)
    requires 0 < j.trackCount && Honest(j, a, before) && Honest(j, b, before + Made(a))
    ensures Honest(j, a + b, before)
  {
    hide Count, Percent;
    var all := a + b;
    forall i | 0 <= i < |all| && all[i].Progress? ensures all[i].percent == Percent(j, before + Made(all[..i])) {
      if i < |a| {
        assert all[..i] == a[..i];
      } else {
        var k := i - |a|;
        assert all[..i] == a + b[..k] && all[i] == b[k];
        CountAppend(a, b[..k], IsCompletedWrite);
      }
    }
  }

  lemma SlotHonest(j: Job, slot: nat, before: nat, r: SlotRecord)
    requires 0 < j.trackCount && RecordOk(r)
    ensures Honest(j, SlotEvents(j, slot, before, r), before)
  {
    hide Count, Percent, FluxOf;
    var es := SlotEvents(j, slot, before, r);
    if r.Written? {
      assert es[..4] == es[..2] + [es[2]] + [es[3]];
      CountAppend(es[..2] + [es[2]], [es[3]], IsCompletedWrite);
      CountAppend(es[..2], [es[2]], IsCompletedWrite);
      CountNone(es[..2], IsCompletedWrite);
      CountSingle(es[2], IsCompletedWrite);
      CountSingle(es[3], IsCompletedWrite);
    }
  }

  lemma {:induction false} BodyHonest(j: Job, rs: seq<SlotRecord>)
    requires 0 < j.trackCount && RecordsOk(j, rs)
    ensures Honest(j, Body(j, rs), 0) && Made(Body(j, rs)) == WrittenIn(rs)
    decreases |rs|
  {
    hide SlotEvents, Slots, RecordOk, Percent, Count;
    BodyWrites(j, rs);
    if rs != [] {
      var n := |rs| - 1;
      BodyHonest(j, rs[..n]);
      SlotHonest(j, Slots(j.populated, MAX_SLOTS)[n], WrittenIn(rs[..n]), rs[n]);
      HonestAppend(j, Body(j, rs[..n]), SlotEvents(j, Slots(j.populated, MAX_SLOTS)[n], WrittenIn(rs[..n]), rs[n]), 0);
    }
  }

  lemma OpeningHonest(j: Job, m: MotorOutcome)
    requires 0 < j.trackCount
    ensures Honest(j, Opening(m) + [Progress(0)], 0) && Made(Opening(m) + [Progress(0)]) == 0
  {
    hide Count;
    var es := Opening(m) + [Progress(0)];
    CountNone(es, IsCompletedWrite);
    CountNone(es[..3], IsCompletedWrite);
  }

  /** Until the motor stops, every progress report of a run is the whole percentage of the image's
      tracks that have been written, and at most 100. */
  lemma ProgressIsShare(j: Job, run: Run, i: nat)
    requires RunOk(j, run) && (run.Failed? || run.Cancelled? || run.Completed?)
    requires i < |LogOf(j, run)| && LogOf(j, run)[i].Progress? && MotorOff !in LogOf(j, run)[..i]
    ensures var p, written := LogOf(j, run)[i].percent, Made(LogOf(j, run)[..i]);
      if j.trackCount <= written then p == 100
      else p * j.trackCount <= 100 * written < (p + 1) * j.trackCount
  {
    hide Body, Slots, RecordOk, Passed, Opening, Ending, Honest, Made, Percent, WrittenIn, SkippedIn;
    var a, b := Opening(run.motor) + [Progress(0)], Body(j, run.records);
    WalkParts(j, run);
    BodyHonest(j, run.records);
    OpeningHonest(j, run.motor);
    HonestAppend(j, a, b, 0);
    var log := LogOf(j, run);
    assert log == a + b + Ending(run);
    hide LogOf;
    if i < |a + b| {
      assert log[..i] == (a + b)[..i] && log[i] == (a + b)[i];
      HonestAt(j, a + b, i);
      PercentIsFloor(j, Made((a + b)[..i]));
    } else {
      MotorStopsFirst(a + b, run, i);
      assert false;
    }
  }

  lemma WalkParts(j: Job, run: Run)
    requires RunOk(j, run) && (run.Failed? || run.Cancelled? || run.Completed?)
    ensures RecordsOk(j, run.records) && 0 < j.trackCount && MotorOk(run.motor)
    ensures LogOf(j, run) == Opening(run.motor) + [Progress(0)] + Body(j, run.records) + Ending(run)
  {
    hide Body, Slots, RecordOk, Opening, WrittenIn, SkippedIn;
  }

  lemma HonestAt(j: Job, es: seq<Event>, i: nat)
    requires 0 < j.trackCount && Honest(j, es, 0) && i < |es| && es[i].Progress?
    ensures es[i].percent == Percent(j, Made(es[..i]))
  {
    hide Made, Percent;
    assert es[i].percent == Percent(j, 0 + Made(es[..i]));
  }

  lemma MotorStopsFirst(before: seq<Event>, run: Run, i: nat)
    requires run.Failed? || run.Cancelled? || run.Completed?
    requires run.Failed? ==> run.records != []
    requires |before| <= i < |before + Ending(run)| && (before + Ending(run))[i].Progress?
    ensures MotorOff in (before + Ending(run))[..i]
  {
    hide WrittenIn, SkippedIn;
    assert run.Completed? && Ending(run)[0] == MotorOff;
    assert (before + Ending(run))[..i][|before|] == MotorOff;
  }

  lemma PercentIsFloor(j: Job, written: nat)
    requires 0 < j.trackCount
    ensures var p := Percent(j, written);
      if j.trackCount <= written then p == 100 else p * j.trackCount <= 100 * written < (p + 1) * j.trackCount
  {
    var d, q := j.trackCount, written * 100 / j.trackCount;
    Floor(written * 100, d);
    if d <= written {
      TimesMonotone(100, q, d, written * 100);
    } else {
      Below(q, d, written * 100);
    }
  }

  lemma Floor(x: nat, d: nat)
    requires 0 < d
    ensures x / d * d <= x < (x / d + 1) * d
  {
  }

  lemma TimesMonotone(k: nat, q: nat, d: nat, x: nat)
    requires k * d <= x < (q + 1) * d
    ensures k <= q
  {
    assert k <= q || (q + 1) * d <= k * d;
  }

  lemma Below(q: nat, d: nat, x: nat)
    requires q * d <= x < 100 * d
    ensures q <= 100
  {
    assert q <= 100 || 100 * d <= q * d;
  }
}
