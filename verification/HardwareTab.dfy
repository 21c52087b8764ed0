/** The hardware tab: one provider at a time is connected, wired to the capability buttons, used
    through them, and destroyed. */
module HardwareTab {
  import opened Outcomes

  datatype Controller = Greaseweazle | Scp | KryoFlux | FluxEngine | FC5025 | XUM1541 | Applesauce | AdfCopy | UsbFloppy

  datatype Capability = Recalibrates | DetectsDrive | ControlsMotor | MeasuresRPM | ReadsRawFlux | SeeksHead

  datatype Button = Calibrate | Detect | MotorOff | MotorOn | RPMTest | ReadTest | SeekTest

  function Needs(b: Button): Capability {
    match b
    case Calibrate => Recalibrates
    case Detect => DetectsDrive
    case MotorOff => ControlsMotor
    case MotorOn => ControlsMotor
    case RPMTest => MeasuresRPM
    case ReadTest => ReadsRawFlux
    case SeekTest => SeeksHead
  }

  /** The order in which the buttons are wired. */
  function Rank(b: Button): nat {
    match b
    case Calibrate => 0
    case Detect => 1
    case MotorOff => 2
    case MotorOn => 3
    case RPMTest => 4
    case ReadTest => 5
    case SeekTest => 6
  }

  lemma RankInjective(a: Button, b: Button)
    ensures Rank(a) == Rank(b) ==> a == b
  {
  }

  /** A provider object; `id` tells objects apart over the tab's life. */
  datatype Provider = NoProvider | Provider(id: nat, kind: Controller)

  // ---------- What happens to provider objects ----------

  datatype Command =
    | Create(id: nat)
    | SetMotor(id: nat, on: bool)
    | Report(id: nat, outcome: MotorOutcome)
    | Operate(id: nat)
    | Destroy(id: nat)

  function NextLive(live: set<nat>, c: Command): set<nat> {
    match c
    case Create(id) => live + {id}
    case Destroy(id) => live - {id}
    case _ => live
  }

  function LiveAfter(log: seq<Command>): set<nat> {
    if log == [] then {} else NextLive(LiveAfter(log[..|log| - 1]), log[|log| - 1])
  }

  function NextSpinning(spinning: set<nat>, c: Command): set<nat> {
    match c
    case SetMotor(id, on) => if on then spinning else spinning - {id}
    case Report(id, o) =>
      if o.MotorRunning? then spinning + {id}
      else if o.MotorStopped? || o.MotorStalled? then spinning - {id}
      else spinning
    case Destroy(id) => spinning - {id}
    case _ => spinning
  }

  /** The providers whose motor was last reported running and has not been told to stop since. */
  function Spinning(log: seq<Command>): set<nat> {
    if log == [] then {} else NextSpinning(Spinning(log[..|log| - 1]), log[|log| - 1])
  }

  /** A provider is created once, used only while it lives, and destroyed only at rest. */
  predicate Proper(before: seq<Command>, c: Command) {
    match c
    case Create(id) => forall i | 0 <= i < |before| :: before[i].id != id
    case Destroy(id) => id in LiveAfter(before) && id !in Spinning(before)
    case _ => c.id in LiveAfter(before)
  }

  predicate AllProper(log: seq<Command>) {
    forall i | 0 <= i < |log| :: Proper(log[..i], log[i])
  }

  lemma ProperGrows(log: seq<Command>, c: Command)
    requires AllProper(log) && Proper(log, c)
    ensures AllProper(log + [c])
    ensures LiveAfter(log + [c]) == NextLive(LiveAfter(log), c)
    ensures Spinning(log + [c]) == NextSpinning(Spinning(log), c)
  {
    hide Proper;
    var more := log + [c];
    assert more[..|log|] == log;
    forall i | 0 <= i < |more| ensures Proper(more[..i], more[i]) {
      if i < |log| { assert more[..i] == log[..i]; }
    }
  }

  /** The last report on a provider's motor says that it runs. */
  ghost predicate SaysRunning(log: seq<Command>, id: nat) {
    exists i | 0 <= i < |log| ::
      log[i] == Report(id, MotorRunning) && forall k | i < k < |log| :: !(log[k].Report? && log[k].id == id)
  }

  /** A command that is no report on the motor changes nothing about the last report; a report is it. */
  lemma ReportAdded(log: seq<Command>, c: Command, id: nat)
    ensures SaysRunning(log + [c], id) <==>
      if c.Report? && c.id == id then c.outcome.MotorRunning? else SaysRunning(log, id)
  {
    var more := log + [c];
    if c.Report? && c.id == id {
      assert more[|log|] == c;
      if SaysRunning(more, id) {
        var i :| 0 <= i < |more| && more[i] == Report(id, MotorRunning)
          && forall k | i < k < |more| :: !(more[k].Report? && more[k].id == id);
        assert i == |log|;
      }
    } else {
      if SaysRunning(log, id) {
        var i :| 0 <= i < |log| && log[i] == Report(id, MotorRunning)
          && forall k | i < k < |log| :: !(log[k].Report? && log[k].id == id);
        assert more[i] == Report(id, MotorRunning);
      }
      if SaysRunning(more, id) {
        var i :| 0 <= i < |more| && more[i] == Report(id, MotorRunning)
          && forall k | i < k < |more| :: !(more[k].Report? && more[k].id == id);
        assert i < |log| && log[i] == more[i];
        assert forall k | i < k < |log| :: log[k] == more[k];
      }
    }
  }

  lemma FreshIsSilent(log: seq<Command>, id: nat)
    requires forall i | 0 <= i < |log| :: log[i].id < id
    ensures !SaysRunning(log, id)
  {
  }

  // ---------- The tab as a state machine ----------

  datatype Event =
    | ConnectClicked(portChosen: bool, known: bool, kind: Controller, opens: bool)
    | ButtonClicked(button: Button)
    | TimerFired
    | ModeChanged(auto: bool)

  /** What the hardware answers to an event's operation: for the motor buttons an outcome, for any
      other operation whether the device turned out to be gone. */
  datatype Answer = Answer(motor: MotorOutcome, gone: bool)

  const NOTHING := Answer(MotorPolicy, false)

  /** The tab's state without the buttons, which follow from it. */
  datatype Snapshot = Snapshot(provider: Provider, connected: bool, running: bool, auto: bool, timers: nat, nextId: nat,
                               log: seq<Command>)
  {
    function Sending(c: Command): Snapshot { this.(log := log + [c]) }

    /** Gone: the motor is told to stop if it runs, then the provider is destroyed. */
    function Disconnected(): Snapshot {
      this.(provider := NoProvider, connected := false, running := false,
            log := log + (if running && provider.Provider? then [SetMotor(provider.id, false)] else [])
                       + (if provider.Provider? then [Destroy(provider.id)] else []))
    }

    /** A new provider of the given kind. */
    function Connected(kind: Controller): Snapshot {
      this.(provider := Provider(nextId, kind), connected := true, nextId := nextId + 1, log := log + [Create(nextId)])
    }

    function AfterMotor(o: MotorOutcome): Snapshot {
      if provider.NoProvider? then this
      else
        match o
        case MotorRunning => Sending(Report(provider.id, o)).(running := true)
        case MotorStopped => Sending(Report(provider.id, o)).(running := false)
        case MotorStalled => Sending(Report(provider.id, o)).(running := false)
        case MotorDisconnected => Disconnected()
        case _ => this
    }

    function AfterOperation(gone: bool): Snapshot {
      if provider.NoProvider? then this
      else if gone then Sending(Operate(provider.id)).Disconnected() else Sending(Operate(provider.id))
    }
  }

  // ---------- The tab ----------

  class HardwareTab {
    const capabilities: Controller -> set<Capability>
    const hasHal: bool
    var provider: Provider
    var connected: bool
    var motorRunning: bool
    var autoDetect: bool
    var handlers: map<Button, seq<nat>>
    var enabled: set<Button>
    var pendingTimers: nat
    var nextId: nat
    var log: seq<Command>

    predicate Can(p: Provider, c: Capability) { p.Provider? && c in capabilities(p.kind) }

    /** Every button carries exactly one handler, for the live provider, when that provider has
        its capability, and none otherwise. */
    predicate Wired()
      reads this
    {
      forall b: Button :: b in handlers && handlers[b] == if Can(provider, Needs(b)) then [provider.id] else []
    }

    ghost predicate Objects()
      reads this`provider, this`log, this`motorRunning, this`nextId
    {
      && AllProper(log)
      && LiveAfter(log) == (if provider.Provider? then {provider.id} else {})
      && Spinning(log) <= (if motorRunning && provider.Provider? then {provider.id} else {})
      && (provider.Provider? ==> provider.id < nextId)
      && (forall i | 0 <= i < |log| :: log[i].id < nextId)
    }

    /** What holds between any two events. */
    ghost predicate Inv()
      reads this
    {
      && Wired()
      && Objects()
      && (provider.Provider? ==> connected)
      && (motorRunning ==> Can(provider, ControlsMotor))
      && (forall b: Button | b != MotorOn && b != MotorOff :: b in enabled <==> Can(provider, Needs(b)))
      && (MotorOn in enabled <==> connected && Can(provider, ControlsMotor) && !motorRunning)
      && (MotorOff in enabled <==> connected && Can(provider, ControlsMotor) && motorRunning)
    }

    function Now(): Snapshot
      reads this
    {
      Snapshot(provider, connected, motorRunning, autoDetect, pendingTimers, nextId, log)
    }

    /** Whether a button reacts to a click. */
    predicate Enabled(s: Snapshot, b: Button) {
      && Can(s.provider, Needs(b))
      && (b == MotorOn ==> s.connected && !s.running)
      && (b == MotorOff ==> s.connected && s.running)
    }

    function Probed(s: Snapshot, a: Answer): Snapshot {
      if s.connected && Can(s.provider, DetectsDrive) then s.AfterOperation(a.gone) else s
    }

    /** The state after an event, given the hardware's answer. */
    function Next(s: Snapshot, e: Event, a: Answer): Snapshot {
      match e
      case ConnectClicked(portChosen, known, kind, opens) =>
        if s.connected then s.Disconnected()
        else if !portChosen || !known then s
        else if kind != Greaseweazle then s.Connected(kind)
        else if !hasHal then s.(timers := s.timers + 1)
        else if !opens then s
        else if s.auto then Probed(s.Connected(kind), a) else s.Connected(kind)
      case ButtonClicked(b) =>
        if !Enabled(s, b) || s.provider.NoProvider? then s
        else if b == MotorOn || b == MotorOff then s.Sending(SetMotor(s.provider.id, b == MotorOn)).AfterMotor(a.motor)
        else s.AfterOperation(a.gone)
      case TimerFired => if s.timers > 0 then s.(timers := s.timers - 1, connected := true) else s
      case ModeChanged(auto) => if auto then Probed(s.(auto := true), a) else s.(auto := false)
    }

    function NextAll(s: Snapshot, events: seq<Event>, answers: seq<Answer>): Snapshot
      requires |answers| == |events|
    {
      if events == [] then s
      else
        var n := |events| - 1;
        Next(NextAll(s, events[..n], answers[..n]), events[n], answers[n])
    }

    /** Nothing that was sent is ever taken back. */
    lemma {:induction false} LogGrows(s: Snapshot, events: seq<Event>, answers: seq<Answer>)
      requires |answers| == |events|
      ensures s.log <= NextAll(s, events, answers).log
      decreases |events|
    {
      if events != [] {
        var n := |events| - 1;
        LogGrows(s, events[..n], answers[..n]);
        hide Next;
        StepGrows(NextAll(s, events[..n], answers[..n]), events[n], answers[n]);
      }
    }

    lemma StepGrows(s: Snapshot, e: Event, a: Answer)
      ensures s.log <= Next(s, e, a).log
    {
    }

    // ----- what the state machine does, over whole sessions -----

    /** States that sessions reach: the motor flag is up exactly when the last report on the live
        provider's motor says that it runs. */
    ghost predicate Sound(s: Snapshot) {
      && (forall i | 0 <= i < |s.log| :: s.log[i].id < s.nextId)
      && (s.provider.Provider? ==> s.connected && s.provider.id < s.nextId)
      && (s.running <==> s.provider.Provider? && SaysRunning(s.log, s.provider.id))
      && (s.running ==> Can(s.provider, ControlsMotor))
    }

    lemma ConnectKeepsFlag(s: Snapshot, kind: Controller, a: Answer)
      requires Sound(s) && !s.connected
      ensures Sound(s.Connected(kind)) && Sound(Probed(s.Connected(kind), a))
    {
      hide SaysRunning;
      var id := s.nextId;
      FreshIsSilent(s.log, id);
      ReportAdded(s.log, Create(id), id);
      ReportAdded(s.log + [Create(id)], Operate(id), id);
    }

    lemma ProbeKeepsFlag(s: Snapshot, a: Answer)
      requires Sound(s)
      ensures Sound(Probed(s, a))
      ensures s.provider.Provider? ==> Sound(s.AfterOperation(a.gone))
    {
      hide SaysRunning;
      if s.provider.Provider? { ReportAdded(s.log, Operate(s.provider.id), s.provider.id); }
    }

    lemma MotorKeepsFlag(s: Snapshot, on: bool, o: MotorOutcome)
      requires Sound(s) && Can(s.provider, ControlsMotor)
      ensures Sound(s.Sending(SetMotor(s.provider.id, on)).AfterMotor(o))
    {
      hide SaysRunning;
      var id := s.provider.id;
      ReportAdded(s.log, SetMotor(id, on), id);
      ReportAdded(s.log + [SetMotor(id, on)], Report(id, o), id);
    }

    /** Every step keeps the motor flag equal to the last report. */
    lemma FlagIsLastReport(s: Snapshot, e: Event, a: Answer)
      requires Sound(s)
      ensures Sound(Next(s, e, a))
    {
      hide SaysRunning, Probed, Snapshot.AfterMotor, Snapshot.AfterOperation;
      match e
      case ConnectClicked(portChosen, known, kind, opens) =>
        if !s.connected { ConnectKeepsFlag(s, kind, a); }
      case ButtonClicked(b) =>
        if Enabled(s, b) {
          ProbeKeepsFlag(s, a);
          if b == MotorOn || b == MotorOff { MotorKeepsFlag(s, b == MotorOn, a.motor); }
        }
      case TimerFired =>
      case ModeChanged(auto) => ProbeKeepsFlag(s.(auto := auto), a);
    }

    /** Over every session the flag says what the hardware said last, in both directions. */
    lemma {:induction false} SessionFlag(s: Snapshot, events: seq<Event>, answers: seq<Answer>)
      requires |answers| == |events| && Sound(s)
      ensures Sound(NextAll(s, events, answers))
      decreases |events|
    {
      if events != [] {
        var n := |events| - 1;
        SessionFlag(s, events[..n], answers[..n]);
        FlagIsLastReport(NextAll(s, events[..n], answers[..n]), events[n], answers[n]);
      }
    }

    /** Which button needs which capability, and the two motor buttons the motor's state too. */
    lemma ButtonsNeed(s: Snapshot)
      ensures Enabled(s, Calibrate) <==> Can(s.provider, Recalibrates)
      ensures Enabled(s, Detect) <==> Can(s.provider, DetectsDrive)
      ensures Enabled(s, RPMTest) <==> Can(s.provider, MeasuresRPM)
      ensures Enabled(s, ReadTest) <==> Can(s.provider, ReadsRawFlux)
      ensures Enabled(s, SeekTest) <==> Can(s.provider, SeeksHead)
      ensures Enabled(s, MotorOn) <==> Can(s.provider, ControlsMotor) && s.connected && !s.running
      ensures Enabled(s, MotorOff) <==> Can(s.provider, ControlsMotor) && s.connected && s.running
    {
    }

    /** A click on a motor button that is on: the command goes out, and the answer decides which of
        the two buttons is on next; a lost device leaves neither. */
    lemma MotorClick(s: Snapshot, b: Button, a: Answer)
      requires Sound(s) && (b == MotorOn || b == MotorOff) && Enabled(s, b)
      ensures var n := Next(s, ButtonClicked(b), a);
        && s.log + [SetMotor(s.provider.id, b == MotorOn)] <= n.log
        && (a.motor.MotorRunning? ==> Enabled(n, MotorOff) && !Enabled(n, MotorOn))
        && (a.motor.MotorStopped? || a.motor.MotorStalled? ==> Enabled(n, MotorOn) && !Enabled(n, MotorOff))
        && (a.motor.MotorPolicy? || a.motor.MotorError? ==> n.provider == s.provider && n.running == s.running)
        && (a.motor.MotorDisconnected? ==> n.provider == NoProvider && !n.connected && !n.running)
    {
    }

    /** A click on any other button that is on: one operation, after which a lost device is gone and
        any other stays as it is. */
    lemma OperationClick(s: Snapshot, b: Button, a: Answer)
      requires Sound(s) && b != MotorOn && b != MotorOff && Enabled(s, b)
      ensures var n, sent := Next(s, ButtonClicked(b), a), s.log + [Operate(s.provider.id)];
        if a.gone then
          && n.provider == NoProvider && !n.connected && !n.running
          && n.log == sent + (if s.running then [SetMotor(s.provider.id, false)] else []) + [Destroy(s.provider.id)]
        else n == s.(log := sent)
    {
    }

    /** Connecting: an open connection is closed; otherwise a new provider of the chosen kind appears
        exactly when a port is chosen and the kind is known and can be opened, and a Greaseweazle
        without driver library starts a timer instead. */
    lemma ConnectClick(s: Snapshot, portChosen: bool, known: bool, kind: Controller, opens: bool, a: Answer)
      requires Sound(s)
      ensures var n := Next(s, ConnectClicked(portChosen, known, kind, opens), a);
        && (s.connected ==>
              && n.provider == NoProvider && !n.connected && !n.running && n.timers == s.timers
              && n.log == s.log + (if s.running then [SetMotor(s.provider.id, false)] else [])
                                + (if s.provider.Provider? then [Destroy(s.provider.id)] else []))
        && (!s.connected && portChosen && known && kind == Greaseweazle && !hasHal ==> n == s.(timers := s.timers + 1))
        && (!s.connected && !(portChosen && known && (kind != Greaseweazle || (hasHal && opens))) ==>
              n.provider == NoProvider && n.log == s.log && !n.connected)
        && (!s.connected && portChosen && known && (kind != Greaseweazle || (hasHal && opens)) ==>
              NewProvider(s, kind, kind == Greaseweazle && s.auto, a.gone, n))
    {
    }

    /** The new provider is there, connected and at rest, after one probe if it is to be probed and
        can be; when the probe finds it gone, it is destroyed again. */
    predicate NewProvider(s: Snapshot, kind: Controller, probe: bool, gone: bool, n: Snapshot) {
      var probed := probe && DetectsDrive in capabilities(kind);
      && n.log == s.log + [Create(s.nextId)] + (if probed then [Operate(s.nextId)] else [])
                        + (if probed && gone then [Destroy(s.nextId)] else [])
      && n.nextId == s.nextId + 1 && !n.running && n.timers == s.timers
      && if probed && gone then n.provider == NoProvider && !n.connected
         else n.provider == Provider(s.nextId, kind) && n.connected
    }

    /** The timer sets the connection flag and nothing else; switching to automatic detection probes
        a connected provider that can be probed. */
    lemma OtherEvents(s: Snapshot, auto: bool, a: Answer)
      requires Sound(s)
      ensures Next(s, TimerFired, a) == if s.timers == 0 then s else s.(timers := s.timers - 1, connected := true)
      ensures var n := Next(s, ModeChanged(auto), a);
        && n.auto == auto
        && (!auto || !Can(s.provider, DetectsDrive) ==> n == s.(auto := auto))
        && (auto && Can(s.provider, DetectsDrive) ==>
              && s.log + [Operate(s.provider.id)] <= n.log
              && n.provider == if a.gone then NoProvider else s.provider)
    {
    }

    constructor (capabilities: Controller -> set<Capability>, hasHal: bool)
      ensures Inv() && !connected && provider == NoProvider && log == [] && Sound(Now())
    {
      this.capabilities, this.hasHal := capabilities, hasHal;
      provider, connected, motorRunning, autoDetect := NoProvider, false, false, true;
      handlers, enabled := map[], {};
      pendingTimers, nextId, log := 0, 0, [];
      new;
      Rewire();
      SetConnectionState(false);
    }

    // ----- wiring -----

    /** Re-wiring: strip every button, then disable all of them or wire each against the
        connected provider. */
    method Rewire()
      modifies this`handlers, this`enabled
      ensures Wired()
      ensures forall b: Button :: b in enabled <==> Can(provider, Needs(b))
    {
      StripAll();
      if provider.NoProvider? {
        enabled := enabled - {Calibrate, Detect, MotorOff, MotorOn, RPMTest, ReadTest, SeekTest};
      } else {
        WireAll();
      }
    }

    method StripAll()
      modifies this`handlers
      ensures forall b: Button :: b in handlers && handlers[b] == []
    {
      handlers := handlers[Calibrate := []];
      handlers := handlers[Detect := []];
      handlers := handlers[MotorOff := []];
      handlers := handlers[MotorOn := []];
      handlers := handlers[RPMTest := []];
      handlers := handlers[ReadTest := []];
      handlers := handlers[SeekTest := []];
      forall b: Button ensures b in handlers && handlers[b] == [] { OneOfSeven(b); }
    }

    method WireAll()
      requires provider.Provider? && forall b: Button :: b in handlers && handlers[b] == []
      modifies this`handlers, this`enabled
      ensures Wired()
      ensures forall b: Button :: b in enabled <==> Can(provider, Needs(b))
    {
      assert WiredSoFar(0);
      CallWireActions();
      assert forall b: Button :: Rank(b) < 7;
    }

    method CallWireActions()
      requires provider.Provider? && WiredSoFar(0)
      modifies this`handlers, this`enabled
      ensures WiredSoFar(7)
    {
      hide WiredSoFar;
      WireAction(Calibrate);
      WireAction(Detect);
      WireAction(MotorOff);
      WireAction(MotorOn);
      WireAction(RPMTest);
      WireAction(ReadTest);
      WireAction(SeekTest);
    }

    /** The first `n` buttons are wired, the others stripped. */
    ghost predicate WiredSoFar(n: nat)
      reads this`provider, this`handlers, this`enabled
    {
      forall b: Button ::
        b in handlers && if Rank(b) < n then WiredAt(provider, handlers, enabled, b) else handlers[b] == []
    }

    /** One button, wired as its provider's capabilities say. */
    predicate WiredAt(p: Provider, hs: map<Button, seq<nat>>, on: set<Button>, b: Button) {
      && b in hs
      && hs[b] == (if Can(p, Needs(b)) then [p.id] else [])
      && (b in on <==> Can(p, Needs(b)))
    }

    /** Enable and connect when the capability is there, disable otherwise. */
    method WireAction(b: Button)
      requires provider.Provider? && WiredSoFar(Rank(b))
      modifies this`handlers, this`enabled
      ensures WiredSoFar(Rank(b) + 1)
    {
      forall c: Button ensures Rank(c) == Rank(b) ==> c == b { RankInjective(c, b); }
      if Needs(b) in capabilities(provider.kind) {
        enabled := enabled + {b};
        handlers := handlers[b := handlers[b] + [provider.id]];
      } else {
        enabled := enabled - {b};
      }
    }

    // ----- state shown -----

    method UpdateMotorControls()
      modifies this`enabled
      ensures forall b: Button | b != MotorOn && b != MotorOff :: b in enabled <==> b in old(enabled)
      ensures MotorOn in enabled <==> connected && Can(provider, ControlsMotor) && !motorRunning
      ensures MotorOff in enabled <==> connected && Can(provider, ControlsMotor) && motorRunning
    {
      var hasMotor := connected && provider.Provider? && ControlsMotor in capabilities(provider.kind);
      enabled := if hasMotor && !motorRunning then enabled + {MotorOn} else enabled - {MotorOn};
      enabled := if hasMotor && motorRunning then enabled + {MotorOff} else enabled - {MotorOff};
    }

    method SetConnectionState(now: bool)
      modifies this`connected, this`enabled
      ensures connected == now
      ensures forall b: Button | b != MotorOn && b != MotorOff :: b in enabled <==> b in old(enabled)
      ensures MotorOn in enabled <==> connected && Can(provider, ControlsMotor) && !motorRunning
      ensures MotorOff in enabled <==> connected && Can(provider, ControlsMotor) && motorRunning
    {
      connected := now;
      UpdateMotorControls();
    }

    // ----- provider objects -----

    method Record(c: Command)
      requires AllProper(log) && Proper(log, c)
      modifies this`log
      ensures AllProper(log) && log == old(log) + [c] && old(log) <= log
      ensures LiveAfter(log) == NextLive(old(LiveAfter(log)), c)
      ensures Spinning(log) == NextSpinning(old(Spinning(log)), c)
    {
      ProperGrows(log, c);
      log := log + [c];
    }

    /** Assigning the variant: the provider held before, if any, is destroyed. */
    method Assign(p: Provider)
      requires Objects() && !motorRunning && (p.Provider? ==> p.id == nextId)
      modifies this`provider, this`log, this`nextId
      ensures Objects() && provider == p && nextId == old(nextId) + (if p.Provider? then 1 else 0)
      ensures log == old(log) + (if p.Provider? then [Create(p.id)] else [])
                     + (if old(provider).Provider? then [Destroy(old(provider).id)] else [])
      ensures old(log) <= log
    {
      hide AllProper, LiveAfter, Spinning;
      if p.Provider? {
        Record(Create(p.id));
        nextId := nextId + 1;
      }
      if provider.Provider? {
        Record(Destroy(provider.id));
      }
      provider := p;
    }

    method IssueMotorOffIfRunning()
      requires Objects() && (motorRunning ==> Can(provider, ControlsMotor))
      modifies this`log, this`motorRunning
      ensures Objects() && !motorRunning
      ensures log == old(log) + if old(motorRunning) then [SetMotor(provider.id, false)] else []
      ensures old(log) <= log
    {
      hide AllProper, LiveAfter, Spinning;
      if !motorRunning { return; }
      if provider.Provider? && ControlsMotor in capabilities(provider.kind) {
        Record(SetMotor(provider.id, false));
      }
      motorRunning := false;
    }

    // ----- events -----

    /** Disconnecting stops a running motor first, then destroys the provider. */
    method OnDisconnect()
      requires Inv()
      modifies this`provider, this`connected, this`motorRunning, this`handlers, this`enabled, this`log, this`nextId
      ensures Inv() && Now() == old(Now()).Disconnected()
    {
      hide AllProper, LiveAfter, Spinning, Objects;
      IssueMotorOffIfRunning();
      Assign(NoProvider);
      Rewire();
      connected := false;
      SetConnectionState(false);
    }

    method ShowHardwareDisconnected()
      requires Inv()
      modifies this`provider, this`connected, this`motorRunning, this`handlers, this`enabled, this`log, this`nextId
      ensures Inv() && Now() == old(Now()).Disconnected()
    {
      hide AllProper, LiveAfter, Spinning;
      if connected {
        OnDisconnect();
      } else {
        Assign(NoProvider);
        Rewire();
      }
    }

    /** The detection probe: the drive's answer may be that the hardware is gone. */
    method RunDetectProbe() returns (ghost a: Answer)
      requires Inv()
      modifies this`provider, this`connected, this`motorRunning, this`handlers, this`enabled, this`log, this`nextId
      ensures Inv() && Now() == Probed(old(Now()), a)
    {
      hide AllProper, LiveAfter, Spinning;
      a := NOTHING;
      if !connected { return; }
      if provider.Provider? && DetectsDrive in capabilities(provider.kind) {
        Record(Operate(provider.id));
        var gone := *;
        a := NOTHING.(gone := gone);
        if gone { ShowHardwareDisconnected(); }
      }
    }

    /** Connecting.  `known` is false for a key without provider, `opens` the answer of the
        Greaseweazle's open call. */
    method OnConnect(portChosen: bool, known: bool, kind: Controller, opens: bool) returns (ghost a: Answer)
      requires Inv() && !connected
      modifies this
      ensures Inv() && Now() == Next(old(Now()), ConnectClicked(portChosen, known, kind, opens), a)
    {
      hide AllProper, LiveAfter, Spinning;
      a := NOTHING;
      if !portChosen { return; }
      if !known { return; }
      if kind != Greaseweazle {
        Connect(kind);
        return;
      }
      if hasHal {
        if opens {
          Connect(kind);
          if autoDetect { a := RunDetectProbe(); }
        }
        return;
      }
      pendingTimers := pendingTimers + 1;
    }

    method Connect(kind: Controller)
      requires Inv() && !connected
      modifies this
      ensures Inv() && Now() == old(Now()).Connected(kind)
    {
      hide AllProper, LiveAfter, Spinning;
      Assign(Provider(nextId, kind));
      Rewire();
      connected := true;
      SetConnectionState(true);
    }

    method ClickConnect(portChosen: bool, known: bool, kind: Controller, opens: bool) returns (ghost a: Answer)
      requires Inv()
      modifies this
      ensures Inv() && Now() == Next(old(Now()), ConnectClicked(portChosen, known, kind, opens), a)
    {
      a := NOTHING;
      if connected { OnDisconnect(); } else { a := OnConnect(portChosen, known, kind, opens); }
    }

    /** The timer of a simulated connection, which has no provider of its own. */
    method SimulatedConnection()
      requires Inv() && 0 < pendingTimers
      modifies this
      ensures Inv() && Now() == old(Now()).(timers := old(pendingTimers) - 1, connected := true)
    {
      hide AllProper, LiveAfter, Spinning;
      pendingTimers := pendingTimers - 1;
      connected := true;
      Rewire();
      SetConnectionState(true);
    }

    method OnDetectionModeChanged(auto: bool) returns (ghost a: Answer)
      requires Inv()
      modifies this
      ensures Inv() && Now() == Next(old(Now()), ModeChanged(auto), a)
    {
      hide AllProper, LiveAfter, Spinning;
      a := NOTHING;
      autoDetect := auto;
      if autoDetect { a := RunDetectProbe(); }
    }

    /** A click runs the handlers of an enabled button. */
    method ClickButton(b: Button) returns (ghost a: Answer)
      requires Inv()
      modifies this
      ensures Inv() && Now() == Next(old(Now()), ButtonClicked(b), a)
      ensures old(b in enabled) && (b == MotorOn || b == MotorOff) ==>
        match a.motor
        case MotorRunning => MotorOff in enabled && MotorOn !in enabled
        case MotorStopped => MotorOn in enabled && MotorOff !in enabled
        case MotorStalled => MotorOn in enabled && MotorOff !in enabled
        case MotorDisconnected => MotorOn !in enabled && MotorOff !in enabled
        case _ => b in enabled
    {
      hide AllProper, LiveAfter, Spinning;
      a := NOTHING;
      if b !in enabled { return; }
      var ids := handlers[b];
      assert ids == [provider.id];
      var i := 0;
      while i < |ids|
        invariant 0 <= i <= |ids| && Inv()
        invariant i == 0 ==> unchanged(this)
        invariant i == 1 ==> Now() == Next(old(Now()), ButtonClicked(b), a)
      {
        a := InvokeHandler(b, ids[i]);
        i := i + 1;
      }
    }

    /** The wired operation on the captured provider, and the reaction to its outcome. */
    method InvokeHandler(b: Button, id: nat) returns (ghost a: Answer)
      requires Inv() && provider.Provider? && provider.id == id && Enabled(Now(), b)
      modifies this
      ensures Inv() && Now() == Next(old(Now()), ButtonClicked(b), a)
    {
      hide AllProper, LiveAfter, Spinning;
      if b == MotorOn || b == MotorOff {
        Record(SetMotor(id, b == MotorOn));
        var outcome: MotorOutcome := *;
        a := NOTHING.(motor := outcome);
        OnMotorOutcome(id, outcome);
      } else {
        Record(Operate(id));
        var gone := *;
        a := NOTHING.(gone := gone);
        if gone { ShowHardwareDisconnected(); }
      }
    }

    method OnMotorOutcome(id: nat, outcome: MotorOutcome)
      requires Inv() && provider.Provider? && provider.id == id && Can(provider, ControlsMotor)
      modifies this
      ensures Inv() && Now() == old(Now()).AfterMotor(outcome)
    {
      hide AllProper, LiveAfter, Spinning;
      match outcome {
        case MotorRunning =>
          Record(Report(id, outcome));
          motorRunning := true;
          UpdateMotorControls();
        case MotorStopped =>
          Record(Report(id, outcome));
          motorRunning := false;
          UpdateMotorControls();
        case MotorStalled =>
          Record(Report(id, outcome));
          motorRunning := false;
          UpdateMotorControls();
        case MotorDisconnected => ShowHardwareDisconnected();
        case MotorPolicy =>
        case MotorError =>
      }
    }

    /** Any session: whatever events arrive in whatever order, the tab runs its state machine and
        the invariant holds after each. */
    method Session(events: seq<Event>) returns (ghost answers: seq<Answer>)
      requires Inv()
      modifies this
      ensures Inv() && |answers| == |events| && Now() == NextAll(old(Now()), events, answers)
      ensures old(Sound(Now())) ==> Sound(Now())
    {
      hide Next, Inv, Sound;
      answers := [];
      assert events[..0] == [];
      var i := 0;
      while i < |events|
        invariant 0 <= i == |answers| <= |events|
        invariant Inv() && Now() == NextAll(old(Now()), events[..i], answers)
      {
        ghost var a := Handle(events[i]);
        assert events[..i + 1][..i] == events[..i] && (answers + [a])[..i] == answers;
        answers := answers + [a];
        i := i + 1;
      }
      assert events[..|events|] == events;
      if old(Sound(Now())) { SessionFlag(old(Now()), events, answers); }
    }

    method Handle(e: Event) returns (ghost a: Answer)
      requires Inv()
      modifies this
      ensures Inv() && Now() == Next(old(Now()), e, a)
    {
      hide Inv;
      a := NOTHING;
      match e {
        case ConnectClicked(port, known, kind, opens) => a := ClickConnect(port, known, kind, opens);
        case ButtonClicked(b) => a := ClickButton(b);
        case TimerFired => if 0 < pendingTimers { SimulatedConnection(); }
        case ModeChanged(auto) => a := OnDetectionModeChanged(auto);
      }
    }
  }

  lemma OneOfSeven(b: Button)
    ensures || b == Calibrate || b == Detect || b == MotorOff || b == MotorOn
            || b == RPMTest || b == ReadTest || b == SeekTest
  {
    match b
    case Calibrate =>
    case Detect =>
    case MotorOff =>
    case MotorOn =>
    case RPMTest =>
    case ReadTest =>
    case SeekTest =>
  }

  // ---------- What a proper log means ----------

  lemma ProperFront(log: seq<Command>)
    requires log != [] && AllProper(log)
    ensures AllProper(log[..|log| - 1]) && Proper(log[..|log| - 1], log[|log| - 1])
  {
    hide Proper;
    var front := log[..|log| - 1];
    forall i | 0 <= i < |front| ensures Proper(front[..i], front[i]) {
      assert front[..i] == log[..i];
    }
    assert Proper(log[..|log| - 1], log[|log| - 1]);
  }

  predicate Stops(c: Command, id: nat) {
    c == SetMotor(id, false) || (c.Report? && c.id == id && (c.outcome.MotorStopped? || c.outcome.MotorStalled?))
  }

  /** A provider whose motor was reported running keeps spinning until it is told to stop, is
      reported at rest, or is destroyed. */
  lemma {:induction false} StaysSpinning(log: seq<Command>, i: nat, id: nat)
    requires i < |log| && log[i] == Report(id, MotorRunning)
    requires forall k | i < k < |log| :: !Stops(log[k], id) && log[k] != Destroy(id)
    ensures id in Spinning(log)
    decreases |log|
  {
    if i < |log| - 1 {
      StaysSpinning(log[..|log| - 1], i, id);
    }
  }

  /** Motor safety: between a report that a provider's motor runs and that provider's destruction
      there is always a stop command or a report that the motor has stopped. */
  lemma DestroyedAtRest(log: seq<Command>, i: nat, k: nat, id: nat)
    requires AllProper(log) && i < k < |log|
    requires log[i] == Report(id, MotorRunning) && log[k] == Destroy(id)
    ensures exists m :: i < m < k && Stops(log[m], id)
  {
    if forall m | i < m < k :: !Stops(log[m], id) {
      var before := log[..k];
      assert Proper(log[..k], log[k]);
      if m :| i < m < k && log[m] == Destroy(id) {
        GoneForGood(log, m, k, id);
        assert false;
      }
      assert before[i] == log[i];
      StaysSpinning(before, i, id);
      assert false;
    }
  }

  /** A destroyed provider is never used, destroyed or created again. */
  lemma GoneForGood(log: seq<Command>, i: nat, k: nat, id: nat)
    requires AllProper(log) && i < k < |log| && log[i] == Destroy(id)
    ensures log[k].id != id
  {
    assert Proper(log[..k], log[k]);
    var before := log[..k];
    if log[k].Create? {
      assert before[i].id == log[i].id;
    } else {
      ProperPrefix(log, k);
      assert before[i] == log[i];
      DeadAfter(before, i, id);
    }
  }

  lemma ProperPrefix(log: seq<Command>, n: nat)
    requires AllProper(log) && n <= |log|
    ensures AllProper(log[..n])
  {
    hide Proper;
    forall i | 0 <= i < n ensures Proper(log[..n][..i], log[..n][i]) {
      assert log[..n][..i] == log[..i];
    }
  }

  lemma {:induction false} DeadAfter(log: seq<Command>, i: nat, id: nat)
    requires AllProper(log) && i < |log| && log[i] == Destroy(id)
    ensures id !in LiveAfter(log)
    decreases |log|
  {
    if i < |log| - 1 {
      var front := log[..|log| - 1];
      ProperFront(log);
      assert front[i] == log[i];
      DeadAfter(front, i, id);
      var c := log[|log| - 1];
      assert front[i].id == id;
    }
  }
}
