/**
 * The mode state machine (daemon/src/state/machine.rs).
 *
 * The pure rule table (`compute_*`, the rising-edge test) and one step of the
 * machine (`Step`, `Run`) are functions; the `StateMachine` class holds the
 * fields the source assigns in place and its methods are proved to follow
 * those functions. The clock is an injected reading in nanoseconds, and the
 * broadcast sender is an append-only log of every event sent.
 */
module Machine {
  import opened Wrappers
  import opened Num
  import opened Keys
  import opened Events
  import opened Listener

  /** The four modes. `Idle` is the default. */
  datatype State = Idle | DictationActive | IntelligentActive | AgentActive

  /** `impl Display for State`. */
  function StateName(s: State): string {
    match s
    case Idle => "Idle"
    case DictationActive => "DictationActive"
    case IntelligentActive => "IntelligentActive"
    case AgentActive => "AgentActive"
  }

  lemma StateNamesDistinct(a: State, b: State)
    ensures StateName(a) == StateName(b) <==> a == b
  {
  }

  // ---------------------------------------------------------------------------
  // The rule table

  /** Control+Command held now (without Option), and not both held before. */
  predicate IsRisingEdgeControlCommand(prev: ModifierState, m: ModifierState)
    ensures IsRisingEdgeControlCommand(prev, m) ==> m == ModifierState(true, false, true) && m != prev
  {
    IsControlCommand(m) && (!prev.control || !prev.command)
  }

  /** From Idle, by priority: Agent toggle, then Control+Option, then Control alone. */
  function ComputeFromIdle(prev: ModifierState, m: ModifierState): (n: State)
    ensures n == AgentActive <==> IsRisingEdgeControlCommand(prev, m)
    ensures n != Idle ==> m.control && !(m.option && m.command)
  {
    if IsRisingEdgeControlCommand(prev, m) then AgentActive
    else if IsControlOption(m) then IntelligentActive
    else if IsControlOnly(m) then DictationActive
    else Idle
  }

  /** From Dictation: Option added upgrades, Control released ends it. */
  function ComputeFromDictation(m: ModifierState): (n: State)
    ensures n != AgentActive
    ensures n == DictationActive ==> m.control
  {
    if IsControlOption(m) then IntelligentActive
    else if !m.control then Idle
    else DictationActive
  }

  /** From Intelligent: releasing Control or Option ends it. */
  function ComputeFromIntelligent(m: ModifierState): (n: State)
    ensures n != DictationActive && n != AgentActive
  {
    if !m.control || !m.option then Idle else IntelligentActive
  }

  /** From Agent: only a fresh Control+Command press leaves it. */
  function ComputeFromAgent(prev: ModifierState, m: ModifierState): (n: State)
    ensures n != DictationActive && n != IntelligentActive
    ensures n == Idle ==> m == ModifierState(true, false, true)
  {
    if IsRisingEdgeControlCommand(prev, m) then Idle else AgentActive
  }

  /** `compute_next_state`: dispatch on the current mode. */
  function ComputeNextState(s: State, prev: ModifierState, m: ModifierState): (n: State)
    ensures n == AgentActive ==> s == AgentActive || IsRisingEdgeControlCommand(prev, m)
    ensures s == AgentActive && n != AgentActive ==> IsRisingEdgeControlCommand(prev, m)
  {
    match s
    case Idle => ComputeFromIdle(prev, m)
    case DictationActive => ComputeFromDictation(m)
    case IntelligentActive => ComputeFromIntelligent(m)
    case AgentActive => ComputeFromAgent(prev, m)
  }

  /** From Idle the priority is Agent, then Intelligent, then Dictation; all three keys stay Idle. */
  lemma IdleRules(prev: ModifierState, m: ModifierState)
    ensures ComputeNextState(Idle, prev, m) == AgentActive <==> IsRisingEdgeControlCommand(prev, m)
    ensures ComputeNextState(Idle, prev, m) == IntelligentActive <==> IsControlOption(m)
    ensures ComputeNextState(Idle, prev, m) == DictationActive <==> IsControlOnly(m)
    ensures m.control && m.option && m.command ==> ComputeNextState(Idle, prev, m) == Idle
  {
    CombinationsExclusive(m);
  }

  /** From Dictation: Control+Option upgrades, releasing Control ends it, anything else stays. */
  lemma DictationRules(prev: ModifierState, m: ModifierState)
    ensures ComputeNextState(DictationActive, prev, m) != AgentActive
    ensures ComputeNextState(DictationActive, prev, m) == IntelligentActive <==> IsControlOption(m)
    ensures ComputeNextState(DictationActive, prev, m) == Idle <==> !m.control
    ensures IsControlCommand(m) ==> ComputeNextState(DictationActive, prev, m) == DictationActive
  {
  }

  /** From Intelligent the machine goes to Idle exactly when Control or Option is released. */
  lemma IntelligentRules(prev: ModifierState, m: ModifierState)
    ensures ComputeNextState(IntelligentActive, prev, m) in {Idle, IntelligentActive}
    ensures ComputeNextState(IntelligentActive, prev, m) == Idle <==> !m.control || !m.option
    ensures m == ModifierState(true, false, false) ==> ComputeNextState(IntelligentActive, prev, m) == Idle
    ensures m == ModifierState(true, true, true) ==> ComputeNextState(IntelligentActive, prev, m) == IntelligentActive
  {
  }

  /**
   * Agent is a sticky toggle: it is left (for Idle) exactly on a fresh
   * Control+Command press; full release and every other input are ignored.
   */
  lemma AgentSticky(prev: ModifierState, m: ModifierState)
    ensures ComputeNextState(AgentActive, prev, m) in {Idle, AgentActive}
    ensures ComputeNextState(AgentActive, prev, m) == Idle <==>
      m == ModifierState(true, false, true) && !(prev.control && prev.command)
    ensures IsEmpty(m) ==> ComputeNextState(AgentActive, prev, m) == AgentActive
  {
    CombinationsPinTheSnapshot(m);
  }

  /**
   * Every mode change is one of seven edges: Idle to any active mode, Dictation
   * up to Intelligent or back to Idle, and Intelligent or Agent back to Idle.
   */
  lemma TransitionGraph(s: State, prev: ModifierState, m: ModifierState)
    ensures var n := ComputeNextState(s, prev, m);
      n != s ==> s == Idle || n == Idle || (s == DictationActive && n == IntelligentActive)
  {
  }

  /** Dictation and Intelligent are momentary: they last only while their keys are held. */
  lemma MomentaryModesHeld(s: State, prev: ModifierState, m: ModifierState)
    ensures ComputeNextState(s, prev, m) == DictationActive ==> m.control
    ensures ComputeNextState(s, prev, m) == IntelligentActive ==> m.control && m.option
  {
  }

  // ---------------------------------------------------------------------------
  // Events of a transition

  /** Nanoseconds in a millisecond. */
  const NANOS_PER_MILLI: nat := 1_000_000

  /**
   * `state_entered_at.map(|t| t.elapsed().as_millis() as u64).unwrap_or(0)`
   * for the clock reading `now`: whole milliseconds since entry (an `Instant`
   * never reports a negative elapsed time), truncated to `u64`; 0 without an
   * entry time.
   */
  function ElapsedMillis(enteredAt: Option<nat>, now: nat): (d: u64)
    ensures enteredAt.None? ==> d == 0
    ensures enteredAt.Some? && enteredAt.value <= now && (now - enteredAt.value) / NANOS_PER_MILLI < U64_LIMIT
            ==> d == (now - enteredAt.value) / NANOS_PER_MILLI
  {
    match enteredAt
    case None => 0
    case Some(t) => TruncateU64(if now >= t then (now - t) / NANOS_PER_MILLI else 0)
  }

  /** The mode an event starts or ends; the audio events belong to none. */
  function EventMode(e: StateEvent): Option<State> {
    match e
    case DictationStarted => Some(DictationActive)
    case DictationComplete(_) => Some(DictationActive)
    case IntelligentStarted => Some(IntelligentActive)
    case IntelligentRequestComplete(_) => Some(IntelligentActive)
    case AgentModeEntered => Some(AgentActive)
    case AgentModeExited(_) => Some(AgentActive)
    case AudioCaptureStarted => None
    case AudioCaptureStopped => None
  }

  /** `emit_exit_event`: the completion event of a mode, none for Idle. */
  function ExitEvent(s: State, durationMs: u64): (e: Option<StateEvent>)
    ensures e.Some? <==> s != Idle
    ensures e.Some? ==> IsExit(e.value) && Duration(e.value) == Some(durationMs)
    ensures e.Some? ==> EventMode(e.value) == Some(s)
  {
    match s
    case Idle => None
    case DictationActive => Some(DictationComplete(durationMs))
    case IntelligentActive => Some(IntelligentRequestComplete(durationMs))
    case AgentActive => Some(AgentModeExited(durationMs))
  }

  /** `emit_entry_event`: the start event of a mode, none for Idle. */
  function EntryEvent(s: State): (e: Option<StateEvent>)
    ensures e.Some? <==> s != Idle
    ensures e.Some? ==> !IsExit(e.value) && e.value !in {AudioCaptureStarted, AudioCaptureStopped}
    ensures e.Some? ==> EventMode(e.value) == Some(s)
  {
    match s
    case Idle => None
    case DictationActive => Some(DictationStarted)
    case IntelligentActive => Some(IntelligentStarted)
    case AgentActive => Some(AgentModeEntered)
  }

  /** The events an optional event contributes to the log. */
  function Sent(e: Option<StateEvent>): (log: seq<StateEvent>)
    ensures |log| <= 1
    ensures e.None? <==> log == []
    ensures e.Some? ==> log == [e.value]
  {
    match e
    case None => []
    case Some(x) => [x]
  }

  /**
   * `transition_to`'s events: the exit event of `from` before the entry event
   * of `to`. A real change emits one or two events.
   */
  function TransitionEvents(from: State, to: State, durationMs: u64): (log: seq<StateEvent>)
    ensures from != to ==> 1 <= |log| <= 2
    ensures |log| == 2 ==> IsExit(log[0]) && !IsExit(log[1])
    ensures forall e :: e in log && IsExit(e) ==> Duration(e) == Some(durationMs)
    ensures |log| == (if from != Idle then 1 else 0) + (if to != Idle then 1 else 0)
    ensures forall e :: e in log ==> EventMode(e) == Some(if IsExit(e) then from else to)
  {
    Sent(ExitEvent(from, durationMs)) + Sent(EntryEvent(to))
  }

  // ---------------------------------------------------------------------------
  // The machine as a value

  /** The machine's fields other than the sender. */
  datatype Snapshot = Snapshot(state: State, prev: ModifierState, enteredAt: Option<nat>)

  /** An entry time is recorded exactly while the mode is not Idle. */
  predicate Consistent(s: Snapshot) {
    s.enteredAt.Some? <==> s.state != Idle
  }

  /** `StateMachine::new`. */
  function Initial(): (s: Snapshot)
    ensures Consistent(s) && s.state == Idle && IsEmpty(s.prev)
  {
    Snapshot(Idle, Released(), None)
  }

  datatype StepResult = StepResult(next: Snapshot, events: seq<StateEvent>)

  /**
   * `handle_modifier_change` at clock reading `now`: the next mode from the
   * rule table; on a change the transition's events and a fresh entry time;
   * the input is always remembered as the previous snapshot.
   */
  function Step(s: Snapshot, m: ModifierState, now: nat): (r: StepResult)
    ensures r.next.prev == m
    ensures r.next.state == s.state ==> r.events == [] && r.next.enteredAt == s.enteredAt
    ensures r.next.state != s.state ==>
      && 1 <= |r.events| <= 2
      && r.next.enteredAt == (if r.next.state == Idle then None else Some(now))
    ensures Consistent(s) ==> Consistent(r.next)
  {
    var n := ComputeNextState(s.state, s.prev, m);
    if n == s.state then StepResult(s.(prev := m), [])
    else
      StepResult(Snapshot(n, m, if n != Idle then Some(now) else None),
                 TransitionEvents(s.state, n, ElapsedMillis(s.enteredAt, now)))
  }

  /** A hotkey event with the clock reading at which the machine handles it. */
  datatype Input = Input(event: HotkeyEvent, now: nat)

  /** One iteration of `run`: a modifier change is handled, `TapDisabled` is only logged. */
  function Handle(s: Snapshot, input: Input): (r: StepResult)
    ensures input.event.TapDisabled? ==> r == StepResult(s, [])
  {
    match input.event
    case ModifierChanged(m) => Step(s, m, input.now)
    case TapDisabled => StepResult(s, [])
  }

  /** `run`: handle each event in arrival order. */
  function RunAll(s: Snapshot, inputs: seq<Input>): (r: StepResult)
    ensures |r.events| <= 2 * |inputs|
    decreases |inputs|
  {
    if inputs == [] then StepResult(s, [])
    else
      var first := Handle(s, inputs[0]);
      var rest := RunAll(first.next, inputs[1..]);
      StepResult(rest.next, first.events + rest.events)
  }

  /** The entry-time invariant holds after any sequence of inputs. */
  lemma {:induction false} RunKeepsConsistent(s: Snapshot, inputs: seq<Input>)
    requires Consistent(s)
    ensures Consistent(RunAll(s, inputs).next)
    decreases |inputs|
  {
    if inputs != [] {
      RunKeepsConsistent(Handle(s, inputs[0]).next, inputs[1..]);
    }
  }

  /** Run over the concatenation of two input sequences is the second run after the first. */
  lemma {:induction false} RunAppend(s: Snapshot, a: seq<Input>, b: seq<Input>)
    ensures RunAll(s, a + b) ==
      StepResult(RunAll(RunAll(s, a).next, b).next, RunAll(s, a).events + RunAll(RunAll(s, a).next, b).events)
    decreases |a|
  {
    if a != [] {
      var h := Handle(s, a[0]);
      assert (a + b)[0] == a[0];
      assert (a + b)[1..] == a[1..] + b;
      RunAppend(h.next, a[1..], b);
      var r1 := RunAll(h.next, a[1..]);
      var r2 := RunAll(r1.next, b);
      assert h.events + (r1.events + r2.events) == (h.events + r1.events) + r2.events;
    } else {
      assert a + b == b;
    }
  }

  /** `RunSnoc` on the prefixes of one input sequence. */
  lemma RunPrefix(s: Snapshot, inputs: seq<Input>, i: nat)
    requires i < |inputs|
    ensures var r := RunAll(s, inputs[..i]);
      RunAll(s, inputs[..i + 1]).next == Handle(r.next, inputs[i]).next
    ensures var r := RunAll(s, inputs[..i]);
      RunAll(s, inputs[..i + 1]).events == r.events + Handle(r.next, inputs[i]).events
  {
    RunSnoc(s, inputs[..i], inputs[i]);
    assert inputs[..i + 1] == inputs[..i] + [inputs[i]];
  }

  /** Handling one more input after a run. */
  lemma RunSnoc(s: Snapshot, a: seq<Input>, x: Input)
    ensures var r := RunAll(s, a);
      RunAll(s, a + [x]) == StepResult(Handle(r.next, x).next, r.events + Handle(r.next, x).events)
  {
    RunAppend(s, a, [x]);
    assert [x][1..] == [];
  }

  /**
   * Not idempotent under resend: from Intelligent, releasing Option while
   * holding Control goes to Idle, and sending that same snapshot again then
   * enters Dictation. Only the listener's change filter prevents the resend.
   */
  lemma ResendIsNotIgnored(t: nat)
    ensures var controlOnly := ModifierState(true, false, false);
      var s := Snapshot(IntelligentActive, ModifierState(true, true, false), Some(t));
      var once := Step(s, controlOnly, t);
      once.next.state == Idle && Step(once.next, controlOnly, t).next.state == DictationActive
  {
  }

  /** Control, then Control+Option: Dictation is entered and then upgraded. */
  lemma DictationUpgradeScenario(t0: nat, t1: nat)
    requires t0 <= t1
    ensures var r := RunAll(Initial(), [Input(ModifierChanged(ModifierState(true, false, false)), t0),
                                     Input(ModifierChanged(ModifierState(true, true, false)), t1)]);
      r.next.state == IntelligentActive &&
      r.events == [DictationStarted, DictationComplete(TruncateU64((t1 - t0) / NANOS_PER_MILLI)),
                   IntelligentStarted]
  {
    var a := Input(ModifierChanged(ModifierState(true, false, false)), t0);
    var b := Input(ModifierChanged(ModifierState(true, true, false)), t1);
    RunAppend(Initial(), [a], [b]);
    assert [a] + [b] == [a, b];
  }

  /** Control+Command enters Agent; Control alone and then Control+Option leave it there, silently. */
  lemma AgentIgnoresOtherModifiers(t0: nat, t1: nat, t2: nat)
    ensures var s1 := Step(Initial(), ModifierState(true, false, true), t0);
      var s2 := Step(s1.next, ModifierState(true, false, false), t1);
      var s3 := Step(s2.next, ModifierState(true, true, false), t2);
      && s1.next.state == AgentActive && s1.events == [AgentModeEntered]
      && s2.next.state == AgentActive && s2.events == []
      && s3.next.state == AgentActive && s3.events == []
  {
  }

  /**
   * Agent toggles on with Control+Command, survives full release, and toggles
   * off on the next Control+Command press.
   */
  lemma AgentToggleScenario(t0: nat, t1: nat, t2: nat)
    requires t0 <= t2
    ensures var cc := ModifierChanged(ModifierState(true, false, true));
      var r := RunAll(Initial(), [Input(cc, t0), Input(ModifierChanged(Released()), t1), Input(cc, t2)]);
      r.next.state == Idle &&
      r.events == [AgentModeEntered, AgentModeExited(TruncateU64((t2 - t0) / NANOS_PER_MILLI))]
  {
    var cc := ModifierChanged(ModifierState(true, false, true));
    var a, b, c := Input(cc, t0), Input(ModifierChanged(Released()), t1), Input(cc, t2);
    AgentToggleSteps(t0, t1, t2);
    var h1 := Handle(Initial(), a);
    var h2 := Handle(h1.next, b);
    var h3 := Handle(h2.next, c);
    RunSingle(h2.next, c);
    assert [b, c][1..] == [c];
    assert RunAll(h1.next, [b, c]) == StepResult(h3.next, h2.events + h3.events);
    assert [a, b, c][1..] == [b, c];
    assert RunAll(Initial(), [a, b, c]) == StepResult(h3.next, h1.events + (h2.events + h3.events));
  }

  /** The three events of `AgentToggleScenario`, one at a time. */
  lemma AgentToggleSteps(t0: nat, t1: nat, t2: nat)
    requires t0 <= t2
    ensures var cc := ModifierState(true, false, true);
      var h1 := Handle(Initial(), Input(ModifierChanged(cc), t0));
      var h2 := Handle(h1.next, Input(ModifierChanged(Released()), t1));
      var h3 := Handle(h2.next, Input(ModifierChanged(cc), t2));
      && h1 == StepResult(Snapshot(AgentActive, cc, Some(t0)), [AgentModeEntered])
      && h2 == StepResult(Snapshot(AgentActive, Released(), Some(t0)), [])
      && h3.next.state == Idle
      && h3.events == [AgentModeExited(TruncateU64((t2 - t0) / NANOS_PER_MILLI))]
  {
  }

  /** Running a single input is handling it. */
  lemma RunSingle(s: Snapshot, x: Input)
    ensures RunAll(s, [x]) == Handle(s, x)
  {
    assert [x][1..] == [];
    var h := Handle(s, x);
    assert h.events + [] == h.events;
  }

  // ---------------------------------------------------------------------------
  // The machine object

  class StateMachine {
    var state: State
    /** The previous modifier snapshot, for edge detection. */
    var prevModifiers: ModifierState
    /** Clock reading at which the current non-Idle mode was entered. */
    var stateEnteredAt: Option<nat>
    /** Every event sent on the broadcast channel, oldest first. */
    var sent: seq<StateEvent>

    function Snap(): Snapshot
      reads this
    {
      Snapshot(state, prevModifiers, stateEnteredAt)
    }

    ghost predicate Valid()
      reads this
    {
      Consistent(Snap())
    }

    /** `StateMachine::new`: Idle, all keys released, no entry time, nothing sent. */
    constructor ()
      ensures Valid() && Snap() == Initial() && sent == []
    {
      state := Idle;
      prevModifiers := Released();
      stateEnteredAt := None;
      sent := [];
    }

    /** `state()`. */
    function CurrentState(): State
      reads this
    {
      state
    }

    /** `handle_modifier_change`, handled at clock reading `now`. */
    method HandleModifierChange(modifiers: ModifierState, now: nat)
      requires Valid()
      modifies this
      ensures Valid()
      ensures Snap() == Step(old(Snap()), modifiers, now).next
      ensures sent == old(sent) + Step(old(Snap()), modifiers, now).events
    {
      var oldState := state;
      var newState := ComputeNextState(state, prevModifiers, modifiers);
      if newState != oldState {
        TransitionTo(newState, now);
      }
      prevModifiers := modifiers;
    }

    /** `transition_to`: exit event, new mode and entry time, entry event. */
    method TransitionTo(newState: State, now: nat)
      modifies this
      ensures state == newState && prevModifiers == old(prevModifiers)
      ensures stateEnteredAt == if newState != Idle then Some(now) else None
      ensures sent == old(sent) +
        TransitionEvents(old(state), newState, ElapsedMillis(old(stateEnteredAt), now))
    {
      var oldState := state;
      var durationMs := ElapsedMillis(stateEnteredAt, now);
      EmitExitEvent(oldState, durationMs);
      state := newState;
      stateEnteredAt := if newState != Idle then Some(now) else None;
      EmitEntryEvent(newState);
    }

    /** `emit_exit_event`; a send without receivers is ignored, so the log just grows. */
    method EmitExitEvent(s: State, durationMs: u64)
      modifies this`sent
      ensures sent == old(sent) + Sent(ExitEvent(s, durationMs))
    {
      match s
      case Idle => return;
      case DictationActive => sent := sent + [DictationComplete(durationMs)];
      case IntelligentActive => sent := sent + [IntelligentRequestComplete(durationMs)];
      case AgentActive => sent := sent + [AgentModeExited(durationMs)];
    }

    /** `emit_entry_event`. */
    method EmitEntryEvent(s: State)
      modifies this`sent
      ensures sent == old(sent) + Sent(EntryEvent(s))
    {
      match s
      case Idle => return;
      case DictationActive => sent := sent + [DictationStarted];
      case IntelligentActive => sent := sent + [IntelligentStarted];
      case AgentActive => sent := sent + [AgentModeEntered];
    }

    /** One event received by `run`: a modifier change is handled, a disabled tap is only logged. */
    method HandleInput(input: Input)
      requires Valid()
      modifies this
      ensures Valid()
      ensures Snap() == Handle(old(Snap()), input).next
      ensures sent == old(sent) + Handle(old(Snap()), input).events
    {
      match input.event
      case ModifierChanged(m) =>
        HandleModifierChange(m, input.now);
      case TapDisabled =>
        assert sent == sent + [];
    }

    /** `run`: the receive loop over the listener's events, in arrival order. */
    method Run(inputs: seq<Input>)
      requires Valid()
      modifies this
      ensures Valid()
      ensures Snap() == RunAll(old(Snap()), inputs).next
      ensures sent == old(sent) + RunAll(old(Snap()), inputs).events
    {
      ghost var start := Snap();
      var i: nat := 0;
      while i < |inputs|
        invariant i <= |inputs| && Valid()
        invariant Snap() == RunAll(start, inputs[..i]).next
        invariant sent == old(sent) + RunAll(start, inputs[..i]).events
      {
        ghost var r := RunAll(start, inputs[..i]);
        ghost var h := Handle(r.next, inputs[i]);
        RunPrefix(start, inputs, i);
        assert old(sent) + (r.events + h.events) == (old(sent) + r.events) + h.events;
        HandleInput(inputs[i]);
        i := i + 1;
      }
      assert inputs[..i] == inputs;
    }
  }
}
