/**
 * The daemon's state-event handler (daemon/src/main.rs, the third branch of
 * the main `select!`): every event the state machine broadcasts is projected
 * onto a mode and handed to the IPC server's view, audio events are skipped,
 * a lagging receiver carries on and a closed channel ends the loop. What the
 * server does with each mode is not part of this model; the loop's output is
 * the sequence of modes it would hand over.
 */
module EventSync {
  import opened Wrappers
  import opened Num
  import opened Events
  import opened Machine

  // ---------------------------------------------------------------------------
  // Projecting one event onto a mode

  /** The mode an event announces; audio events announce none. */
  function Project(e: StateEvent): (r: Option<State>)
    ensures r.None? <==> e.AudioCaptureStarted? || e.AudioCaptureStopped?
    ensures IsExit(e) ==> r == Some(Idle)
    ensures r.Some? && r.value != Idle ==> !IsExit(e)
  {
    match e
    case DictationStarted => Some(DictationActive)
    case DictationComplete(_) => Some(Idle)
    case IntelligentStarted => Some(IntelligentActive)
    case IntelligentRequestComplete(_) => Some(Idle)
    case AgentModeEntered => Some(AgentActive)
    case AgentModeExited(_) => Some(Idle)
    case AudioCaptureStarted => None
    case AudioCaptureStopped => None
  }

  /** The projection undoes the machine's emitters: an entry event names its mode, an exit event leads to Idle. */
  lemma ProjectInvertsEmitters(s: State, durationMs: u64)
    ensures s != Idle ==> Project(EntryEvent(s).value) == Some(s)
    ensures s != Idle ==> Project(ExitEvent(s, durationMs).value) == Some(Idle)
  {
  }

  /** The view after one event: its mode, or unchanged for an audio event. */
  function Track(view: State, e: StateEvent): State {
    match Project(e)
    case Some(s) => s
    case None => view
  }

  /** The view after a sequence of events, in emission order. */
  function View(view: State, events: seq<StateEvent>): State
    decreases |events|
  {
    if events == [] then view else Track(View(view, events[..|events| - 1]), events[|events| - 1])
  }

  /** Following `a + b` is following `a`, then `b`. */
  lemma {:induction false} ViewAppend(view: State, a: seq<StateEvent>, b: seq<StateEvent>)
    ensures View(view, a + b) == View(View(view, a), b)
    decreases |b|
  {
    if b == [] {
      assert a + b == a;
    } else {
      var c := a + b;
      assert c[..|c| - 1] == a + b[..|b| - 1];
      assert c[|c| - 1] == b[|b| - 1];
      ViewAppend(view, a, b[..|b| - 1]);
    }
  }

  // ---------------------------------------------------------------------------
  // The view follows the machine

  /** Whatever the view was, a real transition's events leave it at the new mode. */
  lemma TransitionProjects(view: State, from: State, to: State, durationMs: u64)
    requires from != to
    ensures View(view, TransitionEvents(from, to, durationMs)) == to
  {
    var exit, entry := Sent(ExitEvent(from, durationMs)), Sent(EntryEvent(to));
    ViewAppend(view, exit, entry);
    assert exit == [] || exit[..0] == [];
    assert entry == [] || entry[..0] == [];
  }

  /** A view at the machine's mode before a handled hotkey event is at its mode after the event's broadcasts. */
  lemma HandleProjects(s: Snapshot, input: Input)
    ensures View(s.state, Handle(s, input).events) == Handle(s, input).next.state
  {
    var r := Handle(s, input);
    if r.next.state != s.state {
      TransitionProjects(s.state, s.state, r.next.state, ElapsedMillis(s.enteredAt, input.now));
    }
  }

  /**
   * A view that starts at the machine's mode and follows every event the
   * machine broadcasts is at the machine's mode after any run.
   */
  lemma {:induction false} RunProjects(s: Snapshot, inputs: seq<Input>)
    ensures View(s.state, RunAll(s, inputs).events) == RunAll(s, inputs).next.state
    decreases |inputs|
  {
    if inputs != [] {
      var first := Handle(s, inputs[0]);
      var rest := RunAll(first.next, inputs[1..]);
      ViewAppend(s.state, first.events, rest.events);
      HandleProjects(s, inputs[0]);
      RunProjects(first.next, inputs[1..]);
    }
  }

  // ---------------------------------------------------------------------------
  // The receive loop

  /** The outcome of one `recv` on the broadcast receiver. */
  datatype RecvResult = Received(event: StateEvent) | Lagged(skipped: nat) | Closed

  /** The modes one receive result hands to the server: at most one, and only for a received event. */
  function UpdateOf(r: RecvResult): (modes: seq<State>)
    ensures |modes| <= 1
    ensures modes != [] <==> r.Received? && Project(r.event).Some?
    ensures modes != [] ==> modes[0] == Project(r.event).value
  {
    if r.Received? && Project(r.event).Some? then [Project(r.event).value] else []
  }

  /** The modes handed to the server for a sequence of receive results, in order. */
  function Updates(results: seq<RecvResult>): (modes: seq<State>)
    ensures |modes| <= |results|
    decreases |results|
  {
    if results == [] then [] else Updates(results[..|results| - 1]) + UpdateOf(results[|results| - 1])
  }

  /**
   * The loop over the receive results: a received event is projected and
   * handed on unless it is an audio event, a lag is skipped, and `Closed`
   * ends the loop. Returns the modes handed on, how many results were taken,
   * and whether the loop ended on `Closed` (otherwise the results ran out).
   */
  method SyncLoop(results: seq<RecvResult>) returns (updates: seq<State>, consumed: nat, closed: bool)
    ensures consumed <= |results|
    ensures updates == Updates(results[..consumed])
    ensures closed <==> Closed in results
    ensures closed ==> consumed > 0 && results[consumed - 1] == Closed && Closed !in results[..consumed - 1]
    ensures !closed ==> consumed == |results|
  {
    updates, consumed, closed := [], 0, false;
    while consumed < |results|
      invariant consumed <= |results|
      invariant updates == Updates(results[..consumed])
      invariant Closed !in results[..consumed]
    {
      var r := results[consumed];
      assert results[..consumed + 1][..consumed] == results[..consumed];
      assert results[..consumed + 1] == results[..consumed] + [r];
      consumed := consumed + 1;
      match r {
        case Received(event) =>
          match Project(event) {
            case Some(mode) =>
              updates := updates + [mode];
            case None =>
              // audio events do not change the view
              assert UpdateOf(r) == [];
              assert updates == updates + [];
          }
        case Lagged(_) =>
          assert updates == updates + [];
        case Closed =>
          closed := true;
          return;
      }
    }
    assert results[..consumed] == results;
  }

  /** Every broadcast event received, nothing lost. */
  function Delivered(events: seq<StateEvent>): (results: seq<RecvResult>)
    ensures |results| == |events|
    ensures forall i :: 0 <= i < |events| ==> results[i] == Received(events[i])
  {
    seq(|events|, i requires 0 <= i < |events| => Received(events[i]))
  }

  /** The last mode handed on, or `view` if none was. */
  function LastOr(view: State, modes: seq<State>): State {
    if modes == [] then view else modes[|modes| - 1]
  }

  /** Without loss, the last mode the loop hands on is the view the events lead to. */
  lemma {:induction false} UpdatesFollowView(view: State, events: seq<StateEvent>)
    ensures LastOr(view, Updates(Delivered(events))) == View(view, events)
    decreases |events|
  {
    if events != [] {
      var init := events[..|events| - 1];
      var d := Delivered(events);
      assert d[..|d| - 1] == Delivered(init);
      UpdatesFollowView(view, init);
    }
  }

  /**
   * When the receiver keeps up, the server's view after the events of any
   * run of the state machine is the machine's mode.
   */
  lemma SyncFollowsMachine(s: Snapshot, inputs: seq<Input>)
    ensures var r := RunAll(s, inputs);
      LastOr(s.state, Updates(Delivered(r.events))) == r.next.state
  {
    var r := RunAll(s, inputs);
    UpdatesFollowView(s.state, r.events);
    RunProjects(s, inputs);
  }
}
