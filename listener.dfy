/**
 * The hotkey listener (daemon/src/hotkey/listener.rs), restricted to its
 * `running` flag and to the loop that turns queued event-flag masks into
 * modifier snapshots and forwards only the ones that differ from the last
 * snapshot forwarded. The event tap, the run loop and the thread are not
 * modelled; the masks the tap callback queued arrive as a sequence.
 */
module Listener {
  import opened Wrappers
  import opened Keys

  /** What the listener sends to the state machine. */
  datatype HotkeyEvent = ModifierChanged(modifiers: ModifierState) | TapDisabled

  datatype HotkeyError = AlreadyRunning | EventTapCreation | ThreadSpawn(reason: string) | ChannelSend

  class HotkeyListener {
    /** The shared `running: AtomicBool`. */
    var running: bool

    /** `HotkeyListener::new`: not running. */
    constructor ()
      ensures !running
    {
      running := false;
    }

    /** `is_running`. */
    function IsRunning(): bool
      reads this
    {
      running
    }

    /**
     * `start`: the flag is swapped to true first; if it already was true the
     * call fails with `AlreadyRunning` and spawns nothing. `spawn` is the
     * outcome of spawning the listener thread; when spawning fails the error
     * is returned and the flag stays set, as in the source.
     */
    method Start(spawn: Result<(), string>) returns (r: Result<(), HotkeyError>)
      modifies this
      ensures running
      ensures old(running) ==> r == Err(AlreadyRunning)
      ensures !old(running) && spawn.Ok? ==> r == Ok(())
      ensures !old(running) && spawn.Err? ==> r == Err(ThreadSpawn(spawn.error))
    {
      var was := running;
      running := true;
      if was {
        return Err(AlreadyRunning);
      }
      match spawn
      case Ok(_) => r := Ok(());
      case Err(reason) => r := Err(ThreadSpawn(reason));
    }

    /** `stop`: clears the flag (stopping the run loop is not modelled). */
    method Stop()
      modifies this
      ensures !running
    {
      running := false;
    }

    /** The listener thread's last act: it clears the flag when its loop ends. */
    method ThreadFinished()
      modifies this
      ensures !running
    {
      running := false;
    }
  }

  // ---------------------------------------------------------------------------
  // Change coalescing

  /** The snapshots forwarded from `states`, starting after `last` was forwarded. */
  function Coalesce(last: ModifierState, states: seq<ModifierState>): (out: seq<ModifierState>)
    ensures |out| <= |states|
    ensures forall x :: x in out ==> x in states
    decreases |states|
  {
    if states == [] then []
    else if states[0] != last then [states[0]] + Coalesce(states[0], states[1..])
    else Coalesce(last, states[1..])
  }

  /** The last snapshot forwarded, or `last` if nothing was. */
  function LastForwarded(last: ModifierState, forwarded: seq<ModifierState>): ModifierState {
    if forwarded == [] then last else forwarded[|forwarded| - 1]
  }

  /** Every snapshot of `states`, decoded from its mask. */
  function Decoded(pending: seq<Flags>): (states: seq<ModifierState>)
    ensures |states| == |pending|
    ensures forall i :: 0 <= i < |pending| ==> states[i] == FromFlags(pending[i])
  {
    seq(|pending|, i requires 0 <= i < |pending| => FromFlags(pending[i]))
  }

  /** The forwarded sequence never repeats a snapshot back to back, nor repeats `last`. */
  lemma {:induction false} CoalesceHasNoRepeats(last: ModifierState, states: seq<ModifierState>)
    ensures var out := Coalesce(last, states);
      (out != [] ==> out[0] != last) &&
      forall i :: 0 <= i < |out| - 1 ==> out[i] != out[i + 1]
    decreases |states|
  {
    if states != [] {
      CoalesceHasNoRepeats(if states[0] != last then states[0] else last, states[1..]);
    }
  }

  /** The positions in `states`, from `i` on, whose snapshot is forwarded when `last` was forwarded before `i`. */
  function ForwardedFrom(last: ModifierState, states: seq<ModifierState>, i: nat): seq<nat>
    requires i <= |states|
    decreases |states| - i
  {
    if i == |states| then []
    else if states[i] != last then [i] + ForwardedFrom(states[i], states, i + 1)
    else ForwardedFrom(last, states, i + 1)
  }

  /** What is forwarded from position `i` on is the input at increasing positions from `i` on. */
  lemma {:induction false} CoalesceSubsequence(last: ModifierState, states: seq<ModifierState>, i: nat)
    requires i <= |states|
    ensures var idx, out := ForwardedFrom(last, states, i), Coalesce(last, states[i..]);
      && |idx| == |out|
      && (forall j :: 0 <= j < |idx| ==> i <= idx[j] < |states| && out[j] == states[idx[j]])
      && (forall j :: 0 <= j < |idx| - 1 ==> idx[j] < idx[j + 1])
    decreases |states| - i
  {
    if i < |states| {
      CoalesceStep(last, states, i);
      var next := if states[i] != last then states[i] else last;
      CoalesceSubsequence(next, states, i + 1);
    }
  }

  /** Every position `ForwardedFrom` lists lies in `states` from `i` on. */
  lemma {:induction false} ForwardedFromBounds(last: ModifierState, states: seq<ModifierState>, i: nat)
    requires i <= |states|
    ensures forall p :: p in ForwardedFrom(last, states, i) ==> i <= p < |states|
    decreases |states| - i
  {
    if i < |states| {
      ForwardedFromBounds(states[i], states, i + 1);
      ForwardedFromBounds(last, states, i + 1);
    }
  }

  /**
   * From position `i` on, a position is forwarded exactly when its snapshot
   * differs from the one before it, `last` standing for the one before `i`.
   */
  lemma {:induction false} ForwardedFromChanges(last: ModifierState, states: seq<ModifierState>, i: nat)
    requires i <= |states|
    ensures forall p :: i <= p < |states| ==>
      (p in ForwardedFrom(last, states, i) <==> states[p] != (if p == i then last else states[p - 1]))
    decreases |states| - i
  {
    if i < |states| {
      // Whether or not `states[i]` is forwarded, it is the snapshot last seen.
      assert ForwardedFrom(last, states, i) ==
        (if states[i] != last then [i] else []) + ForwardedFrom(states[i], states, i + 1);
      ForwardedFromChanges(states[i], states, i + 1);
      ForwardedFromBounds(states[i], states, i + 1);
    }
  }

  /**
   * Forwarding drops exactly the repeats: the forwarded snapshots are the
   * input at strictly increasing positions, so in input order; a position is
   * among them exactly when its snapshot differs from the one before it (from
   * `last` for the first); and the last one forwarded is the last input.
   */
  lemma {:induction false} CoalesceKeepsChanges(last: ModifierState, states: seq<ModifierState>)
    ensures var idx, out := ForwardedFrom(last, states, 0), Coalesce(last, states);
      && |idx| == |out|
      && (forall j :: 0 <= j < |idx| ==> idx[j] < |states| && out[j] == states[idx[j]])
      && (forall j :: 0 <= j < |idx| - 1 ==> idx[j] < idx[j + 1])
    ensures forall p :: 0 <= p < |states| ==>
      (p in ForwardedFrom(last, states, 0) <==> states[p] != (if p == 0 then last else states[p - 1]))
    ensures states != [] ==> LastForwarded(last, Coalesce(last, states)) == states[|states| - 1]
    decreases |states|
  {
    CoalesceSubsequence(last, states, 0);
    ForwardedFromChanges(last, states, 0);
    assert states[0..] == states;
    if states != [] {
      var next := if states[0] != last then states[0] else last;
      CoalesceKeepsChanges(next, states[1..]);
      var rest := Coalesce(next, states[1..]);
      if states[1..] == [] {
        assert rest == [];
      }
    }
  }

  /** Coalescing what was already coalesced changes nothing. */
  lemma {:induction false} CoalesceIdempotent(last: ModifierState, states: seq<ModifierState>)
    ensures Coalesce(last, Coalesce(last, states)) == Coalesce(last, states)
    decreases |states|
  {
    if states != [] {
      var next := if states[0] != last then states[0] else last;
      CoalesceIdempotent(next, states[1..]);
    }
  }

  /** Starting from all keys released, the first forwarded snapshot is never all released. */
  lemma NeverForwardsReleasedFirst(states: seq<ModifierState>)
    ensures var out := Coalesce(Released(), states);
      out != [] ==> !IsEmpty(out[0])
  {
    CoalesceHasNoRepeats(Released(), states);
    var out := Coalesce(Released(), states);
    if out != [] {
      CombinationsPinTheSnapshot(out[0]);
    }
  }

  /** One step of `Coalesce`, taken at position `k` of the input. */
  lemma CoalesceStep(last: ModifierState, states: seq<ModifierState>, k: nat)
    requires k < |states|
    ensures Coalesce(last, states[k..]) ==
      if states[k] != last then [states[k]] + Coalesce(states[k], states[k + 1..])
      else Coalesce(last, states[k + 1..])
  {
    assert states[k..][1..] == states[k + 1..];
  }

  /** Coalescing `states` after `forwarded` has gone out, one input further on. */
  lemma CoalesceAdvance(last: ModifierState, states: seq<ModifierState>, forwarded: seq<ModifierState>,
                        newLast: ModifierState, k: nat)
    requires k < |states|
    requires Coalesce(last, states) == forwarded + Coalesce(newLast, states[k..])
    ensures states[k] != newLast ==>
      Coalesce(last, states) == (forwarded + [states[k]]) + Coalesce(states[k], states[k + 1..])
    ensures states[k] == newLast ==>
      Coalesce(last, states) == forwarded + Coalesce(newLast, states[k + 1..])
  {
    CoalesceStep(newLast, states, k);
    if states[k] != newLast {
      var rest := Coalesce(states[k], states[k + 1..]);
      assert forwarded + ([states[k]] + rest) == (forwarded + [states[k]]) + rest;
    }
  }

  /**
   * One pass of the inner `while let Ok(flags) = callback_rx.try_recv()` loop
   * of `run_event_loop`. `pending` are the masks queued by the tap callback;
   * `last` is `last_state`; `receiverOpen` says whether the state machine's
   * receiver still exists (a blocking send fails exactly when it does not).
   * A failed send ends the pass without advancing `last_state`; the masks
   * received up to and including the failing one are consumed.
   */
  method DrainPending(pending: seq<Flags>, last: ModifierState, receiverOpen: bool)
    returns (sent: seq<HotkeyEvent>, newLast: ModifierState, consumed: nat)
    ensures consumed <= |pending|
    ensures receiverOpen ==>
      && consumed == |pending|
      && sent == Changes(Coalesce(last, Decoded(pending)))
      && newLast == LastForwarded(last, Coalesce(last, Decoded(pending)))
    ensures !receiverOpen ==>
      && sent == [] && newLast == last
      && (forall i :: 0 <= i < consumed - 1 ==> FromFlags(pending[i]) == last)
      && (consumed < |pending| ==> consumed > 0 && FromFlags(pending[consumed - 1]) != last)
  {
    ghost var states := Decoded(pending);
    ghost var forwarded: seq<ModifierState> := [];
    sent, newLast, consumed := [], last, 0;
    while consumed < |pending|
      invariant consumed <= |pending|
      invariant sent == Changes(forwarded)
      invariant newLast == LastForwarded(last, forwarded)
      invariant Coalesce(last, states) == forwarded + Coalesce(newLast, states[consumed..])
      invariant !receiverOpen ==> forwarded == []
      invariant !receiverOpen ==> forall i :: 0 <= i < consumed ==> FromFlags(pending[i]) == last
    {
      var state := FromFlags(pending[consumed]);
      assert state == states[consumed];
      CoalesceAdvance(last, states, forwarded, newLast, consumed);
      consumed := consumed + 1;
      if state != newLast {
        if !receiverOpen {
          break;
        }
        Forward(last, forwarded, state);
        sent := sent + [ModifierChanged(state)];
        forwarded := forwarded + [state];
        newLast := state;
      }
    }
    if receiverOpen {
      assert states[consumed..] == [];
      assert forwarded + [] == forwarded;
    }
  }

  /** Forwarding one more snapshot `x`. */
  lemma Forward(last: ModifierState, forwarded: seq<ModifierState>, x: ModifierState)
    ensures Changes(forwarded + [x]) == Changes(forwarded) + [ModifierChanged(x)]
    ensures LastForwarded(last, forwarded + [x]) == x
  {
  }

  /** The events that forward each snapshot. */
  function Changes(states: seq<ModifierState>): (events: seq<HotkeyEvent>)
    ensures |events| == |states|
    ensures forall i :: 0 <= i < |states| ==> events[i] == ModifierChanged(states[i])
  {
    seq(|states|, i requires 0 <= i < |states| => ModifierChanged(states[i]))
  }
}
