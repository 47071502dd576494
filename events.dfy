/**
 * Lifecycle events published by the mode state machine
 * (daemon/src/events/mod.rs): the variants, their human-readable `Display`
 * form and their tagged wire form (`type` field holding the snake_case
 * variant name, plus `duration_ms` for the three exit variants).
 */
module Events {
  import opened Wrappers
  import opened Num

  datatype StateEvent =
    | DictationStarted
    | DictationComplete(durationMs: u64)
    | IntelligentStarted
    | IntelligentRequestComplete(durationMs: u64)
    | AgentModeEntered
    | AgentModeExited(durationMs: u64)
    | AudioCaptureStarted
    | AudioCaptureStopped

  /** The three exit variants: the only ones that carry a duration. */
  predicate IsExit(e: StateEvent) {
    e.DictationComplete? || e.IntelligentRequestComplete? || e.AgentModeExited?
  }

  /** The `duration_ms` payload, present exactly on exit variants. */
  function Duration(e: StateEvent): (d: Option<u64>)
    ensures d.Some? <==> IsExit(e)
  {
    match e
    case DictationComplete(ms) => Some(ms)
    case IntelligentRequestComplete(ms) => Some(ms)
    case AgentModeExited(ms) => Some(ms)
    case _ => None
  }

  // ---------------------------------------------------------------------------
  // Display

  /** The upper-case name that `Display` starts with. */
  function DisplayName(e: StateEvent): string {
    match e
    case DictationStarted => "DICTATION_STARTED"
    case DictationComplete(_) => "DICTATION_COMPLETE"
    case IntelligentStarted => "INTELLIGENT_STARTED"
    case IntelligentRequestComplete(_) => "INTELLIGENT_REQUEST_COMPLETE"
    case AgentModeEntered => "AGENT_MODE_ENTERED"
    case AgentModeExited(_) => "AGENT_MODE_EXITED"
    case AudioCaptureStarted => "AUDIO_CAPTURE_STARTED"
    case AudioCaptureStopped => "AUDIO_CAPTURE_STOPPED"
  }

  /** `impl Display for StateEvent`: the name, then ` (<ms>ms)` on exit variants. */
  function Display(e: StateEvent): (s: string)
    ensures DisplayName(e) <= s
    ensures |s| > |DisplayName(e)| <==> IsExit(e)
  {
    match Duration(e)
    case None => DisplayName(e)
    case Some(ms) => DisplayName(e) + " (" + Decimal(ms) + "ms)"
  }

  /** The names are pairwise distinct, so distinct variants never share a name. */
  lemma DisplayNamesDistinct(a: StateEvent, b: StateEvent)
    requires DisplayName(a) == DisplayName(b)
    ensures Duration(a).None? ==> a == b
    ensures Duration(a).Some? ==> b == a.(durationMs := b.durationMs)
  {
    // Each pair of names with equal length differs at a fixed position.
    var s, t := DisplayName(a), DisplayName(b);
    assert s[0] == t[0] && s[1] == t[1] && |s| == |t|;
    if |s| > 12 { assert s[12] == t[12]; }
    if |s| > 16 { assert s[16] == t[16]; }
    assert s[10] == t[10];
  }

  /** Display names contain no space, so the first space ends the name. */
  lemma DisplayNameHasNoSpace(e: StateEvent)
    ensures ' ' !in DisplayName(e)
  {
  }

  /** `Display` is injective: the text identifies the variant and its duration. */
  lemma DisplayInjective(a: StateEvent, b: StateEvent)
    requires Display(a) == Display(b)
    ensures a == b
  {
    var s := Display(a);
    var na, nb := DisplayName(a), DisplayName(b);
    DisplayNameHasNoSpace(a);
    DisplayNameHasNoSpace(b);
    // A name is followed by a space in the display, or ends it.
    assert IsExit(a) ==> s[|na|] == ' ';
    assert IsExit(b) ==> s[|nb|] == ' ';
    assert |na| == |nb|;
    assert na == s[..|na|] == nb;
    DisplayNamesDistinct(a, b);
    if IsExit(a) {
      var da, db := Decimal(Duration(a).value), Decimal(Duration(b).value);
      assert s == na + " (" + da + "ms)" == nb + " (" + db + "ms)";
      assert da == s[|na| + 2 .. |s| - 3] == db;
      DecimalInjective(Duration(a).value, Duration(b).value);
    }
  }

  // ---------------------------------------------------------------------------
  // Wire form: serde's internally tagged, snake_case representation

  /** The `type` tag of each variant. */
  function Tag(e: StateEvent): string {
    match e
    case DictationStarted => "dictation_started"
    case DictationComplete(_) => "dictation_complete"
    case IntelligentStarted => "intelligent_started"
    case IntelligentRequestComplete(_) => "intelligent_request_complete"
    case AgentModeEntered => "agent_mode_entered"
    case AgentModeExited(_) => "agent_mode_exited"
    case AudioCaptureStarted => "audio_capture_started"
    case AudioCaptureStopped => "audio_capture_stopped"
  }

  /** An encoded event: the `type` tag and, if present, the `duration_ms` field. */
  datatype WireEvent = WireEvent(tag: string, durationMs: Option<nat>)

  datatype DecodeError = UnknownVariant(tag: string) | MissingDuration | DurationOutOfRange(value: nat)

  function Encode(e: StateEvent): (w: WireEvent)
    ensures w.durationMs.Some? <==> IsExit(e)
  {
    WireEvent(Tag(e), match Duration(e) case Some(ms) => Some(ms as nat) case None => None)
  }

  /** The exit variant with duration `d` whose tag is `tag`; `tag` must name one. */
  function ExitWithTag(tag: string, d: u64): StateEvent {
    if tag == "dictation_complete" then DictationComplete(d)
    else if tag == "intelligent_request_complete" then IntelligentRequestComplete(d)
    else AgentModeExited(d)
  }

  /**
   * Decoding: the tag picks the variant; exit variants need a `duration_ms`
   * that fits in `u64`; the other variants ignore that field.
   */
  function Decode(w: WireEvent): (r: Result<StateEvent, DecodeError>)
    ensures r.Ok? ==> Tag(r.value) == w.tag
    ensures r.Ok? && IsExit(r.value) ==> w.durationMs == Some(r.value.durationMs as nat)
  {
    match w.tag
    case "dictation_started" => Ok(DictationStarted)
    case "intelligent_started" => Ok(IntelligentStarted)
    case "agent_mode_entered" => Ok(AgentModeEntered)
    case "audio_capture_started" => Ok(AudioCaptureStarted)
    case "audio_capture_stopped" => Ok(AudioCaptureStopped)
    case _ =>
      if w.tag in {"dictation_complete", "intelligent_request_complete", "agent_mode_exited"} then
        match w.durationMs
        case None => Err(MissingDuration)
        case Some(ms) =>
          if ms < U64_LIMIT then Ok(ExitWithTag(w.tag, ms)) else Err(DurationOutOfRange(ms))
      else Err(UnknownVariant(w.tag))
  }

  /** Decoding an encoded event gives it back. */
  lemma DecodeEncode(e: StateEvent)
    ensures Decode(Encode(e)) == Ok(e)
  {
  }

  /** A decoded event re-encodes to its input, except that an ignored field is dropped. */
  lemma EncodeDecode(w: WireEvent)
    requires Decode(w).Ok?
    ensures Encode(Decode(w).value) == (if IsExit(Decode(w).value) then w else w.(durationMs := None))
  {
  }

  /** Tags are a bijection between variants and the eight tag strings. */
  lemma TagsDistinct(a: StateEvent, b: StateEvent)
    requires Tag(a) == Tag(b)
    ensures Duration(a).None? ==> a == b
    ensures Duration(a).Some? ==> b == a.(durationMs := b.durationMs)
  {
    var d := if IsExit(a) then a.durationMs else 0;
    DecodeEncode(a);
    DecodeEncode(b);
    assert Decode(WireEvent(Tag(a), Some(d))).Ok?;
  }

  /** `DictationComplete { duration_ms: 1500 }` is tagged `dictation_complete` and carries 1500. */
  lemma SerializeDictationComplete()
    ensures Encode(DictationComplete(1500)) == WireEvent("dictation_complete", Some(1500))
    ensures Decimal(1500) == "1500"
  {
    assert Decimal(1) == "1";
    assert Decimal(15) == "15";
    assert Decimal(150) == "150";
  }

  /** `{"type":"agent_mode_entered"}` decodes to `AgentModeEntered`. */
  lemma DeserializeAgentModeEntered()
    ensures Decode(WireEvent("agent_mode_entered", None)) == Ok(AgentModeEntered)
  {
  }
}
