/**
 * The IPC message vocabulary (daemon/src/ipc/protocol.rs): modes, requests,
 * responses, the status snapshot and their defaults, with the snake_case
 * names serde gives them on the wire. The JSON text itself is not modelled:
 * an encoded request is its `type` tag plus its `mode` field, if any.
 */
module Protocol {
  import opened Wrappers

  /** The operating mode as clients see it. */
  datatype Mode = Idle | Dictation | Intelligent | Agent

  /** `Mode::default()`. */
  function DefaultMode(): (m: Mode)
    ensures !IsActive(m)
  {
    Idle
  }

  /** The `active` flag of a mode change: every mode but Idle. */
  predicate IsActive(m: Mode) {
    m != Idle
  }

  /** The snake_case wire name of a mode. */
  function ModeName(m: Mode): string {
    match m
    case Idle => "idle"
    case Dictation => "dictation"
    case Intelligent => "intelligent"
    case Agent => "agent"
  }

  function ModeFromName(name: string): (r: Option<Mode>)
    ensures r.Some? ==> ModeName(r.value) == name
  {
    match name
    case "idle" => Some(Idle)
    case "dictation" => Some(Dictation)
    case "intelligent" => Some(Intelligent)
    case "agent" => Some(Agent)
    case _ => None
  }

  /** Mode names and modes are in bijection. */
  lemma ModeNameBijection(m: Mode, name: string)
    ensures ModeFromName(ModeName(m)) == Some(m)
    ensures ModeFromName(name) == Some(m) <==> ModeName(m) == name
  {
  }

  /** Requests from a client. */
  datatype Request = GetStatus | SetMode(mode: Mode) | Ping

  function RequestTag(r: Request): string {
    match r
    case GetStatus => "get_status"
    case SetMode(_) => "set_mode"
    case Ping => "ping"
  }

  /** An encoded request: the `type` tag and the `mode` field when present. */
  datatype WireRequest = WireRequest(tag: string, mode: Option<string>)

  datatype DecodeError = UnknownVariant(tag: string) | MissingMode | UnknownMode(name: string)

  function EncodeRequest(r: Request): (w: WireRequest)
    ensures w.mode.Some? <==> r.SetMode?
  {
    WireRequest(RequestTag(r), if r.SetMode? then Some(ModeName(r.mode)) else None)
  }

  /** The tag picks the variant; `set_mode` needs a known `mode`; the others ignore it. */
  function DecodeRequest(w: WireRequest): (r: Result<Request, DecodeError>)
    ensures r.Ok? ==> RequestTag(r.value) == w.tag
  {
    match w.tag
    case "get_status" => Ok(GetStatus)
    case "ping" => Ok(Ping)
    case "set_mode" =>
      (match w.mode
       case None => Err(MissingMode)
       case Some(name) =>
         match ModeFromName(name)
         case None => Err(UnknownMode(name))
         case Some(m) => Ok(SetMode(m)))
    case _ => Err(UnknownVariant(w.tag))
  }

  /** Decoding an encoded request gives it back. */
  lemma RequestRoundTrip(r: Request)
    ensures DecodeRequest(EncodeRequest(r)) == Ok(r)
  {
  }

  /** A decoded `set_mode` re-encodes to exactly its input. */
  lemma SetModeDecodesFaithfully(w: WireRequest)
    requires DecodeRequest(w).Ok? && DecodeRequest(w).value.SetMode?
    ensures EncodeRequest(DecodeRequest(w).value) == w
  {
    ModeNameBijection(DecodeRequest(w).value.mode, w.mode.value);
  }

  /** `SetMode { mode: Dictation }` encodes with `set_mode` and `dictation`. */
  lemma SerializeSetModeDictation()
    ensures EncodeRequest(SetMode(Dictation)) == WireRequest("set_mode", Some("dictation"))
  {
  }

  /** Full daemon status snapshot. */
  datatype DaemonStatus = DaemonStatus(
    version: string,
    mode: Mode,
    hotkeyRegistered: bool,
    uptimeSecs: nat)

  /**
   * `DaemonStatus::default()`. The version is the package version fixed at
   * build time, passed in here.
   */
  function DefaultStatus(version: string): (st: DaemonStatus)
    ensures st.version == version && st.mode == DefaultMode()
    ensures !st.hotkeyRegistered && st.uptimeSecs == 0
  {
    DaemonStatus(version, DefaultMode(), false, 0)
  }

  /** Responses to a client. */
  datatype Response =
    | Status(status: DaemonStatus)
    | ModeChange(mode: Mode, active: bool)
    | Pong
    | Error(code: string, message: string)

  function ResponseTag(r: Response): string {
    match r
    case Status(_) => "status"
    case ModeChange(_, _) => "mode_change"
    case Pong => "pong"
    case Error(_, _) => "error"
  }

  /** Response tags tell the variants apart. */
  lemma ResponseTagsDistinct(a: Response, b: Response)
    ensures ResponseTag(a) == ResponseTag(b) <==>
      (a.Status? && b.Status?) || (a.ModeChange? && b.ModeChange?) ||
      (a.Pong? && b.Pong?) || (a.Error? && b.Error?)
  {
  }

  /** `Status(DaemonStatus::default())` is tagged `status`. */
  lemma SerializeDefaultStatus(version: string)
    ensures ResponseTag(Status(DefaultStatus(version))) == "status"
  {
  }
}
