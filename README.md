# second-brain daemon: mode state machine, hotkey coalescing and IPC handling in Dafny

This project models the core of the second-brain macOS daemon. The daemon
watches the Control, Option and Command modifier keys. It runs a four-mode
state machine (Idle, Dictation, Intelligent, Agent) and announces each mode
change as lifecycle events. A menu-bar client reads and sets the mode over
a length-prefixed JSON protocol on a Unix socket.

The modules follow the Rust source files:

- `Keys` (hotkey/keys.rs): the three-key snapshot, its named combinations
  (Control only, Control+Option, Control+Command) and decoding from a
  `CGEventFlags` mask.
- `Listener` (hotkey/listener.rs):
  - the `running` flag of `HotkeyListener`, a class;
  - the loop that drains queued flag masks and forwards a snapshot only when
    it differs from the last one forwarded (`DrainPending`, proved against
    the function `Coalesce`).
- `Machine` (state/machine.rs):
  - the rule table as functions;
  - one step and a whole run of the machine as functions on a `Snapshot`
    value;
  - the `StateMachine` class, whose methods assign the same fields the
    source assigns and are proved to follow those functions. The broadcast
    sender is an append-only log of every event sent.
- `Events` (events/mod.rs): the lifecycle events, their `Display` text and
  their tagged wire form.
- `Protocol` (ipc/protocol.rs): modes, requests, responses, the status
  snapshot and its default, and their wire tags.
- `Server` (ipc/server.rs):
  - `process_request` on the shared status (class `ServerState`);
  - the 4-byte little-endian length header with its 1 MiB ceiling;
  - `handle_client`'s loop (`HandleClient`), proved against the function
    `Serve`, which describes a whole connection.
- `EventSync` (main.rs, lines 102-128): the loop that projects every
  broadcast event onto a mode for the server's view. It skips audio events,
  carries on after a lag and stops when the channel closes. When no event
  is lost, it is proved to track the machine's mode after any run.
- `Configuration` (config.rs): the data directory and socket path derived
  from `$HOME`.
- `Num` holds `u64`, and the decimal rendering used by `Display`.
- `Wrappers` holds `Option` and `Result`.

Inputs the daemon takes from its environment are parameters:

- Clocks (`Instant`) are a reading in nanoseconds.
- The JSON parser and encoder are functions passed to the server loop.
- The bytes a client sends before closing are a sequence.
- What a broadcast `recv` returns is a sequence of receive results.
- Whether the state machine's receiver is still open is a boolean.
- Whether the listener thread could be spawned is a `Result`.
- The value of `HOME` is an `EnvVar`.

Where the daemon's documentation and its code differ, the model follows
the code:

- The daemon's own comments speak of "mode notifications"
  (daemon/src/main.rs:11) and an "event subscription" (daemon/src/main.rs:78),
  and daemon/src/ipc/mod.rs:6 re-exports a `Notification` that is defined
  nowhere. The code's `Request` has only `get_status`, `set_mode` and `ping`.
  `Server::with_events` and `set_state` are called by `main` but defined
  nowhere, so the event loop's output is the sequence of modes it would
  hand to `set_state`.
- Holding Control+Option+Command from Idle leaves the machine Idle. Each
  named combination excludes the third key.

## Model

| member | source | states |
|---|---|---|
| Num.TruncateU64 | daemon/src/state/machine.rs:176 | `x as u64` keeps a value below 2^64 unchanged and always lands below 2^64 |
| Num.Decimal | daemon/src/events/mod.rs:50-59 | the `{}` rendering of a duration is a non-empty string of digits with no leading zero |
| Num.DecimalRoundTrip | daemon/src/events/mod.rs:50-59 | reading the decimal rendering back gives the number |
| Num.DecimalInjective | daemon/src/events/mod.rs:50-59 | two durations with the same rendering are equal |
| Keys.Released | daemon/src/hotkey/keys.rs:21-29 | the default snapshot has Control, Option and Command all released |
| Keys.IsEmpty | daemon/src/hotkey/keys.rs:41-44 | no key held; no contract of its own: `CombinationsPinTheSnapshot` proves it holds exactly for the default snapshot |
| Keys.IsControlOnly | daemon/src/hotkey/keys.rs:46-49 | Control without Option or Command; no contract of its own: `CombinationsPinTheSnapshot` and `CombinationsExclusive` state its properties |
| Keys.IsControlOption | daemon/src/hotkey/keys.rs:51-54 | Control and Option without Command; no contract of its own: `CombinationsPinTheSnapshot` and `CombinationsExclusive` state its properties |
| Keys.IsControlCommand | daemon/src/hotkey/keys.rs:56-59 | Control and Command without Option; no contract of its own: `CombinationsPinTheSnapshot` and `CombinationsExclusive` state its properties |
| Keys.CombinationsPinTheSnapshot | daemon/src/hotkey/keys.rs:41-59 | `is_empty` holds iff the snapshot is the default; each named combination holds for exactly one snapshot, with the other keys released |
| Keys.CombinationsExclusive | daemon/src/hotkey/keys.rs:46-59 | at most one of control-only, control+option and control+command holds; none holds with all three keys held or with none held |
| Keys.FromFlags | daemon/src/hotkey/keys.rs:33-39 | each field is set exactly when its flag bit is in the mask |
| Keys.FromToFlags | daemon/src/hotkey/keys.rs:33-39 | every snapshot is decoded from the mask holding just its own bits |
| Keys.FromFlagsIgnoresOtherBits | daemon/src/hotkey/keys.rs:33-39 | masks that agree on the Control, Option and Command bits decode to the same snapshot |
| Events.Duration | daemon/src/events/mod.rs:11-44 | an event carries a `duration_ms` exactly when it is one of the three exit variants |
| Events.Display | daemon/src/events/mod.rs:46-65 | the text starts with the variant's upper-case name and is longer than that name exactly for the exit variants |
| Events.DisplayNamesDistinct | daemon/src/events/mod.rs:48-63 | variants with the same display name are the same variant |
| Events.DisplayNameHasNoSpace | daemon/src/events/mod.rs:49-62 | no display name contains a space |
| Events.DisplayInjective | daemon/src/events/mod.rs:46-65 | events with the same `Display` text are equal, duration included |
| Events.Tag | daemon/src/events/mod.rs:10-44 | the snake_case `type` tag of each variant; no contract of its own: `TagsDistinct` and `DecodeEncode` state its properties |
| Events.Encode | daemon/src/events/mod.rs:9-44 | the encoded event has a `duration_ms` field exactly for exit variants |
| Events.Decode | daemon/src/events/mod.rs:9-44 | a decoded event's tag is the input tag, and an exit variant takes its duration from the input |
| Events.DecodeEncode | daemon/src/events/mod.rs:9-44 | decoding an encoded event gives it back |
| Events.EncodeDecode | daemon/src/events/mod.rs:9-44 | a decoded input re-encodes to itself, except that an ignored `duration_ms` is dropped |
| Events.TagsDistinct | daemon/src/events/mod.rs:10-44 | variants with the same tag are the same variant |
| Events.SerializeDictationComplete | daemon/src/events/mod.rs:72-77 | `DictationComplete { duration_ms: 1500 }` is tagged `dictation_complete` and carries 1500, rendered "1500" |
| Events.DeserializeAgentModeEntered | daemon/src/events/mod.rs:80-84 | the tag `agent_mode_entered` decodes to `AgentModeEntered` |
| Listener.HotkeyListener.constructor | daemon/src/hotkey/listener.rs:37-42 | a new listener is not running |
| Listener.HotkeyListener.Start | daemon/src/hotkey/listener.rs:49-72 | the flag is set in every case; an already running listener gets `AlreadyRunning`; otherwise the spawn outcome decides the result |
| Listener.HotkeyListener.Stop | daemon/src/hotkey/listener.rs:75-79 | the listener is no longer running |
| Listener.HotkeyListener.ThreadFinished | daemon/src/hotkey/listener.rs:66 | the finished listener thread leaves the flag cleared |
| Listener.HotkeyListener.IsRunning | daemon/src/hotkey/listener.rs:82-84 | reads the `running` flag; no contract of its own: the constructor, `Start`, `Stop` and `ThreadFinished` say what the flag is after each |
| Listener.Coalesce | daemon/src/hotkey/listener.rs:171-189 | the snapshots forwarded after `last`: never more than the input, and each one taken from the input |
| Listener.Decoded | daemon/src/hotkey/listener.rs:171-172 | each queued mask becomes the snapshot `from_flags` decodes from it, in order |
| Listener.CoalesceHasNoRepeats | daemon/src/hotkey/listener.rs:171-189 | the forwarded snapshots never repeat back to back, and the first differs from the last one forwarded before |
| Listener.CoalesceSubsequence | daemon/src/hotkey/listener.rs:171-189 | what is forwarded from position `i` on is the input at strictly increasing positions from `i` on |
| Listener.ForwardedFromBounds | daemon/src/hotkey/listener.rs:171-189 | the positions forwarded from position `i` on lie between `i` and the end of the input |
| Listener.ForwardedFromChanges | daemon/src/hotkey/listener.rs:174-188 | from position `i` on, a position is forwarded exactly when its snapshot differs from the one before it |
| Listener.CoalesceKeepsChanges | daemon/src/hotkey/listener.rs:171-189 | forwarding drops exactly the repeats: the forwarded snapshots are the input at strictly increasing positions, a position is among them iff its snapshot differs from the one before it (from `last` for the first), and the last one forwarded is the last input |
| Listener.CoalesceIdempotent | daemon/src/hotkey/listener.rs:171-189 | coalescing an already coalesced sequence changes nothing |
| Listener.NeverForwardsReleasedFirst | daemon/src/hotkey/listener.rs:109-189 | starting from all keys released, the first forwarded snapshot is never all released |
| Listener.CoalesceAdvance | daemon/src/hotkey/listener.rs:171-189 | one more input of the drain either goes out after what was already forwarded or is dropped as a repeat, and coalescing the whole input is unchanged |
| Listener.DrainPending | daemon/src/hotkey/listener.rs:171-189 | with the receiver open, every mask is consumed and exactly the coalesced snapshots are sent; with it closed, nothing is sent, `last_state` does not advance, and draining stops at the first change |
| Machine.StateName | daemon/src/state/machine.rs:33-42 | the display name of each mode; no contract of its own: `StateNamesDistinct` proves it names each mode apart |
| Machine.StateNamesDistinct | daemon/src/state/machine.rs:33-42 | two states display alike iff they are equal |
| Machine.IsRisingEdgeControlCommand | daemon/src/state/machine.rs:163-169 | a rising edge means the snapshot is exactly Control+Command and differs from the previous one |
| Machine.ComputeFromIdle | daemon/src/state/machine.rs:112-124 | Agent exactly on a rising edge; any mode other than Idle needs Control held and not both Option and Command |
| Machine.ComputeFromDictation | daemon/src/state/machine.rs:126-140 | never Agent; staying in Dictation needs Control held |
| Machine.ComputeFromIntelligent | daemon/src/state/machine.rs:142-150 | the result is Idle or Intelligent, never Dictation or Agent |
| Machine.ComputeFromAgent | daemon/src/state/machine.rs:152-161 | the result is Idle or Agent, and Idle only on exactly Control+Command |
| Machine.ComputeNextState | daemon/src/state/machine.rs:102-110 | Agent is entered, and left, only on a rising edge of Control+Command |
| Machine.IdleRules | daemon/src/state/machine.rs:113-124 | from Idle: Agent iff a Control+Command rising edge, Intelligent iff Control+Option, Dictation iff Control alone; all three keys held stays Idle |
| Machine.DictationRules | daemon/src/state/machine.rs:127-140 | from Dictation: never Agent; Intelligent iff Control+Option; Idle iff Control released; Control+Command stays in Dictation |
| Machine.IntelligentRules | daemon/src/state/machine.rs:143-150 | from Intelligent: Idle iff Control or Option is released, otherwise stay; releasing only Option goes to Idle; adding Command is ignored |
| Machine.AgentSticky | daemon/src/state/machine.rs:153-169 | Agent is left, for Idle, exactly on Control+Command without Option while Control and Command were not both held before; full release stays in Agent |
| Machine.TransitionGraph | daemon/src/state/machine.rs:103-169 | every mode change starts or ends at Idle, or upgrades Dictation to Intelligent |
| Machine.MomentaryModesHeld | daemon/src/state/machine.rs:126-150 | Dictation is only the next mode while Control is held, Intelligent only while Control and Option are |
| Machine.ElapsedMillis | daemon/src/state/machine.rs:174-177 | the duration is 0 without an entry time, else the whole milliseconds since entry when they fit in `u64` |
| Machine.ExitEvent | daemon/src/state/machine.rs:202-212 | an exit event exists exactly for non-Idle states; it is the exit variant of that very mode (by `EventMode`) and carries the duration |
| Machine.EntryEvent | daemon/src/state/machine.rs:215-225 | an entry event exists exactly for non-Idle states; it is the start variant of that very mode (by `EventMode`), never an audio event |
| Machine.TransitionEvents | daemon/src/state/machine.rs:186-198 | one event per non-Idle end of the transition, so one or two on a real change; with two, the exit event comes first; every exit event belongs to the old mode and carries the duration, every other event belongs to the new mode |
| Machine.Initial | daemon/src/state/machine.rs:58-65 | the new machine is Idle, has all keys released as the previous snapshot, and has no entry time |
| Machine.Step | daemon/src/state/machine.rs:91-100 | the previous snapshot becomes the input; staying put sends nothing and keeps the entry time; a change sends 1-2 events and records the entry time iff the new mode is not Idle; "entry time present iff not Idle" is preserved |
| Machine.Handle | daemon/src/state/machine.rs:76-85 | `TapDisabled` changes nothing and sends nothing |
| Machine.RunAll | daemon/src/state/machine.rs:73-88 | a run over `n` hotkey events sends at most `2n` state events |
| Machine.RunKeepsConsistent | daemon/src/state/machine.rs:191-195 | "entry time present iff not Idle" holds after any sequence of events |
| Machine.RunAppend | daemon/src/state/machine.rs:76-85 | running two event sequences back to back is running their concatenation |
| Machine.ResendIsNotIgnored | daemon/src/state/machine.rs:119-146 | from Intelligent, Control alone goes to Idle, and the same snapshot sent again enters Dictation |
| Machine.DictationUpgradeScenario | daemon/src/state/machine.rs:286-304 | Control, then Control+Option: Intelligent, with DictationStarted, DictationComplete and IntelligentStarted sent in that order |
| Machine.AgentIgnoresOtherModifiers | daemon/src/state/machine.rs:307-333 | Control+Command enters Agent; Control alone, then Control+Option, leave it there and send nothing |
| Machine.AgentToggleScenario | daemon/src/state/machine.rs:336-358 | Control+Command, full release, Control+Command: back to Idle, with exactly AgentModeEntered and then AgentModeExited carrying the elapsed time |
| Machine.StateMachine.constructor | daemon/src/state/machine.rs:58-65 | the fields hold the initial snapshot and nothing has been sent |
| Machine.StateMachine.HandleModifierChange | daemon/src/state/machine.rs:91-100 | the fields become `Step`'s next snapshot and the log grows by exactly its events |
| Machine.StateMachine.TransitionTo | daemon/src/state/machine.rs:172-199 | the new state, with a fresh entry time iff not Idle; the exit event and then the entry event are appended to the log |
| Machine.StateMachine.EmitExitEvent | daemon/src/state/machine.rs:202-212 | appends `ExitEvent` of the state, that mode's own exit variant, or nothing for Idle |
| Machine.StateMachine.EmitEntryEvent | daemon/src/state/machine.rs:215-225 | appends `EntryEvent` of the state, that mode's own start variant, or nothing for Idle |
| Machine.StateMachine.HandleInput | daemon/src/state/machine.rs:77-84 | one received hotkey event moves the fields to `Handle`'s result and appends its events |
| Machine.StateMachine.Run | daemon/src/state/machine.rs:73-88 | after the loop, the fields are `RunAll`'s final snapshot and the log has grown by all its events, in order |
| Machine.StateMachine.CurrentState | daemon/src/state/machine.rs:67-70 | reads the current mode; no contract of its own: the methods above say what the mode is after each |
| Protocol.DefaultMode | daemon/src/ipc/protocol.rs:21-25 | the default mode is not active (it is Idle) |
| Protocol.ModeName | daemon/src/ipc/protocol.rs:9-19 | the snake_case name of each mode; no contract of its own: `ModeNameBijection` proves names and modes are in bijection |
| Protocol.ModeFromName | daemon/src/ipc/protocol.rs:9-19 | a name that decodes names the mode it decodes to |
| Protocol.ModeNameBijection | daemon/src/ipc/protocol.rs:9-19 | mode names and modes are in bijection |
| Protocol.RequestTag | daemon/src/ipc/protocol.rs:28-39 | the snake_case `type` tag of each request; no contract of its own: `RequestRoundTrip` proves it identifies the variant |
| Protocol.EncodeRequest | daemon/src/ipc/protocol.rs:28-39 | an encoded request has a `mode` field exactly for `set_mode` |
| Protocol.DecodeRequest | daemon/src/ipc/protocol.rs:28-39 | a decoded request's tag is the input tag |
| Protocol.RequestRoundTrip | daemon/src/ipc/protocol.rs:28-39 | decoding an encoded request gives it back |
| Protocol.SetModeDecodesFaithfully | daemon/src/ipc/protocol.rs:34-35 | a decoded `set_mode` re-encodes to exactly its input |
| Protocol.SerializeSetModeDictation | daemon/src/ipc/protocol.rs:90-95 | `SetMode { mode: Dictation }` encodes with `set_mode` and `dictation` |
| Protocol.DefaultStatus | daemon/src/ipc/protocol.rs:74-83 | the default status has the build's version, mode Idle, no hotkey registered and zero uptime |
| Protocol.ResponseTag | daemon/src/ipc/protocol.rs:41-56 | the snake_case `type` tag of each response; no contract of its own: `ResponseTagsDistinct` proves it identifies the variant |
| Protocol.ResponseTagsDistinct | daemon/src/ipc/protocol.rs:41-56 | two responses have the same tag iff they are the same variant |
| Protocol.SerializeDefaultStatus | daemon/src/ipc/protocol.rs:98-102 | `Status(DaemonStatus::default())` is tagged `status` |
| Server.DecodeLength | daemon/src/ipc/server.rs:117 | a 4-byte little-endian header declares a length below 2^32 |
| Server.EncodeLength | daemon/src/ipc/server.rs:138 | `to_le_bytes` gives 4 bytes; `LengthRoundTrip` and `HeaderRoundTrip` prove it inverse to `DecodeLength` |
| Server.LengthRoundTrip | daemon/src/ipc/server.rs:117-138 | decoding the header written for any length below 2^32 gives it back |
| Server.HeaderRoundTrip | daemon/src/ipc/server.rs:117 | every 4-byte header is the encoding of the length it declares |
| Server.ReadFrame | daemon/src/ipc/server.rs:106-125 | end of stream iff fewer than 4 bytes remain; a declared length above 1 MiB is refused; a short body is truncated; a frame is at most 1 MiB and splits the input exactly |
| Server.ReadFrameSplits | daemon/src/ipc/server.rs:117-125 | a frame read is its header, its body and the rest, in that order |
| Server.FrameRoundTrip | daemon/src/ipc/server.rs:117-125 | a frame of at most 1 MiB is read back as written, whatever follows it |
| Server.SizeLimitBoundary | daemon/src/ipc/server.rs:118-121 | a declared length of exactly 1 MiB is accepted and one byte more is refused |
| Server.UptimeSecs | daemon/src/ipc/server.rs:152 | the uptime is the whole seconds elapsed since the start, and 0 for a clock reading before the start |
| Server.Process | daemon/src/ipc/server.rs:146-164 | Ping answers Pong and changes nothing; GetStatus refreshes only the uptime and answers the updated status; SetMode changes only the mode and answers the mode with `active` iff it is not Idle; version and hotkey flag never change |
| Server.ServerState.constructor | daemon/src/ipc/server.rs:55-58 | the shared status starts as `DaemonStatus::default()` and the start time is the clock reading |
| Server.ServerState.ProcessRequest | daemon/src/ipc/server.rs:146-164 | the new status and the response are exactly `Process`'s |
| Server.Serve | daemon/src/ipc/server.rs:103-143 | a connection answers at most one request per 4 bytes received |
| Server.ResponseFrame | daemon/src/ipc/server.rs:137-141 | a written response is a 4-byte header followed by its bytes; the header declares their length when it fits in `u32` |
| Server.HandleClient | daemon/src/ipc/server.rs:103-143 | the loop leaves the status that `Serve` computes and writes exactly the framed responses to `Serve`'s requests, in order; it returns an error iff the connection ended on a truncated body or an unparseable request |
| Server.Exchange | daemon/src/ipc/server.rs:106-141 | one turn either ends the connection where `Serve` ends it, or answers the next request with the response `Serve` gives it, writes that response's frame and moves past the request's frame |
| Server.ProcessAll | daemon/src/ipc/server.rs:146-164 | processing a list of requests gives one response per request |
| Server.OneResponsePerRequest | daemon/src/ipc/server.rs:106-142 | a client sending well-formed frames of valid requests and then closing gets one response per request, in order, and no error |
| Server.OversizedFrameGetsNoResponse | daemon/src/ipc/server.rs:118-121 | a header above 1 MiB ends the connection at once with no response, no status change and no error |
| Server.EndOfStreamClosesCleanly | daemon/src/ipc/server.rs:108-113 | end of input at a frame boundary ends the connection with no response and no error |
| Server.UnparseableFrameFails | daemon/src/ipc/server.rs:128-129 | a complete frame that does not parse ends the connection with an error, no response and no status change |
| Server.TwoMillionByteFrameDisconnects | daemon/src/ipc/server.rs:118-121 | a frame declaring 2,000,000 bytes gets no response |
| EventSync.Project | daemon/src/main.rs:108-118 | audio events map to no mode; the three exit events map to Idle; an event mapping to an active mode is not an exit event |
| EventSync.ProjectInvertsEmitters | daemon/src/main.rs:108-118 | the projection undoes the machine's emitters: the start event of a mode maps to that mode, and its exit event to Idle |
| EventSync.TransitionProjects | daemon/src/main.rs:108-119 | following the events of a real transition, in emission order, leaves the view at the new mode whatever it was |
| EventSync.HandleProjects | daemon/src/main.rs:108-119 | a view at the machine's mode stays at the machine's mode over the events of one handled hotkey event |
| EventSync.RunProjects | daemon/src/main.rs:108-119 | a view at the machine's mode stays at the machine's mode over the events of any run |
| EventSync.UpdateOf | daemon/src/main.rs:104-126 | a receive result hands on at most one mode: the projection of a received non-audio event |
| EventSync.Updates | daemon/src/main.rs:102-128 | the modes handed on for a run of receive results, one result after another: never more modes than results; `SyncLoop` is proved to hand on exactly these |
| EventSync.SyncLoop | daemon/src/main.rs:102-128 | the loop hands on the modes of the results it consumed, in order; a lag is skipped; it stops right after the first `Closed`, and otherwise consumes everything |
| EventSync.UpdatesFollowView | daemon/src/main.rs:102-128 | without loss, the last mode handed on is where the view ends |
| EventSync.SyncFollowsMachine | daemon/src/main.rs:102-128 | without loss, the last mode handed on after any run of the machine is the machine's mode |
| Configuration.Load | daemon/src/config.rs:18-31 | fails iff `HOME` is unset or not Unicode; the data directory is `$HOME/.local/share/second-brain` and the socket is `daemon.sock` in it |
| Configuration.SocketInDataDir | daemon/src/config.rs:25 | the socket path's parent is the data directory and its file name is `daemon.sock` |
| Configuration.SocketPathMentionsApp | daemon/src/config.rs:44-48 | the rendered socket path contains `second-brain` for any `HOME` |

## Left out

- The macOS event tap, the CFRunLoop polling and the listener thread are not modelled: they are OS bindings. The masks the tap callback queued are an input sequence, and whether the receiver is open is a boolean.
- Bind, stale-socket removal, socket permissions, the accept loop, task spawning, `select!` and the shutdown broadcast of the server are not modelled. These are filesystem and network I/O and concurrency, so each connection is modelled on its own.
- Several connections sharing the status under the `RwLock` are not modelled: a connection's status updates are sequential here.
- serde_json is not modelled. The text form of events, requests and responses is a (tag, field) record, and the server loop takes the parser and the encoder as functions.
- Tokio channel semantics are not modelled: capacity, blocking, lag accounting and delivery to several subscribers. A broadcast send appends to a log, and a receive result is an input value.
- EventSync.SyncFollowsMachine: the view is proved to follow the machine only when every event is delivered. After a `Lagged` result the dropped events are unknown, and nothing is promised about the view.
- Real time is not modelled. `Instant::now` and `elapsed` are clock readings passed in, in nanoseconds.
- Server.HandleClient: read and write errors are not modelled. The input is the bytes the client sends before closing, so the error a failed header read returns (other than end of input) cannot arise; a body cut short by end of input is `BodyTruncated`; every response is taken to be written in full.
- Protocol.DefaultStatus: the version is the package version fixed at build time; it is a parameter here.
- Server.UptimeSecs: the result is an unbounded `nat`. `as_secs()` returns a `u64`, which cannot overflow for elapsed seconds of a real clock; the model does not bound the clock readings passed in.
- Listener.HotkeyListener.Start: when spawning the thread fails, the flag stays set, as in the source.
- `Server::with_events`, `set_state`, `Notification` and the subscribe path are referenced but not defined in the code. EventSync records the modes it would hand to `set_state`.
- `Config::ensure_dirs` (directory creation), OS signal handling in lifecycle/shutdown.rs, logging, and the rest of `main`'s start-up are not modelled.
- Configuration.Load: `PathBuf::from(home)` is one path component. Splitting `HOME` at `/` is not modelled, nor the empty `HOME`: Rust's `PathBuf::from("").join(".local")` is the relative `.local`, while the model keeps an empty first component, which `Render` shows as a leading `/`.
- The `mod.rs` files only re-export, and are not part of this model.
