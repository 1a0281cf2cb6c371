/**
 The fields that the supervisor task and the forwarded calls of one hosted upstream share,
 and what each piece of straight-line code between two awaits does to them.
 */
module UpstreamState {
  import opened Wrappers
  import opened Text

  /** Which of tools, resources and prompts the upstream offers. */
  datatype Caps = Caps(tools: bool, resources: bool, prompts: bool)

  /** A downstream session manager; `id` is its object identity. */
  datatype Mgr = Mgr(id: nat, caps: Caps)

  /** The two ways to lose a session. */
  datatype Kind = Rejected | Closed

  /** What the await of one request can raise. */
  datatype Exc =
    | McpError(message: string, connectionClosed: bool)
    | StreamGone            // a closed or broken stream, or its end
    | ValidationError       // a result that does not match the schema
    | OtherError(text: string)

  /** How the await of one request ends. */
  datatype Outcome = Value | Raises(exc: Exc)

  datatype Shared = Shared(
    mgr: Option<Mgr>,
    session: Option<nat>,   // the object identity of the live ClientSession
    generation: nat,
    reconnecting: bool,
    changed: nat,           // which `_changed` event is the current one
    reconnects: nat,
    reason: string,         // last_reconnect_reason
    error: Option<string>,
    disabled: Option<string>,
    blank: Option<string>,  // spec.disabled_reason
    reload: bool,
    stop: bool,
    connected: bool,
    idle: bool
  )

  const INITIAL := Shared(None, None, 0, false, 0, 0, "", None, None, None, false, false, false, true)

  // --- reading an exception -------------------------------------------------

  const SESSION_WORDS := ["not found", "expired", "terminated", "invalid", "unknown"]

  predicate NamesTrouble(text: string) {
    exists i :: 0 <= i < |SESSION_WORDS| && Contains(text, SESSION_WORDS[i])
  }

  function SessionErrorKind(exc: Exc): Option<Kind> {
    match exc
    case McpError(message, connectionClosed) =>
      var text := Lower(message);
      if Contains(text, "session") && NamesTrouble(text) then Some(Rejected)
      else if connectionClosed then Some(Closed)
      else None
    case StreamGone => Some(Closed)
    case _ => None
  }

  /** The reason text that `_reconnect` records. */
  function ReasonOf(exc: Exc): string {
    match exc
    case McpError(message, _) => if message != "" then message else KindText(SessionErrorKind(exc))
    case OtherError(text) => text
    case _ => KindText(SessionErrorKind(exc))
  }

  function KindText(kind: Option<Kind>): string {
    match kind
    case Some(Rejected) => "rejected"
    case Some(Closed) => "closed"
    case None => "error"
  }

  // --- straight-line pieces -------------------------------------------------

  function Notify(u: Shared): Shared {
    u.(changed := u.changed + 1)
  }

  function Drop(u: Shared): Shared {
    Notify(u.(connected := false, session := None))
  }

  function Reconnect(u: Shared, generation: nat, reason: string): Shared {
    if generation != u.generation || u.session.None? then u
    else Drop(u.(reconnects := u.reconnects + 1, reason := reason, reconnecting := true)).(reload := true)
  }

  function Reload(u: Shared): Shared {
    Drop(u.(reconnecting := true)).(reload := true)
  }

  function Disable(u: Shared): Shared {
    Drop(u.(disabled := u.blank)).(reload := true)
  }

  function StopRequested(u: Shared): Shared {
    u.(stop := true, reload := true)
  }

  function StopFinished(u: Shared): Shared {
    Notify(u.(reconnecting := false)).(mgr := None)
  }

  function Live(u: Shared, sid: nat): Shared {
    Notify(u.(session := Some(sid), generation := u.generation + 1, reconnecting := false,
              error := None, idle := false, connected := true))
  }

  /** The `finally` block of `_serve_once`, up to the drain. */
  function Release(u: Shared): Shared {
    Drop(u).(idle := true)
  }

  /** The exception handler of the supervisor loop. */
  function Fail(u: Shared, text: string): Shared {
    Notify(u.(session := None, reconnecting := false)).(error := Some(text))
  }

  // --- one pass of `_wait_session` ------------------------------------------

  datatype Trouble =
    | Down          // "is unavailable; try again later"
    | TryAgain      // "is reconnecting; try again"
    | MayHaveRun    // "closed the connection during the call, so the call may have run"

  datatype Pass = Ready(sid: nat, generation: nat) | Unavailable(why: Trouble) | Sleep(changed: nat)

  /** The test a waiting call makes: a live session newer than `after`. */
  predicate Fresh(u: Shared, after: Option<nat>) {
    u.session.Some? && (after.None? || u.generation != after.value)
  }

  function WaitPass(u: Shared, after: Option<nat>, expired: bool): Pass {
    if Fresh(u, after) then Ready(u.session.value, u.generation)
    else if !u.reconnecting && u.session.None? then Unavailable(Down)
    else if expired then Unavailable(TryAgain)
    else Sleep(u.changed)
  }

  // --- the two `except` blocks of `forward` ---------------------------------

  datatype Verdict = Return | Reraise | Refuse(why: Trouble) | SendAgain

  function AfterFirst(u: Shared, generation: nat, repeatable: bool, o: Outcome): (Shared, Verdict) {
    match o
    case Value => (u, Return)
    case Raises(ValidationError) => (u, Reraise)
    case Raises(exc) =>
      match SessionErrorKind(exc)
      case None => (if exc.McpError? then u else Reconnect(u, generation, ReasonOf(exc)), Reraise)
      case Some(kind) =>
        var v := Reconnect(u, generation, ReasonOf(exc));
        if kind == Closed && !repeatable then (v, Refuse(MayHaveRun)) else (v, SendAgain)
  }

  function AfterSecond(u: Shared, generation: nat, o: Outcome): (Shared, Verdict) {
    match o
    case Value => (u, Return)
    case Raises(ValidationError) => (u, Reraise)
    case Raises(exc) =>
      if SessionErrorKind(exc).None? && exc.McpError? then (u, Reraise)
      else (Reconnect(u, generation, ReasonOf(exc)), Refuse(TryAgain))
  }
}
