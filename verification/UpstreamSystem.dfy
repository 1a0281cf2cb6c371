/**
 The whole machine: one supervisor task, any number of forwarded calls, and the session bindings
 of every server. A step runs one task from one `await` to the next; every `await` counts as a
 point where it can be suspended.
 */
module UpstreamSystem {
  import opened Wrappers
  import opened UpstreamState

  /** Where the supervisor task is suspended. `sid` is the ClientSession it works on. */
  datatype Supervisor =
    | Created
    | Disabled
    | Installing
    | Connecting(sid: nat)
    | Hosting(sid: nat, next: Mgr)    // the new manager is starting
    | Retiring(sid: nat, next: Mgr)   // the old manager is closing
    | Serving(sid: nat)
    | Draining
    | ClosingStreams
    | BackingOff
    | Finished

  /** One time a request was written to a session, and how that ended (None while in flight). */
  datatype Send = Send(sid: nat, generation: nat, outcome: Option<Outcome>, ran: bool)

  datatype CallResult = Returned | Raised(exc: Exc) | Refused(why: Trouble) | Cancelled

  /** Where one `forward` call is. `second` is set once the call is past its first failure. */
  datatype Phase =
    | Waiting(second: bool, after: Option<nat>, changed: nat)
    | Queued(second: bool, sid: nat, generation: nat)
    | InFlight(second: bool, sid: nat, generation: nat)
    | Ended(result: CallResult)

  datatype Call = Call(repeatable: bool, phase: Phase, sends: seq<Send>)

  /** The person and conversation one session key belongs to. */
  datatype Binding = Binding(person: Option<string>, conversation: Option<string>)

  type SessionKey = (string, string)

  datatype Sys = Sys(
    name: string,
    u: Shared,
    sup: Supervisor,
    stopping: bool,            // stop() waits for the downstream manager to close
    made: nat,               // ClientSession objects made so far
    installed: nat,            // the newest one that went live
    managers: nat,             // managers made so far
    lock: Option<nat>,         // the call that holds `_lock`
    calls: map<nat, Call>,
    bindings: map<SessionKey, Binding>
  )

  function Init(name: string): Sys {
    Sys(name, INITIAL, Created, false, 0, 0, 0, None, map[], map[])
  }

  // --- session bindings -----------------------------------------------------

  datatype Conflict = PersonChanged | ConversationChanged

  function CheckBinding(bindings: map<SessionKey, Binding>, key: SessionKey, who: Binding): Option<Conflict> {
    if key !in bindings then None
    else if who.person.Some? && bindings[key].person != who.person then Some(PersonChanged)
    else if who.conversation.Some? && bindings[key].conversation != who.conversation then Some(ConversationChanged)
    else None
  }

  /** What a request leaves behind: a new binding, the old one, or none after a conflict. */
  function Bind(bindings: map<SessionKey, Binding>, key: SessionKey, who: Binding): map<SessionKey, Binding> {
    if key !in bindings then bindings[key := who]
    else if CheckBinding(bindings, key, who).Some? then bindings - {key}
    else bindings
  }

  function ClearServer(bindings: map<SessionKey, Binding>, server: string): map<SessionKey, Binding> {
    map k | k in bindings && k.0 != server :: bindings[k]
  }

  // --- steps ----------------------------------------------------------------

  datatype Label =
    // requests of the control surface
    | UpdateSpec(blank: Option<string>)
    | DoReload
    | DoDisable
    | NotifyBroken(reason: string)
    | DoStop
    | StopJoin
    | StopClosed
    // the supervisor
    | Begin
    | ReloadWakes
    | Installed
    | Connected(caps: Caps)
    | Hosted
    | Retired
    | Released
    | Drained
    | StreamsClosed
    | Crash(text: string)
    | BackoffEnds
    // one forwarded call
    | Enter(c: nat, repeatable: bool, expired: bool)
    | Wake(c: nat, expired: bool)
    | Grant(c: nat)
    | Answer(c: nat, outcome: Outcome, ran: bool, expired: bool)
    | Cancel(c: nat, ran: bool)
    // one downstream request reaching `_forward`
    | Request(key: SessionKey, who: Binding)

  /**
   The environment assumption: a rejected request did not run, and a request whose result came
   back did.
   */
  predicate Possible(outcome: Outcome, ran: bool) {
    && (outcome.Raises? && SessionErrorKind(outcome.exc) == Some(Rejected) ==> !ran)
    && (outcome.Value? || outcome == Raises(ValidationError) ==> ran)
  }

  /** From the head of the supervisor loop to its next await. */
  function Top(s: Sys): Sys {
    if s.u.stop then s.(sup := Finished)
    else
      var u := s.u.(reload := false, idle := true);
      if u.blank.Some? then
        s.(u := Notify(u.(disabled := u.blank, error := None, reconnecting := false)), sup := Disabled)
      else s.(u := u.(disabled := None), sup := Installing)
  }

  function GoLive(s: Sys, sid: nat): Sys {
    s.(u := Live(s.u, sid), sup := Serving(sid), installed := sid)
  }

  /** `_ensure_mgr` up to its first await, for capabilities `caps`. */
  function EnsureMgr(s: Sys, sid: nat, caps: Caps): Sys {
    if s.u.mgr.Some? && s.u.mgr.value.caps == caps then GoLive(s, sid)
    else s.(sup := Hosting(sid, Mgr(s.managers, caps)), managers := s.managers + 1)
  }

  predicate CanCrash(sup: Supervisor) {
    sup.Installing? || sup.Connecting? || sup.Hosting? || sup.Retiring? || sup.ClosingStreams?
  }

  function Supervise(s: Sys, l: Label): Option<Sys> {
    match l
    case Begin => if s.sup.Created? then Some(Top(s)) else None
    case ReloadWakes => if s.sup.Disabled? && s.u.reload then Some(Top(s)) else None
    case Installed =>
      if s.sup.Installing? then Some(s.(sup := Connecting(s.made + 1), made := s.made + 1)) else None
    case Connected(caps) => if s.sup.Connecting? then Some(EnsureMgr(s, s.sup.sid, caps)) else None
    case Hosted =>
      if !s.sup.Hosting? then None
      else if s.u.mgr.Some? then Some(s.(u := s.u.(mgr := None), sup := Retiring(s.sup.sid, s.sup.next)))
      else Some(GoLive(s.(u := s.u.(mgr := Some(s.sup.next))), s.sup.sid))
    case Retired =>
      if !s.sup.Retiring? then None
      else Some(GoLive(s.(u := s.u.(mgr := Some(s.sup.next)), bindings := ClearServer(s.bindings, s.name)), s.sup.sid))
    case Released =>
      // the reload event, or a transport failure that ends the wait
      if s.sup.Serving? then Some(s.(u := Release(s.u), sup := Draining)) else None
    case Drained => if s.sup.Draining? then Some(s.(sup := ClosingStreams)) else None
    case StreamsClosed => if s.sup.ClosingStreams? then Some(Top(s)) else None
    case Crash(text) => if CanCrash(s.sup) then Some(s.(u := Fail(s.u, text), sup := BackingOff)) else None
    case BackoffEnds => if s.sup.BackingOff? then Some(Top(s)) else None
    case _ => None
  }

  function Control(s: Sys, l: Label): Option<Sys> {
    match l
    case UpdateSpec(blank) => Some(s.(u := s.u.(blank := blank)))
    case DoReload => Some(s.(u := Reload(s.u)))
    case DoDisable => Some(s.(u := Disable(s.u)))
    case NotifyBroken(reason) => Some(s.(u := Reconnect(s.u, s.u.generation, reason)))
    case DoStop => Some(s.(u := StopRequested(s.u)))
    case StopJoin =>
      if s.u.stop && s.sup.Finished? then Some(s.(u := StopFinished(s.u), stopping := s.u.mgr.Some?)) else None
    case StopClosed =>
      if s.stopping then Some(s.(stopping := false, bindings := ClearServer(s.bindings, s.name))) else None
    case Request(key, who) => Some(s.(bindings := Bind(s.bindings, key, who)))
    case _ => None
  }

  function PhaseOf(pass: Pass, second: bool, after: Option<nat>): Phase {
    match pass
    case Ready(sid, generation) => Queued(second, sid, generation)
    case Unavailable(why) => Ended(Refused(why))
    case Sleep(changed) => Waiting(second, after, changed)
  }

  function PutCall(s: Sys, c: nat, call: Call): Sys {
    s.(calls := s.calls[c := call])
  }

  function Finish(sends: seq<Send>, outcome: Option<Outcome>, ran: bool): seq<Send> {
    if sends == [] then sends
    else sends[|sends| - 1 := sends[|sends| - 1].(outcome := outcome, ran := ran)]
  }

  /** What `forward` does once the awaited request of `call` has ended with `outcome`. */
  function Resume(s: Sys, c: nat, call: Call, outcome: Outcome, expired: bool): Sys
    requires call.phase.InFlight?
  {
    var second, generation := call.phase.second, call.phase.generation;
    var (u, verdict) :=
      if second then AfterSecond(s.u, generation, outcome)
      else AfterFirst(s.u, generation, call.repeatable, outcome);
    var phase := match verdict
      case Return => Ended(Returned)
      case Reraise => Ended(Raised(if outcome.Raises? then outcome.exc else ValidationError))
      case Refuse(why) => Ended(Refused(why))
      case SendAgain => PhaseOf(WaitPass(u, Some(generation), expired), true, Some(generation));
    PutCall(s.(u := u, lock := None), c, call.(phase := phase))
  }

  function Forward(s: Sys, l: Label): Option<Sys> {
    match l
    case Enter(c, repeatable, expired) =>
      if c in s.calls then None
      else Some(PutCall(s, c, Call(repeatable, PhaseOf(WaitPass(s.u, None, expired), false, None), [])))
    case Wake(c, expired) =>
      if c !in s.calls || !s.calls[c].phase.Waiting? then None
      else
        var call := s.calls[c];
        var p := call.phase;
        if p.changed == s.u.changed && !expired then None
        else Some(PutCall(s, c, call.(phase := PhaseOf(WaitPass(s.u, p.after, expired), p.second, p.after))))
    case Grant(c) =>
      if c !in s.calls || !s.calls[c].phase.Queued? || s.lock.Some? then None
      else
        var call := s.calls[c];
        var p := call.phase;
        Some(PutCall(s.(lock := Some(c)), c, call.(
          phase := InFlight(p.second, p.sid, p.generation),
          sends := call.sends + [Send(p.sid, p.generation, None, false)])))
    case Answer(c, outcome, ran, expired) =>
      if c !in s.calls || !s.calls[c].phase.InFlight? || !Possible(outcome, ran) then None
      else
        var call := s.calls[c];
        Some(Resume(s, c, call.(sends := Finish(call.sends, Some(outcome), ran)), outcome, expired))
    case Cancel(c, ran) =>
      if c !in s.calls || s.calls[c].phase.Ended? then None
      else
        var call := s.calls[c];
        if call.phase.InFlight? then
          Some(PutCall(s.(lock := None), c, call.(phase := Ended(Cancelled), sends := Finish(call.sends, None, ran))))
        else Some(PutCall(s, c, call.(phase := Ended(Cancelled))))
    case _ => None
  }

  predicate IsForward(l: Label) {
    l.Enter? || l.Wake? || l.Grant? || l.Answer? || l.Cancel?
  }

  predicate IsSupervisor(l: Label) {
    || l.Begin? || l.ReloadWakes? || l.Installed? || l.Connected? || l.Hosted? || l.Retired?
    || l.Released? || l.Drained? || l.StreamsClosed? || l.Crash? || l.BackoffEnds?
  }

  /** One step, or None when `l` is not possible in `s`. */
  function Step(s: Sys, l: Label): Option<Sys> {
    if IsForward(l) then Forward(s, l)
    else if IsSupervisor(l) then Supervise(s, l)
    else Control(s, l)
  }

  /** A run: every label in turn, or None when one is not possible. */
  function Run(s: Sys, labels: seq<Label>): Option<Sys>
    decreases labels
  {
    if labels == [] then Some(s)
    else match Step(s, labels[0])
      case None => None
      case Some(t) => Run(t, labels[1..])
  }

  /** Some interleaving leads from the start of the gateway to `s`. */
  ghost predicate Reachable(name: string, s: Sys) {
    exists labels :: Run(Init(name), labels) == Some(s)
  }

  lemma {:induction false} RunConcat(s: Sys, left: seq<Label>, t: Sys, right: seq<Label>)
    requires Run(s, left) == Some(t)
    ensures Run(s, left + right) == Run(t, right)
    decreases left
  {
    if left == [] {
      assert left + right == right;
    } else {
      assert (left + right)[1..] == left[1..] + right;
      RunConcat(Step(s, left[0]).value, left[1..], t, right);
    }
  }

  lemma ReachableStep(name: string, s: Sys, l: Label)
    requires Reachable(name, s) && Step(s, l).Some?
    ensures Reachable(name, Step(s, l).value)
  {
    var labels :| Run(Init(name), labels) == Some(s);
    RunConcat(Init(name), labels, s, [l]);
    assert Run(s, [l]) == Run(Step(s, l).value, []);
    assert Run(Init(name), labels + [l]) == Step(s, l);
  }
}
