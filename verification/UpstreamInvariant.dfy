/** What every reachable state of the upstream machine keeps. */
module UpstreamInvariant {
  import opened Wrappers
  import opened UpstreamState
  import opened UpstreamSystem

  /** The supervisor is on its way to a connect, an error or a disabled entry by itself. */
  predicate Working(sup: Supervisor) {
    || sup.Installing? || sup.Connecting? || sup.Hosting? || sup.Retiring?
    || sup.Draining? || sup.ClosingStreams?
  }

  ghost predicate SharedInv(s: Sys) {
    var u := s.u;
    && (u.connected <==> u.session.Some?)
    && (u.session.Some? ==>
          && s.sup == Serving(u.session.value) && u.session.value == s.installed
          && !u.reconnecting && u.error.None?
          && u.mgr.Some? && u.reconnects < u.generation)
    && (s.sup.Serving? && u.session.None? ==> u.reload)
    && u.reconnects <= u.generation
    && (u.stop ==> u.reload)
    && (u.reconnecting ==> u.reload || Working(s.sup))
    && (u.disabled.Some? ==> u.reload || s.sup.Disabled?)
    && (u.idle <==> !s.sup.Serving?)
    && s.installed <= s.made
    && (s.sup.Connecting? || s.sup.Hosting? || s.sup.Retiring? ==> s.installed < s.sup.sid <= s.made)
    && (u.mgr.Some? ==> u.mgr.value.id < s.managers)
    && (s.sup.Hosting? || s.sup.Retiring? ==>
          s.sup.next.id < s.managers && (u.mgr.Some? ==> u.mgr.value.id < s.sup.next.id))
    && (s.stopping ==> s.sup.Finished?)
  }

  /** The first send of `call` failed in a way that lets `forward` send once more. */
  predicate Resendable(repeatable: bool, first: Send) {
    && first.outcome.Some? && first.outcome.value.Raises?
    && var kind := SessionErrorKind(first.outcome.value.exc);
       kind == Some(Rejected) || (kind == Some(Closed) && repeatable)
  }

  /** A request that was written and not refused by session id can have run. */
  predicate Consistent(send: Send) {
    && (send.outcome.Some? ==> Possible(send.outcome.value, send.ran))
  }

  /** `generation` went live with `sid`, as far as the present state tells. */
  predicate Captured(s: Sys, sid: nat, generation: nat) {
    && generation <= s.u.generation
    && (if generation == s.u.generation then sid == s.installed else sid < s.installed)
  }

  /** The session of `generation` is gone for good. */
  predicate Lost(s: Sys, generation: nat) {
    s.u.session.None? || generation < s.u.generation
  }

  /** `call` is past a first failure it may recover from. */
  predicate PastFirst(s: Sys, call: Call) {
    && |call.sends| >= 1
    && Resendable(call.repeatable, call.sends[0])
    && Lost(s, call.sends[0].generation)
  }

  predicate PhaseInv(s: Sys, c: nat, call: Call) {
    match call.phase
    case Waiting(second, after, changed) =>
      && changed <= s.u.changed
      && (changed == s.u.changed ==> s.u.session.None? && s.u.reconnecting)
      && |call.sends| == (if second then 1 else 0)
      && (if second then PastFirst(s, call) && after == Some(call.sends[0].generation) else after.None?)
    case Queued(second, sid, generation) =>
      && Captured(s, sid, generation)
      && |call.sends| == (if second then 1 else 0)
      && (second ==> PastFirst(s, call) && call.sends[0].generation < generation && call.sends[0].sid < sid)
    case InFlight(second, sid, generation) =>
      && s.lock == Some(c)
      && |call.sends| == (if second then 2 else 1)
      && call.sends[|call.sends| - 1].sid == sid && call.sends[|call.sends| - 1].generation == generation
      && call.sends[|call.sends| - 1].outcome.None?
    case Ended(result) =>
      && (result.Returned? ==> call.sends != [] && call.sends[|call.sends| - 1].outcome == Some(Value))
      && (result.Raised? ==> call.sends != [] && call.sends[|call.sends| - 1].outcome == Some(Raises(result.exc)))
      && (result == Refused(Down) ==> |call.sends| <= 1)
      && (result == Refused(Down) || result == Refused(TryAgain) ==>
            |call.sends| == 1 ==> Resendable(call.repeatable, call.sends[0]))
      && (result == Refused(MayHaveRun) ==>
            && |call.sends| == 1 && !call.repeatable && call.sends[0].outcome.Some?
            && call.sends[0].outcome.value.Raises?
            && SessionErrorKind(call.sends[0].outcome.value.exc) == Some(Closed))
      && (result == Refused(TryAgain) && |call.sends| == 2 ==>
            && call.sends[1].outcome.Some? && call.sends[1].outcome.value.Raises?
            && call.sends[1].outcome.value != Raises(ValidationError))
  }

  /** The history of one call, whatever it does next. */
  predicate SendsInv(s: Sys, call: Call) {
    && |call.sends| <= 2
    && (forall i | 0 <= i < |call.sends| ::
          && Captured(s, call.sends[i].sid, call.sends[i].generation) && Consistent(call.sends[i]))
    && (|call.sends| == 2 ==>
          && Resendable(call.repeatable, call.sends[0])
          && call.sends[0].generation < call.sends[1].generation
          && call.sends[0].sid < call.sends[1].sid)
  }

  predicate CallInv(s: Sys, c: nat, call: Call) {
    PhaseInv(s, c, call) && SendsInv(s, call)
  }

  ghost predicate LockInv(s: Sys) {
    s.lock.Some? ==> s.lock.value in s.calls && s.calls[s.lock.value].phase.InFlight?
  }

  ghost predicate Inv(s: Sys) {
    && SharedInv(s)
    && LockInv(s)
    && (forall c | c in s.calls :: CallInv(s, c, s.calls[c]))
  }

  // --- what a step may do to the state a suspended call relies on ------------

  /** `t` is later than `s` and every call of `s` may keep its own phase. */
  predicate Later(s: Sys, t: Sys) {
    && s.u.generation <= t.u.generation
    && s.u.changed <= t.u.changed
    && (t.u.generation == s.u.generation ==> t.installed == s.installed)
    && (t.u.generation > s.u.generation ==> t.installed > s.installed)
    && (t.u.session.Some? && s.u.session.None? ==> t.u.generation > s.u.generation)
    && (t.u.changed == s.u.changed ==> t.u.session == s.u.session && t.u.reconnecting == s.u.reconnecting)
  }

  lemma CallKept(s: Sys, t: Sys, c: nat, call: Call)
    requires CallInv(s, c, call) && Later(s, t)
    requires call.phase.InFlight? ==> t.lock == s.lock
    ensures CallInv(t, c, call)
  {
    forall i | 0 <= i < |call.sends|
      ensures Captured(t, call.sends[i].sid, call.sends[i].generation)
    {
      assert Captured(s, call.sends[i].sid, call.sends[i].generation);
    }
  }

  /** A step of the supervisor or of the control surface leaves calls and lock alone. */
  lemma OthersKept(s: Sys, t: Sys)
    requires Inv(s) && SharedInv(t) && Later(s, t) && t.calls == s.calls && t.lock == s.lock
    ensures Inv(t)
  {
    forall c | c in t.calls ensures CallInv(t, c, t.calls[c]) {
      CallKept(s, t, c, s.calls[c]);
    }
  }

  /** A step of call `c` keeps the other calls, which never hold the lock that `c` holds. */
  lemma OneCallMoved(s: Sys, t: Sys, c: nat)
    requires Inv(s) && SharedInv(t) && Later(s, t)
    requires t.calls.Keys == s.calls.Keys + {c}
    requires forall d | d in s.calls && d != c :: t.calls[d] == s.calls[d]
    requires CallInv(t, c, t.calls[c])
    requires s.lock == t.lock || (s.lock.None? && t.lock == Some(c)) || (s.lock == Some(c) && t.lock.None?)
    requires t.lock == Some(c) ==> t.calls[c].phase.InFlight?
    ensures Inv(t)
  {
    forall d | d in t.calls ensures CallInv(t, d, t.calls[d]) {
      if d != c {
        assert CallInv(s, d, s.calls[d]);
        CallKept(s, t, d, s.calls[d]);
      }
    }
  }

  lemma TopKeeps(s: Sys)
    requires SharedInv(s) && !s.sup.Serving? && s.u.session.None? && !s.stopping
    ensures SharedInv(Top(s)) && Later(s, Top(s))
  {
  }

  /** A connect with manager `mgr`, new or kept, leaves a sound live state. */
  lemma GoLiveKeeps(s: Sys, sid: nat, mgr: Mgr, t: Sys)
    requires SharedInv(s) && mgr.id < s.managers
    requires s.sup.Connecting? || s.sup.Hosting? || s.sup.Retiring?
    requires sid == s.sup.sid
    requires t == GoLive(s.(u := s.u.(mgr := Some(mgr)), bindings := t.bindings), sid)
    ensures SharedInv(t) && Later(s, t)
  {
  }

  lemma SuperviseShared(s: Sys, l: Label, t: Sys)
    requires SharedInv(s) && Supervise(s, l) == Some(t)
    ensures SharedInv(t) && Later(s, t)
  {
    match l
    case Begin => TopKeeps(s);
    case ReloadWakes => TopKeeps(s);
    case StreamsClosed => TopKeeps(s);
    case BackoffEnds => TopKeeps(s);
    case Connected(caps) =>
      if s.u.mgr.Some? && s.u.mgr.value.caps == caps {
        GoLiveKeeps(s, s.sup.sid, s.u.mgr.value, t);
      }
    case Hosted =>
      if s.u.mgr.None? {
        GoLiveKeeps(s, s.sup.sid, s.sup.next, t);
      }
    case Retired => GoLiveKeeps(s, s.sup.sid, s.sup.next, t);
    case _ =>
  }

  lemma ControlShared(s: Sys, l: Label, t: Sys)
    requires SharedInv(s) && Control(s, l) == Some(t)
    ensures SharedInv(t) && Later(s, t)
  {
    hide SharedInv, Later;
    match l
    case UpdateSpec(blank) => SpecShared(s, blank);
    case DoReload => ReloadShared(s);
    case DoDisable => DisableShared(s);
    case NotifyBroken(reason) => var r := ReconnectKeeps(s, s.u.generation, reason);
    case DoStop => StopShared(s);
    case StopJoin => StopJoinShared(s);
    case StopClosed => BindingsShared(s, ClearServer(s.bindings, s.name), false);
    case Request(key, who) => BindingsShared(s, Bind(s.bindings, key, who), s.stopping);
  }

  lemma SpecShared(s: Sys, blank: Option<string>)
    requires SharedInv(s)
    ensures var t := s.(u := s.u.(blank := blank)); SharedInv(t) && Later(s, t)
  {
  }

  lemma ReloadShared(s: Sys)
    requires SharedInv(s)
    ensures var t := s.(u := Reload(s.u)); SharedInv(t) && Later(s, t)
  {
  }

  lemma DisableShared(s: Sys)
    requires SharedInv(s)
    ensures var t := s.(u := Disable(s.u)); SharedInv(t) && Later(s, t)
  {
  }

  lemma StopShared(s: Sys)
    requires SharedInv(s)
    ensures var t := s.(u := StopRequested(s.u)); SharedInv(t) && Later(s, t)
  {
  }

  lemma StopJoinShared(s: Sys)
    requires SharedInv(s) && s.sup.Finished?
    ensures var t := s.(u := StopFinished(s.u), stopping := s.u.mgr.Some?); SharedInv(t) && Later(s, t)
  {
  }

  lemma BindingsShared(s: Sys, bindings: map<SessionKey, Binding>, stopping: bool)
    requires SharedInv(s) && (stopping ==> s.stopping)
    ensures var t := s.(bindings := bindings, stopping := stopping); SharedInv(t) && Later(s, t)
  {
  }

  /** One pass of `_wait_session` puts a call that is past `sends` into a sound phase. */
  lemma PassKeeps(t: Sys, c: nat, call: Call, second: bool, after: Option<nat>, expired: bool)
    requires SharedInv(t) && SendsInv(t, call)
    requires |call.sends| == (if second then 1 else 0)
    requires if second then PastFirst(t, call) && after == Some(call.sends[0].generation) else after.None?
    requires call.phase == PhaseOf(WaitPass(t.u, after, expired), second, after)
    ensures CallInv(t, c, call) && !call.phase.InFlight?
  {
    if second {
      assert Captured(t, call.sends[0].sid, call.sends[0].generation);
    }
  }

  lemma ReconnectKeeps(s: Sys, generation: nat, reason: string) returns (t: Sys)
    requires SharedInv(s) && generation <= s.u.generation
    ensures t == s.(u := Reconnect(s.u, generation, reason))
    ensures SharedInv(t) && Later(s, t) && Lost(t, generation)
  {
    t := s.(u := Reconnect(s.u, generation, reason));
  }

  /** `Finish` fills in the last send and keeps the history sound. */
  lemma FinishKeeps(s: Sys, call: Call, outcome: Option<Outcome>, ran: bool)
    requires SendsInv(s, call) && (outcome.Some? ==> Possible(outcome.value, ran))
    requires call.sends != [] && call.sends[|call.sends| - 1].outcome.None?
    ensures SendsInv(s, call.(sends := Finish(call.sends, outcome, ran)))
  {
    var sends := Finish(call.sends, outcome, ran);
    forall i | 0 <= i < |sends|
      ensures Captured(s, sends[i].sid, sends[i].generation) && Consistent(sends[i])
    {
      assert Captured(s, call.sends[i].sid, call.sends[i].generation) && Consistent(call.sends[i]);
    }
  }

  lemma SendsKept(s: Sys, t: Sys, call: Call)
    requires SendsInv(s, call) && Later(s, t)
    ensures SendsInv(t, call)
  {
    forall i | 0 <= i < |call.sends|
      ensures Captured(t, call.sends[i].sid, call.sends[i].generation) && Consistent(call.sends[i])
    {
      assert Captured(s, call.sends[i].sid, call.sends[i].generation) && Consistent(call.sends[i]);
    }
  }

  /** Whatever the outcome, the shared fields move at most by one `_reconnect`. */
  lemma AfterMoves(s: Sys, generation: nat, repeatable: bool, second: bool, outcome: Outcome, u: Shared)
    requires SharedInv(s) && generation <= s.u.generation
    requires u == (if second then AfterSecond(s.u, generation, outcome)
                   else AfterFirst(s.u, generation, repeatable, outcome)).0
    ensures SharedInv(s.(u := u)) && Later(s, s.(u := u))
    ensures !second && AfterFirst(s.u, generation, repeatable, outcome).1 == SendAgain ==> Lost(s.(u := u), generation)
  {
    if outcome.Raises? {
      var t := ReconnectKeeps(s, generation, ReasonOf(outcome.exc));
    }
  }

  /** The phase in which `forward` leaves a call whose request has just ended. */
  lemma ResumedPhase(s: Sys, t: Sys, c: nat, call: Call, after: Call, outcome: Outcome, expired: bool)
    requires SharedInv(t) && SendsInv(t, call) && call.phase.InFlight?
    requires |call.sends| == (if call.phase.second then 2 else 1)
    requires call.sends[|call.sends| - 1].outcome == Some(outcome)
    requires call.sends[|call.sends| - 1].generation == call.phase.generation <= s.u.generation
    requires SharedInv(s)
    requires var r := Resume(s, c, call, outcome, expired); t.u == r.u && after == r.calls[c]
    ensures CallInv(t, c, after)
  {
    AfterMoves(s, call.phase.generation, call.repeatable, call.phase.second, outcome, t.u);
    if call.phase.second {
      assert after.phase.Ended?;
    } else if AfterFirst(s.u, call.phase.generation, call.repeatable, outcome).1 == SendAgain {
      assert Lost(s.(u := t.u), call.phase.generation);
      assert PastFirst(t, after);
      PassKeeps(t, c, after, true, Some(call.phase.generation), expired);
    } else {
      assert after.phase.Ended?;
    }
  }

  lemma ResumedShared(s: Sys, c: nat, outcome: Outcome, ran: bool, expired: bool, t: Sys)
    requires SharedInv(s) && c in s.calls && CallInv(s, c, s.calls[c])
    requires Forward(s, Answer(c, outcome, ran, expired)) == Some(t)
    ensures SharedInv(t) && Later(s, t)
  {
    var before := s.calls[c];
    var n := |before.sends| - 1;
    assert Captured(s, before.sends[n].sid, before.sends[n].generation);
    AfterMoves(s, before.phase.generation, before.repeatable, before.phase.second, outcome, t.u);
  }

  lemma ResumedCall(s: Sys, c: nat, outcome: Outcome, ran: bool, expired: bool, t: Sys)
    requires SharedInv(s) && c in s.calls && CallInv(s, c, s.calls[c])
    requires Forward(s, Answer(c, outcome, ran, expired)) == Some(t) && SharedInv(t) && Later(s, t)
    ensures CallInv(t, c, t.calls[c])
  {
    var before := s.calls[c];
    var call := before.(sends := Finish(before.sends, Some(outcome), ran));
    var n := |call.sends| - 1;
    assert Captured(s, before.sends[n].sid, before.sends[n].generation);
    FinishKeeps(s, before, Some(outcome), ran);
    SendsKept(s, t, call);
    ResumedPhase(s, t, c, call, t.calls[c], outcome, expired);
  }

  lemma ResumeKeeps(s: Sys, c: nat, outcome: Outcome, ran: bool, expired: bool, t: Sys)
    requires Inv(s) && Forward(s, Answer(c, outcome, ran, expired)) == Some(t)
    ensures Inv(t)
  {
    assert CallInv(s, c, s.calls[c]);
    ResumedShared(s, c, outcome, ran, expired, t);
    ResumedCall(s, c, outcome, ran, expired, t);
    OneCallMoved(s, t, c);
  }

  lemma EnterKeeps(s: Sys, c: nat, repeatable: bool, expired: bool, t: Sys)
    requires Inv(s) && Forward(s, Enter(c, repeatable, expired)) == Some(t)
    ensures Inv(t)
  {
    PassKeeps(t, c, t.calls[c], false, None, expired);
    OneCallMoved(s, t, c);
  }

  lemma WakeKeeps(s: Sys, c: nat, expired: bool, t: Sys)
    requires Inv(s) && Forward(s, Wake(c, expired)) == Some(t)
    ensures Inv(t)
  {
    var call := s.calls[c];
    assert CallInv(s, c, call);
    SendsKept(s, t, call);
    PassKeeps(t, c, t.calls[c], call.phase.second, call.phase.after, expired);
    OneCallMoved(s, t, c);
  }

  lemma GrantedCall(s: Sys, c: nat, t: Sys)
    requires c in s.calls && CallInv(s, c, s.calls[c])
    requires Forward(s, Grant(c)) == Some(t)
    ensures CallInv(t, c, t.calls[c])
  {
    var call := s.calls[c];
    var n := |call.sends|;
    assert t.calls[c].sends[..n] == call.sends;
    forall i | 0 <= i < n + 1
      ensures Captured(t, t.calls[c].sends[i].sid, t.calls[c].sends[i].generation) && Consistent(t.calls[c].sends[i])
    {
      if i < n {
        assert Captured(s, call.sends[i].sid, call.sends[i].generation) && Consistent(call.sends[i]);
      }
    }
  }

  lemma GrantKeeps(s: Sys, c: nat, t: Sys)
    requires Inv(s) && Forward(s, Grant(c)) == Some(t)
    ensures Inv(t)
  {
    assert CallInv(s, c, s.calls[c]);
    GrantedCall(s, c, t);
    OneCallMoved(s, t, c);
  }

  lemma CancelledCall(s: Sys, c: nat, ran: bool, t: Sys)
    requires c in s.calls && CallInv(s, c, s.calls[c])
    requires Forward(s, Cancel(c, ran)) == Some(t)
    ensures CallInv(t, c, t.calls[c])
  {
    var call := s.calls[c];
    if call.phase.InFlight? {
      FinishKeeps(s, call, None, ran);
      SendsKept(s, t, call.(sends := Finish(call.sends, None, ran)));
    } else {
      SendsKept(s, t, call);
    }
  }

  lemma CancelKeeps(s: Sys, c: nat, ran: bool, t: Sys)
    requires Inv(s) && Forward(s, Cancel(c, ran)) == Some(t)
    ensures Inv(t)
  {
    assert CallInv(s, c, s.calls[c]);
    CancelledCall(s, c, ran, t);
    OneCallMoved(s, t, c);
  }

  lemma ForwardKeeps(s: Sys, l: Label, t: Sys)
    requires Inv(s) && Forward(s, l) == Some(t)
    ensures Inv(t)
  {
    match l
    case Enter(c, repeatable, expired) => EnterKeeps(s, c, repeatable, expired, t);
    case Wake(c, expired) => WakeKeeps(s, c, expired, t);
    case Grant(c) => GrantKeeps(s, c, t);
    case Answer(c, outcome, ran, expired) => ResumeKeeps(s, c, outcome, ran, expired, t);
    case Cancel(c, ran) => CancelKeeps(s, c, ran, t);
  }

  lemma SuperviseLeavesCalls(s: Sys, l: Label, t: Sys)
    requires Supervise(s, l) == Some(t)
    ensures t.calls == s.calls && t.lock == s.lock
  {
  }

  lemma ControlLeavesCalls(s: Sys, l: Label, t: Sys)
    requires Control(s, l) == Some(t)
    ensures t.calls == s.calls && t.lock == s.lock
  {
  }

  lemma SuperviseKeeps(s: Sys, l: Label, t: Sys)
    requires Inv(s) && Supervise(s, l) == Some(t)
    ensures Inv(t)
  {
    SuperviseShared(s, l, t);
    SuperviseLeavesCalls(s, l, t);
    OthersKept(s, t);
  }

  lemma ControlKeeps(s: Sys, l: Label, t: Sys)
    requires Inv(s) && Control(s, l) == Some(t)
    ensures Inv(t)
  {
    ControlShared(s, l, t);
    ControlLeavesCalls(s, l, t);
    OthersKept(s, t);
  }

  lemma StepKeeps(s: Sys, l: Label, t: Sys)
    requires Inv(s) && Step(s, l) == Some(t)
    ensures Inv(t)
  {
    if IsForward(l) {
      ForwardKeeps(s, l, t);
    } else if IsSupervisor(l) {
      SuperviseKeeps(s, l, t);
    } else {
      ControlKeeps(s, l, t);
    }
  }

  lemma {:induction false} RunKeeps(s: Sys, labels: seq<Label>, t: Sys)
    requires Inv(s) && Run(s, labels) == Some(t)
    ensures Inv(t)
    decreases labels
  {
    if labels != [] {
      StepKeeps(s, labels[0], Step(s, labels[0]).value);
      RunKeeps(Step(s, labels[0]).value, labels[1..], t);
    }
  }

  /** Every reachable state keeps the invariant. */
  lemma ReachableKeeps(name: string, s: Sys)
    requires Reachable(name, s)
    ensures Inv(s)
  {
    var labels :| Run(Init(name), labels) == Some(s);
    RunKeeps(Init(name), labels, s);
  }
}
