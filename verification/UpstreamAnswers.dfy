/** What a caller of `forward` gets to see of each failure. */
module UpstreamAnswers {
  import opened Wrappers
  import opened Text
  import opened UpstreamState
  import opened UpstreamSystem
  import opened UpstreamInvariant
  import opened UpstreamTheorems

  /** Errors of a second send that go back as they are: a schema error, a plain JSON-RPC error. */
  predicate HandedOn(exc: Exc) {
    exc.ValidationError? || (exc.McpError? && SessionErrorKind(exc).None?)
  }

  /** `result` is one that a call may end with when its last request, the `n`-th, raised `exc`. */
  predicate Fits(repeatable: bool, n: nat, exc: Exc, result: CallResult) {
    if n >= 2 then result == if HandedOn(exc) then Raised(exc) else Refused(TryAgain)
    else
      match SessionErrorKind(exc)
      case None => result == Raised(exc)
      case Some(kind) =>
        if kind == Closed && !repeatable then result == Refused(MayHaveRun)
        else result == Refused(Down) || result == Refused(TryAgain) || result == Cancelled
  }

  /** The call has not ended, or its end fits its last request. */
  predicate Answered(call: Call) {
    call.phase.Ended? && call.sends != [] ==>
      var outcome := call.sends[|call.sends| - 1].outcome;
      outcome.Some? && outcome.value.Raises? ==>
        Fits(call.repeatable, |call.sends|, outcome.value.exc, call.phase.result)
  }

  // --- every step keeps it --------------------------------------------------------------

  lemma AnswerFits(s: Sys, c: nat, outcome: Outcome, ran: bool, expired: bool, t: Sys)
    requires c in s.calls && CallInv(s, c, s.calls[c])
    requires Forward(s, Answer(c, outcome, ran, expired)) == Some(t)
    ensures Answered(t.calls[c])
  {
    var before := s.calls[c];
    assert before.sends != [] && |Finish(before.sends, Some(outcome), ran)| == |before.sends|;
  }

  lemma WakeFits(s: Sys, c: nat, expired: bool, t: Sys)
    requires c in s.calls && CallInv(s, c, s.calls[c])
    requires Forward(s, Wake(c, expired)) == Some(t)
    ensures Answered(t.calls[c])
  {
  }

  lemma CancelFits(s: Sys, c: nat, ran: bool, t: Sys)
    requires c in s.calls && CallInv(s, c, s.calls[c])
    requires Forward(s, Cancel(c, ran)) == Some(t)
    ensures Answered(t.calls[c])
  {
  }

  lemma ForwardFits(s: Sys, l: Label, t: Sys, c: nat)
    requires Inv(s) && Forward(s, l) == Some(t) && c in t.calls
    requires c in s.calls ==> Answered(s.calls[c])
    ensures Answered(t.calls[c])
  {
    if c in s.calls {
      assert CallInv(s, c, s.calls[c]);
    }
    if l.c == c && l.Answer? {
      AnswerFits(s, c, l.outcome, l.ran, l.expired, t);
    } else if l.c == c && l.Wake? {
      WakeFits(s, c, l.expired, t);
    } else if l.c == c && l.Cancel? {
      CancelFits(s, c, l.ran, t);
    }
  }

  lemma StepFits(s: Sys, l: Label, t: Sys, c: nat)
    requires Inv(s) && Step(s, l) == Some(t) && c in t.calls
    requires c in s.calls ==> Answered(s.calls[c])
    ensures Answered(t.calls[c])
  {
    if IsForward(l) {
      ForwardFits(s, l, t, c);
    } else if IsSupervisor(l) {
      SuperviseLeavesCalls(s, l, t);
    } else {
      ControlLeavesCalls(s, l, t);
    }
  }

  ghost predicate AllAnswered(s: Sys) {
    forall c | c in s.calls :: Answered(s.calls[c])
  }

  lemma {:induction false} RunFits(s: Sys, labels: seq<Label>, t: Sys)
    requires Inv(s) && AllAnswered(s) && Run(s, labels) == Some(t)
    ensures AllAnswered(t)
    decreases labels
  {
    if labels != [] {
      var m := Step(s, labels[0]).value;
      forall c | c in m.calls ensures Answered(m.calls[c]) {
        StepFits(s, labels[0], m, c);
      }
      StepKeeps(s, labels[0], m);
      RunFits(m, labels[1..], t);
    }
  }

  lemma ReachableFits(name: string, s: Sys, c: nat)
    requires Reachable(name, s) && c in s.calls
    ensures Answered(s.calls[c])
  {
    var labels :| Run(Init(name), labels) == Some(s);
    RunFits(Init(name), labels, s);
  }

  // --- the two failures -------------------------------------------------------------------

  /**
   A second failure goes back as it is exactly when it is a schema error or a plain JSON-RPC error.
   Any other second failure is the error that says "try again".
   */
  lemma SecondFailureExactly(name: string, s: Sys, c: nat, exc: Exc)
    requires Reachable(name, s) && c in s.calls && s.calls[c].phase.Ended?
    requires |s.calls[c].sends| == 2 && s.calls[c].sends[1].outcome == Some(Raises(exc))
    ensures s.calls[c].phase == Ended(Raised(exc)) <==>
              exc.ValidationError? || (exc.McpError? && SessionErrorKind(exc).None?)
    ensures s.calls[c].phase != Ended(Raised(exc)) ==> s.calls[c].phase == Ended(Refused(TryAgain))
  {
    ReachableFits(name, s, c);
  }

  /**
   A first failure goes back as it is exactly when it says nothing of the session. A closed session
   under a call that must not be repeated is the error that says "may have run", and nothing else
   is. Every other call that was sent once waited for a new session and did not get one.
   */
  lemma FirstFailureExactly(name: string, s: Sys, c: nat, exc: Exc)
    requires Reachable(name, s) && c in s.calls && s.calls[c].phase.Ended?
    requires |s.calls[c].sends| == 1 && s.calls[c].sends[0].outcome == Some(Raises(exc))
    ensures s.calls[c].phase == Ended(Raised(exc)) <==> SessionErrorKind(exc).None?
    ensures s.calls[c].phase == Ended(Refused(MayHaveRun)) <==>
              SessionErrorKind(exc) == Some(Closed) && !s.calls[c].repeatable
    ensures SessionErrorKind(exc) == Some(Rejected) || (SessionErrorKind(exc) == Some(Closed) && s.calls[c].repeatable) ==>
              s.calls[c].phase.result in {Refused(Down), Refused(TryAgain), Cancelled}
  {
    ReachableFits(name, s, c);
  }

  const PLAIN := McpError("boom", false)

  lemma PlainIsNoSessionError()
    ensures SessionErrorKind(PLAIN).None?
  {
    var text := Lower("boom");
    assert |text| == 4;
    assert forall i: nat :: !OccursAt(text, "session", i);
    assert !Contains(text, "session");
  }

  lemma PlainStep(s: Sys, c: nat, first: Send, sid: nat, generation: nat)
    requires c in s.calls
    requires s.calls[c] == Call(false, InFlight(true, sid, generation), [first, Send(sid, generation, None, false)])
    ensures Step(s, Answer(c, Raises(PLAIN), true, false)).Some?
    ensures var t := Step(s, Answer(c, Raises(PLAIN), true, false)).value;
            c in t.calls && t.calls[c] ==
              Call(false, Ended(Raised(PLAIN)), [first, Send(sid, generation, Some(Raises(PLAIN)), true)])
  {
    PlainIsNoSessionError();
  }

  /** A run in which the second failure reaches the caller as it is, and not as an unavailable upstream. */
  lemma SecondFailureCanBeHandedOn(name: string)
    ensures exists s :: Reachable(name, s) && 0 in s.calls && |s.calls[0].sends| == 2
              && s.calls[0].phase == Ended(Raised(PLAIN))
  {
    var s := SecondInFlight(name);
    PlainStep(s, 0, s.calls[0].sends[0], 2, 2);
    s := Take(name, s, Answer(0, Raises(PLAIN), true, false));
  }
}
