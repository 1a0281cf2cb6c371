/** What the supervisor and `forward` promise over every interleaving. */
module UpstreamTheorems {
  import opened Wrappers
  import opened Text
  import opened UpstreamState
  import opened UpstreamSystem
  import opened UpstreamInvariant

  // --- one call ---------------------------------------------------------------

  /** How often the request of a call ran or can still turn out to have run. */
  function Effects(sends: seq<Send>): nat {
    if sends == [] then 0
    else Effects(sends[..|sends| - 1]) +
         (if sends[|sends| - 1].ran || sends[|sends| - 1].outcome.None? then 1 else 0)
  }

  lemma EffectsOfTwo(sends: seq<Send>)
    requires |sends| <= 2
    ensures sends == [] ==> Effects(sends) == 0
    ensures |sends| == 1 ==> Effects(sends) == Effects([sends[0]]) <= 1
    ensures |sends| == 2 ==> Effects(sends) == Effects([sends[0]]) + Effects([sends[1]])
  {
    if |sends| == 1 {
      assert sends == [sends[0]];
    } else if |sends| == 2 {
      assert sends[..1] == [sends[0]];
    }
  }

  /**
   `forward` writes a request at most twice. The second time is on a strictly newer session, and
   only after the first session was rejected, or closed under a repeatable request.
   */
  lemma SendsAreSafe(name: string, s: Sys, c: nat)
    requires Reachable(name, s) && c in s.calls
    ensures |s.calls[c].sends| <= 2
    ensures |s.calls[c].sends| == 2 ==>
              var first, again := s.calls[c].sends[0], s.calls[c].sends[1];
              && first.generation < again.generation && first.sid < again.sid
              && first.outcome.Some? && first.outcome.value.Raises?
              && var kind := SessionErrorKind(first.outcome.value.exc);
                 kind == Some(Rejected) || (kind == Some(Closed) && s.calls[c].repeatable)
  {
    ReachableKeeps(name, s);
    assert CallInv(s, c, s.calls[c]);
  }

  /** A request that is not safe to repeat takes effect at most once, and once when it returns. */
  lemma NonRepeatableRunsOnce(name: string, s: Sys, c: nat)
    requires Reachable(name, s) && c in s.calls && !s.calls[c].repeatable
    ensures Effects(s.calls[c].sends) <= 1
    ensures s.calls[c].phase == Ended(Returned) ==> Effects(s.calls[c].sends) == 1
  {
    ReachableKeeps(name, s);
    var call := s.calls[c];
    assert CallInv(s, c, call);
    EffectsOfTwo(call.sends);
    if call.sends != [] {
      assert Consistent(call.sends[0]);
      assert Consistent(call.sends[|call.sends| - 1]);
    }
  }

  /** A call gets a result only from its last send, whose request ran. */
  lemma ReturnedMeansRan(name: string, s: Sys, c: nat)
    requires Reachable(name, s) && c in s.calls && s.calls[c].phase == Ended(Returned)
    ensures s.calls[c].sends != []
    ensures var last := s.calls[c].sends[|s.calls[c].sends| - 1]; last.outcome == Some(Value) && last.ran
  {
    ReachableKeeps(name, s);
    assert CallInv(s, c, s.calls[c]);
    assert Consistent(s.calls[c].sends[|s.calls[c].sends| - 1]);
  }

  /** At most one request is in flight, whatever the sessions do. */
  lemma OneInFlight(name: string, s: Sys, c: nat, d: nat)
    requires Reachable(name, s)
    requires c in s.calls && s.calls[c].phase.InFlight? && d in s.calls && s.calls[d].phase.InFlight?
    ensures c == d
  {
    ReachableKeeps(name, s);
    assert CallInv(s, c, s.calls[c]) && CallInv(s, d, s.calls[d]);
  }

  // --- what the error of a call says ------------------------------------------

  predicate KindIs(send: Send, kind: Kind) {
    send.outcome.Some? && send.outcome.value.Raises? && SessionErrorKind(send.outcome.value.exc) == Some(kind)
  }

  /** Some request of the call was written and not refused by its session. */
  predicate CanHaveRun(call: Call) {
    exists i :: 0 <= i < |call.sends| && !KindIs(call.sends[i], Rejected)
  }

  /**
   The error of a non-repeatable call that says "the call may have run" is raised exactly for one
   send on a closed session. The errors that say "try again" are right that the request did not
   run, unless the second send failed other than by a rejected session id.
   */
  lemma ErrorsAreHonest(name: string, s: Sys, c: nat, why: Trouble)
    requires Reachable(name, s) && c in s.calls && !s.calls[c].repeatable
    requires s.calls[c].phase == Ended(Refused(why))
    ensures why == MayHaveRun ==> |s.calls[c].sends| == 1 && KindIs(s.calls[c].sends[0], Closed)
    ensures why == Down ==> !CanHaveRun(s.calls[c])
    ensures why == TryAgain ==>
              (CanHaveRun(s.calls[c]) <==> |s.calls[c].sends| == 2 && !KindIs(s.calls[c].sends[1], Rejected))
  {
    ReachableKeeps(name, s);
    var call := s.calls[c];
    assert CallInv(s, c, call);
    if |call.sends| >= 1 && why != MayHaveRun {
      assert KindIs(call.sends[0], Rejected);
    }
  }

  /** Somewhere in `message`, in any letter case, stands `word`. */
  predicate Says(message: string, word: string, i: nat) {
    i + |word| <= |message| && Lower(message[i..i + |word|]) == word
  }

  /** A message that says `session` and one of the trouble words is a rejection, in any letter case and order. */
  lemma RejectedInAnyCase(message: string, closed: bool, i: nat, j: nat, w: nat)
    requires w < |SESSION_WORDS| && Says(message, "session", i) && Says(message, SESSION_WORDS[w], j)
    ensures SessionErrorKind(McpError(message, closed)) == Some(Rejected)
  {
    var text := Lower(message);
    LowerSlice(message, i, i + |"session"|);
    LowerSlice(message, j, j + |SESSION_WORDS[w]|);
    assert OccursAt(text, "session", i) && OccursAt(text, SESSION_WORDS[w], j);
    assert Contains(text, SESSION_WORDS[w]);
  }

  lemma LowerSlice(s: string, i: nat, j: nat)
    requires i <= j <= |s|
    ensures Lower(s)[i..j] == Lower(s[i..j])
  {
  }

  const NOT_FOUND := McpError("session not found", false)

  lemma NotFoundIsRejected()
    ensures SessionErrorKind(NOT_FOUND) == Some(Rejected)
  {
    var message := "session not found";
    assert message[0..7] == "session" && message[8..17] == "not found";
    assert Lower("session") == "session" && Lower("not found") == "not found";
    RejectedInAnyCase(message, false, 0, 8, 0);
  }

  const CAPS := Caps(true, false, false)

  lemma EnterStep(s: Sys, c: nat)
    requires s.u.session.Some? && c !in s.calls
    ensures Step(s, Enter(c, false, false)) ==
            Some(PutCall(s, c, Call(false, Queued(false, s.u.session.value, s.u.generation), [])))
  {
  }

  lemma GrantStep(s: Sys, c: nat)
    requires c in s.calls && s.calls[c].phase.Queued? && s.lock.None?
    ensures var p := s.calls[c].phase;
            Step(s, Grant(c)) == Some(PutCall(s.(lock := Some(c)), c, s.calls[c].(
              phase := InFlight(p.second, p.sid, p.generation),
              sends := s.calls[c].sends + [Send(p.sid, p.generation, None, false)])))
  {
  }

  lemma RejectStep(s: Sys, c: nat, sid: nat, generation: nat)
    requires c in s.calls && s.calls[c] == Call(false, InFlight(false, sid, generation), [Send(sid, generation, None, false)])
    requires s.u.session.Some? && s.u.generation == generation
    ensures var u := Reconnect(s.u, generation, "session not found");
            Step(s, Answer(c, Raises(NOT_FOUND), false, false)) ==
            Some(PutCall(s.(u := u, lock := None), c, Call(false, Waiting(true, Some(generation), u.changed),
                 [Send(sid, generation, Some(Raises(NOT_FOUND)), false)])))
  {
    NotFoundIsRejected();
    var sends := s.calls[c].sends;
    assert Finish(sends, Some(Raises(NOT_FOUND)), false) == [Send(sid, generation, Some(Raises(NOT_FOUND)), false)];
  }

  lemma CloseStep(s: Sys, c: nat, first: Send, sid: nat, generation: nat)
    requires c in s.calls
    requires s.calls[c] == Call(false, InFlight(true, sid, generation), [first, Send(sid, generation, None, false)])
    ensures Step(s, Answer(c, Raises(StreamGone), true, false)).Some?
    ensures var t := Step(s, Answer(c, Raises(StreamGone), true, false)).value;
            && c in t.calls
            && t.calls[c] == Call(false, Ended(Refused(TryAgain)),
                                  [first, Send(sid, generation, Some(Raises(StreamGone)), true)])
  {
  }

  /** The first session is live. */
  lemma FirstSession(name: string) returns (s: Sys)
    ensures Reachable(name, s) && s.sup == Serving(1) && s.calls == map[] && s.lock.None? && s.made == 1
    ensures s.u == INITIAL.(mgr := Some(Mgr(0, CAPS)), session := Some(1), generation := 1,
                            changed := 1, connected := true, idle := false)
  {
    s := Init(name);
    assert Run(s, []) == Some(s);
    s := Take(name, s, Begin);
    s := Take(name, s, Installed);
    s := Take(name, s, Connected(CAPS));
    s := Take(name, s, Hosted);
  }

  lemma Take(name: string, s: Sys, l: Label) returns (t: Sys)
    requires Reachable(name, s) && Step(s, l).Some?
    ensures Step(s, l) == Some(t) && Reachable(name, t)
  {
    ReachableStep(name, s, l);
    t := Step(s, l).value;
  }

  /** Call 0 was rejected by the first session and waits for the next one. */
  lemma RejectedOnce(name: string) returns (s: Sys)
    ensures Reachable(name, s) && s.sup == Serving(1) && s.lock.None? && s.made == 1
    ensures s.u == Reconnect(INITIAL.(mgr := Some(Mgr(0, CAPS)), session := Some(1), generation := 1,
                            changed := 1, connected := true, idle := false), 1, "session not found")
    ensures s.calls == map[0 := Call(false, Waiting(true, Some(1), 2),
                                     [Send(1, 1, Some(Raises(NOT_FOUND)), false)])]
  {
    s := FirstSession(name);
    EnterStep(s, 0);
    s := Take(name, s, Enter(0, false, false));
    GrantStep(s, 0);
    s := Take(name, s, Grant(0));
    RejectStep(s, 0, 1, 1);
    s := Take(name, s, Answer(0, Raises(NOT_FOUND), false, false));
  }

  lemma LetRelease(name: string, s: Sys) returns (t: Sys)
    requires Reachable(name, s) && s.sup.Serving?
    ensures Reachable(name, t) && t == s.(u := Release(s.u), sup := Draining)
  {
    t := Take(name, s, Released);
  }

  lemma LetDrain(name: string, s: Sys) returns (t: Sys)
    requires Reachable(name, s) && s.sup.Draining?
    ensures Reachable(name, t) && t == s.(sup := ClosingStreams)
  {
    t := Take(name, s, Drained);
  }

  lemma LetClose(name: string, s: Sys) returns (t: Sys)
    requires Reachable(name, s) && s.sup.ClosingStreams? && !s.u.stop && s.u.blank.None?
    ensures Reachable(name, t) && t == Top(s)
  {
    t := Take(name, s, StreamsClosed);
  }

  /** The supervisor lets the lost session go and is about to connect again. */
  lemma LetGo(name: string, s: Sys) returns (t: Sys)
    requires Reachable(name, s) && s.sup.Serving? && !s.u.stop && s.u.blank.None?
    ensures Reachable(name, t)
    ensures t == s.(u := Release(s.u).(reload := false, idle := true, disabled := None), sup := Installing)
  {
    t := LetRelease(name, s);
    t := LetDrain(name, t);
    t := LetClose(name, t);
  }

  /** A connect with the capabilities of the manager goes live at once. */
  lemma ConnectAgain(name: string, s: Sys) returns (t: Sys)
    requires Reachable(name, s) && s.sup.Installing? && s.u.mgr == Some(Mgr(0, CAPS))
    ensures Reachable(name, t) && t.lock == s.lock && t.calls == s.calls
    ensures t.u.session == Some(s.made + 1) && t.u.generation == s.u.generation + 1 && t.u.changed == s.u.changed + 1
  {
    t := Take(name, s, Installed);
    t := Take(name, t, Connected(CAPS));
  }

  /** The second session is live and call 0 still waits. */
  lemma SecondSession(name: string) returns (s: Sys)
    ensures Reachable(name, s) && s.lock.None?
    ensures s.u.session == Some(2) && s.u.generation == 2 && s.u.changed > 2
    ensures s.calls == map[0 := Call(false, Waiting(true, Some(1), 2),
                                     [Send(1, 1, Some(Raises(NOT_FOUND)), false)])]
  {
    s := RejectedOnce(name);
    s := LetGo(name, s);
    s := ConnectAgain(name, s);
  }

  /** Call 0 is in flight for the second time. */
  lemma SecondInFlight(name: string) returns (s: Sys)
    ensures Reachable(name, s) && 0 in s.calls
    ensures s.calls[0] == Call(false, InFlight(true, 2, 2),
                               [Send(1, 1, Some(Raises(NOT_FOUND)), false), Send(2, 2, None, false)])
  {
    s := SecondSession(name);
    var first := s.calls[0].sends[0];
    s := Take(name, s, Wake(0, false));
    assert s.calls[0] == Call(false, Queued(true, 2, 2), [first]);
    GrantStep(s, 0);
    s := Take(name, s, Grant(0));
  }

  /** A run in which a non-repeatable call is told to try again although its request ran. */
  lemma TryAgainCanHaveRun(name: string)
    ensures exists s :: Reachable(name, s)
              && 0 in s.calls && !s.calls[0].repeatable
              && s.calls[0].phase == Ended(Refused(TryAgain)) && Effects(s.calls[0].sends) == 1
  {
    var s := SecondInFlight(name);
    CloseStep(s, 0, s.calls[0].sends[0], 2, 2);
    s := Take(name, s, Answer(0, Raises(StreamGone), true, false));
    EffectsOfTwo(s.calls[0].sends);
  }
}
