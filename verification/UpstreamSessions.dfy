/** Sessions, waits and bindings over whole runs. */
module UpstreamSessions {
  import opened Wrappers
  import opened UpstreamState
  import opened UpstreamSystem
  import opened UpstreamInvariant

  /** What is true of the shared fields whenever every task is suspended. */
  lemma LiveSessionIsClean(name: string, s: Sys)
    requires Reachable(name, s)
    ensures s.u.session.Some? ==>
              s.u.connected && !s.u.reconnecting && s.u.error.None? && s.u.mgr.Some? && !s.u.idle
    ensures s.u.session.None? ==> !s.u.connected
    ensures s.u.reconnects <= s.u.generation
    ensures s.u.session.Some? ==> s.u.reconnects < s.u.generation
  {
    ReachableKeeps(name, s);
  }

  // --- waiting calls ----------------------------------------------------------

  /**
   No wake-up is lost: a call that sleeps on the current event has no session to use, a reconnect
   is pending, and the supervisor is either on its way or about to be woken.
   */
  lemma NoLostWakeup(name: string, s: Sys, c: nat)
    requires Reachable(name, s) && c in s.calls && s.calls[c].phase.Waiting?
    ensures s.calls[c].phase.changed < s.u.changed
            || (!Fresh(s.u, s.calls[c].phase.after) && s.u.reconnecting && (s.u.reload || Working(s.sup)))
  {
    ReachableKeeps(name, s);
    assert CallInv(s, c, s.calls[c]);
  }

  /** How many steps the supervisor is away from settling a pending reconnect. */
  function Distance(sup: Supervisor): nat {
    match sup
    case Serving(_) => 8
    case Draining => 7
    case ClosingStreams => 6
    case Created => 5
    case Disabled => 5
    case BackingOff => 5
    case Installing => 4
    case Connecting(_) => 3
    case Hosting(_, _) => 2
    case Retiring(_, _) => 1
    case Finished => 0
  }

  /** The step the supervisor takes next when its environment does not fail. */
  function NextMove(sup: Supervisor): Label {
    match sup
    case Serving(_) => Released
    case Draining => Drained
    case ClosingStreams => StreamsClosed
    case Created => Begin
    case Disabled => ReloadWakes
    case BackingOff => BackoffEnds
    case Installing => Installed
    case Connecting(_) => Connected(Caps(false, false, false))
    case Hosting(_, _) => Hosted
    case Retiring(_, _) => Retired
    case Finished => Begin
  }

  /** A pending reconnect always has a supervisor that can move, until `stop`. */
  lemma PendingReconnectCanMove(name: string, s: Sys)
    requires Reachable(name, s) && s.u.reconnecting && !s.sup.Finished?
    ensures Step(s, NextMove(s.sup)).Some?
  {
    ReachableKeeps(name, s);
  }

  /** Every state of the run still has a reconnect pending, and nobody asked to stop. */
  ghost predicate PendingThroughout(s: Sys, labels: seq<Label>)
    decreases labels
  {
    && s.u.reconnecting && !s.u.stop
    && (labels == [] || (Step(s, labels[0]).Some? && PendingThroughout(Step(s, labels[0]).value, labels[1..])))
  }

  function Moves(labels: seq<Label>): nat {
    if labels == [] then 0 else (if IsSupervisor(labels[0]) then 1 else 0) + Moves(labels[1..])
  }

  /**
   A reconnect stays pending for at most eight steps of the supervisor, however the connect ends
   and whatever calls, reloads and requests do in between.
   */
  lemma {:induction false} PendingReconnectSettles(s: Sys, labels: seq<Label>)
    requires SharedInv(s) && PendingThroughout(s, labels)
    ensures Moves(labels) <= Distance(s.sup) <= 8
    decreases labels
  {
    hide Supervise, Forward, Control, SharedInv, Later;
    if labels != [] {
      var t := Step(s, labels[0]).value;
      if IsSupervisor(labels[0]) {
        SuperviseShared(s, labels[0], t);
        MoveCountsDown(s, labels[0], t);
      } else if IsForward(labels[0]) {
        ForwardLeavesSupervisor(s, labels[0], t);
      } else {
        ControlShared(s, labels[0], t);
        ControlLeavesSupervisor(s, labels[0], t);
      }
      PendingReconnectSettles(t, labels[1..]);
    }
  }

  lemma ControlLeavesSupervisor(s: Sys, l: Label, t: Sys)
    requires Control(s, l) == Some(t)
    ensures t.sup == s.sup
  {
  }

  lemma MoveCountsDown(s: Sys, l: Label, t: Sys)
    requires SharedInv(s) && Supervise(s, l) == Some(t) && t.u.reconnecting && !s.u.stop
    ensures Distance(t.sup) < Distance(s.sup)
  {
  }

  /** A step of a call leaves the supervisor, the manager and the bindings alone. */
  lemma ForwardTouchesCalls(s: Sys, l: Label, t: Sys)
    requires Forward(s, l) == Some(t)
    ensures t.sup == s.sup && t.bindings == s.bindings && t.u.mgr == s.u.mgr && t.name == s.name && t.stopping == s.stopping
  {
  }

  lemma ForwardLeavesSupervisor(s: Sys, l: Label, t: Sys)
    requires SharedInv(s) && Forward(s, l) == Some(t)
    ensures t.sup == s.sup && SharedInv(t)
  {
    ForwardTouchesCalls(s, l, t);
    if l.Answer? && s.calls[l.c].phase.generation <= s.u.generation {
      var call := s.calls[l.c];
      AfterMoves(s, call.phase.generation, call.repeatable, call.phase.second, l.outcome, t.u);
    }
  }

  // --- the downstream side ----------------------------------------------------

  /** Every connect of the run reports `caps`, and nobody joins a stop. */
  predicate SameCaps(labels: seq<Label>, caps: Caps) {
    forall i | 0 <= i < |labels| :: !labels[i].StopJoin? && (labels[i].Connected? ==> labels[i].caps == caps)
  }

  predicate Settled(s: Sys, mgr: Mgr) {
    s.u.mgr == Some(mgr) && !s.sup.Hosting? && !s.sup.Retiring? && !s.stopping
  }

  predicate Touched(labels: seq<Label>, key: SessionKey) {
    exists i :: 0 <= i < |labels| && labels[i].Request? && labels[i].key == key
  }

  lemma SettledStep(s: Sys, l: Label, t: Sys, mgr: Mgr, key: SessionKey)
    requires Settled(s, mgr) && Step(s, l) == Some(t) && SameCaps([l], mgr.caps)
    ensures Settled(t, mgr)
    ensures !Touched([l], key) ==> (key in t.bindings <==> key in s.bindings)
    ensures !Touched([l], key) && key in s.bindings ==> t.bindings[key] == s.bindings[key]
  {
    assert [l][0] == l;
    assert l.Request? && l.key == key ==> Touched([l], key);
    if IsForward(l) {
      ForwardTouchesCalls(s, l, t);
    }
  }

  /**
   Reconnects with equal capabilities keep the downstream manager and every session binding. Only
   a request on the same key can change a binding.
   */
  lemma {:induction false} EqualCapsKeepManagerAndBindings(
      s: Sys, labels: seq<Label>, t: Sys, mgr: Mgr, key: SessionKey)
    requires Settled(s, mgr) && Run(s, labels) == Some(t) && SameCaps(labels, mgr.caps)
    ensures t.u.mgr == Some(mgr)
    ensures !Touched(labels, key) ==> (key in t.bindings <==> key in s.bindings)
    ensures !Touched(labels, key) && key in s.bindings ==> t.bindings[key] == s.bindings[key]
    decreases labels
  {
    if labels != [] {
      var l, rest := labels[0], labels[1..];
      var m := Step(s, l).value;
      assert forall i :: 0 <= i < |rest| ==> rest[i] == labels[i + 1];
      SettledStep(s, l, m, mgr, key);
      EqualCapsKeepManagerAndBindings(m, rest, t, mgr, key);
      if Touched(rest, key) {
        var i :| 0 <= i < |rest| && rest[i].Request? && rest[i].key == key;
        assert labels[i + 1].Request?;
        assert Touched(labels, key);
      }
      if Touched([l], key) {
        assert labels[0].Request?;
      }
    }
  }

  lemma OtherServerStep(s: Sys, l: Label, t: Sys, key: SessionKey)
    requires Step(s, l) == Some(t) && key.0 != s.name && !(l.Request? && l.key == key)
    ensures t.name == s.name
    ensures key in t.bindings <==> key in s.bindings
    ensures key in s.bindings ==> t.bindings[key] == s.bindings[key]
  {
    if IsForward(l) {
      assert t.bindings == s.bindings && t.name == s.name;
    } else if IsSupervisor(l) {
      SupervisorBindings(s, l, t, key);
    }
  }

  lemma SupervisorBindings(s: Sys, l: Label, t: Sys, key: SessionKey)
    requires Supervise(s, l) == Some(t) && key.0 != s.name
    ensures t.name == s.name
    ensures key in t.bindings <==> key in s.bindings
    ensures key in s.bindings ==> t.bindings[key] == s.bindings[key]
  {
  }

  /** Nothing this upstream does ever touches the bindings of another server. */
  lemma {:induction false} OtherServersKeepBindings(s: Sys, labels: seq<Label>, t: Sys, key: SessionKey)
    requires Run(s, labels) == Some(t) && key.0 != s.name
    requires forall i | 0 <= i < |labels| :: !(labels[i].Request? && labels[i].key == key)
    ensures key in t.bindings <==> key in s.bindings
    ensures key in s.bindings ==> t.bindings[key] == s.bindings[key]
    decreases labels
  {
    if labels != [] {
      OtherServerStep(s, labels[0], Step(s, labels[0]).value, key);
      OtherServersKeepBindings(Step(s, labels[0]).value, labels[1..], t, key);
    }
  }

  // --- one session, one person ------------------------------------------------

  /** `key` is bound in every state of the run. */
  ghost predicate BoundThroughout(s: Sys, labels: seq<Label>, key: SessionKey)
    decreases labels
  {
    && key in s.bindings
    && (labels == [] || (Step(s, labels[0]).Some? && BoundThroughout(Step(s, labels[0]).value, labels[1..], key)))
  }

  /**
   As long as a session stays bound it serves one person and one conversation: a later request is
   let through only when it names the same ones or none.
   */
  lemma {:induction false} SessionServesOnePerson(s: Sys, labels: seq<Label>, t: Sys, key: SessionKey, who: Binding)
    requires Run(s, labels) == Some(t) && BoundThroughout(s, labels, key)
    ensures key in t.bindings && t.bindings[key] == s.bindings[key]
    ensures CheckBinding(t.bindings, key, who).None? <==>
              && (who.person.None? || who.person == s.bindings[key].person)
              && (who.conversation.None? || who.conversation == s.bindings[key].conversation)
    decreases labels
  {
    if labels != [] {
      var m := Step(s, labels[0]).value;
      BoundStep(s, labels[0], m, key);
      SessionServesOnePerson(m, labels[1..], t, key, who);
    }
  }

  lemma BoundStep(s: Sys, l: Label, t: Sys, key: SessionKey)
    requires Step(s, l) == Some(t) && key in s.bindings && key in t.bindings
    ensures t.bindings[key] == s.bindings[key]
  {
  }

  /** A request that conflicts with its binding ends the session for everybody. */
  lemma ConflictEndsSession(s: Sys, key: SessionKey, who: Binding)
    requires CheckBinding(s.bindings, key, who).Some?
    ensures Step(s, Request(key, who)).Some?
    ensures key !in Step(s, Request(key, who)).value.bindings
    ensures forall k | k in s.bindings && k != key ::
              k in Step(s, Request(key, who)).value.bindings
              && Step(s, Request(key, who)).value.bindings[k] == s.bindings[k]
  {
  }

  // --- a dropped session -------------------------------------------------------

  lemma StepLater(s: Sys, l: Label, t: Sys)
    requires Inv(s) && Step(s, l) == Some(t)
    ensures Later(s, t)
  {
    if IsSupervisor(l) {
      SuperviseShared(s, l, t);
    } else if !IsForward(l) {
      ControlShared(s, l, t);
    } else if l.Answer? {
      assert CallInv(s, l.c, s.calls[l.c]);
      ResumedShared(s, l.c, l.outcome, l.ran, l.expired, t);
    }
  }

  /** A session that was dropped never comes back: a later live one is newer in every respect. */
  lemma {:induction false} DroppedSessionNeverReturns(s: Sys, labels: seq<Label>, t: Sys)
    requires Inv(s) && Run(s, labels) == Some(t)
    ensures s.u.generation <= t.u.generation
    ensures s.u.session.None? && t.u.session.Some? ==>
              t.u.generation > s.u.generation && t.u.session.value > s.installed
    ensures t.u.generation == s.u.generation ==> t.installed == s.installed
    ensures t.u.generation > s.u.generation ==> t.installed > s.installed
    decreases labels
  {
    if labels == [] {
    } else {
      var m := Step(s, labels[0]).value;
      StepKeeps(s, labels[0], m);
      StepLater(s, labels[0], m);
      DroppedSessionNeverReturns(m, labels[1..], t);
      RunKeeps(m, labels[1..], t);
    }
  }
}
