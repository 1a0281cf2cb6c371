/**
 The two objects whose fields the source updates in place. Each method is the code of one
 coroutine from one `await` to the next, proved against the functions the machine is built from.
 */
module UpstreamClass {
  import opened Wrappers
  import opened UpstreamState
  import opened UpstreamSystem

  class Upstream {
    var mgr: Option<Mgr>
    var session: Option<nat>
    var generation: nat
    var reconnecting: bool
    var changed: nat
    var reconnects: nat
    var reason: string
    var error: Option<string>
    var disabled: Option<string>
    var blank: Option<string>
    var reloadEvent: bool
    var stopEvent: bool
    var connectedEvent: bool
    var idleEvent: bool

    constructor ()
      ensures View() == INITIAL
    {
      mgr, session, generation, reconnecting := None, None, 0, false;
      changed, reconnects, reason, error := 0, 0, "", None;
      disabled, blank := None, None;
      reloadEvent, stopEvent, connectedEvent, idleEvent := false, false, false, true;
    }

    function View(): Shared
      reads this
    {
      Shared(mgr, session, generation, reconnecting, changed, reconnects, reason, error, disabled,
             blank, reloadEvent, stopEvent, connectedEvent, idleEvent)
    }

    method Notify()
      modifies this
      ensures View() == UpstreamState.Notify(old(View()))
    {
      changed := changed + 1;
    }

    method DropSession()
      modifies this
      ensures View() == Drop(old(View()))
    {
      connectedEvent := false;
      session := None;
      Notify();
    }

    method Reconnect(generation_: nat, reason_: string)
      modifies this
      ensures View() == UpstreamState.Reconnect(old(View()), generation_, reason_)
    {
      if generation_ != generation || session.None? {
        return;
      }
      reconnects := reconnects + 1;
      reason := reason_;
      reconnecting := true;
      DropSession();
      reloadEvent := true;
    }

    method NotifyBroken(reason_: string)
      modifies this
      ensures View() == UpstreamState.Reconnect(old(View()), old(generation), reason_)
    {
      Reconnect(generation, reason_);
    }

    /** `reload` up to its wait for the next connect. */
    method Reload()
      modifies this
      ensures View() == UpstreamState.Reload(old(View()))
    {
      reconnecting := true;
      DropSession();
      reloadEvent := true;
    }

    /** `disable` up to its wait for the idle event. */
    method Disable()
      modifies this
      ensures View() == UpstreamState.Disable(old(View()))
    {
      disabled := blank;
      DropSession();
      reloadEvent := true;
    }

    /** `stop` up to its wait for the supervisor. */
    method Stop()
      modifies this
      ensures View() == StopRequested(old(View()))
    {
      stopEvent := true;
      reloadEvent := true;
    }

    /** `stop` after the supervisor ended, up to the wait for the manager task. */
    method Stopped() returns (closing: bool)
      modifies this
      ensures View() == StopFinished(old(View())) && closing == old(mgr).Some?
    {
      reconnecting := false;
      Notify();
      closing := mgr.Some?;
      mgr := None;
    }

    /** One pass of the loop in `_wait_session`. */
    method WaitSession(after: Option<nat>, expired: bool) returns (pass: Pass)
      ensures pass == WaitPass(View(), after, expired)
    {
      if session.Some? && (after.None? || generation != after.value) {
        return Ready(session.value, generation);
      }
      if !reconnecting && session.None? {
        return Unavailable(Down);
      }
      if expired {
        return Unavailable(TryAgain);
      }
      return Sleep(changed);
    }

    /** `forward` after its first request ended, up to the next await or return. */
    method FirstSendEnded(generation_: nat, repeatable: bool, outcome: Outcome) returns (verdict: Verdict)
      modifies this
      ensures (View(), verdict) == AfterFirst(old(View()), generation_, repeatable, outcome)
    {
      if outcome.Value? {
        return UpstreamState.Return;
      }
      if outcome.exc.ValidationError? {
        return Reraise;
      }
      var kind := SessionErrorKind(outcome.exc);
      if kind.None? {
        if !outcome.exc.McpError? {
          Reconnect(generation_, ReasonOf(outcome.exc));
        }
        return Reraise;
      }
      Reconnect(generation_, ReasonOf(outcome.exc));
      if kind == Some(Closed) && !repeatable {
        return Refuse(MayHaveRun);
      }
      return SendAgain;
    }

    /** `forward` after its second request ended. */
    method SecondSendEnded(generation_: nat, outcome: Outcome) returns (verdict: Verdict)
      modifies this
      ensures (View(), verdict) == AfterSecond(old(View()), generation_, outcome)
    {
      if outcome.Value? {
        return UpstreamState.Return;
      }
      if outcome.exc.ValidationError? {
        return Reraise;
      }
      var kind := SessionErrorKind(outcome.exc);
      if kind.None? && outcome.exc.McpError? {
        return Reraise;
      }
      Reconnect(generation_, ReasonOf(outcome.exc));
      return Refuse(TryAgain);
    }

    /** The head of the supervisor loop, up to its next await; `next` says which await that is. */
    method LoopHead(ghost s: Sys) returns (next: Supervisor)
      requires s.u == View()
      modifies this
      ensures Top(s) == s.(u := View(), sup := next)
    {
      if stopEvent {
        return Finished;
      }
      reloadEvent := false;
      idleEvent := true;
      if blank.Some? {
        disabled := blank;
        error := None;
        reconnecting := false;
        Notify();
        return Supervisor.Disabled;
      }
      disabled := None;
      return Installing;
    }

    /** The exception handler of the supervisor loop. */
    method ConnectFailed(text: string)
      modifies this
      ensures View() == Fail(old(View()), text)
    {
      session := None;
      reconnecting := false;
      Notify();
      error := Some(text);
    }

    /** `_serve_once` once the manager stands, up to the wait for a reload. */
    method ServeSession(sid: nat)
      modifies this
      ensures View() == Live(old(View()), sid)
    {
      session := Some(sid);
      generation := generation + 1;
      reconnecting := false;
      error := None;
      idleEvent := false;
      connectedEvent := true;
      Notify();
    }

    /** The `finally` block of `_serve_once`, up to the drain. */
    method ReleaseSession()
      modifies this
      ensures View() == Release(old(View()))
    {
      DropSession();
      idleEvent := true;
    }

    /** Whether a downstream request can be answered now or after a short wait. */
    method Serving() returns (serving: bool)
      ensures serving <==> mgr.Some? && (session.Some? || reconnecting)
    {
      serving := mgr.Some? && (session.Some? || reconnecting);
    }
  }

  class SessionRegistry {
    var sessions: map<SessionKey, Binding>

    constructor ()
      ensures sessions == map[]
    {
      sessions := map[];
    }

    method Check(server: string, key: string, person: Option<string>, conversation: Option<string>)
      returns (conflict: Option<Conflict>)
      modifies this
      ensures conflict == CheckBinding(old(sessions), (server, key), Binding(person, conversation))
      ensures sessions == if (server, key) in old(sessions) then old(sessions)
                          else old(sessions)[(server, key) := Binding(person, conversation)]
    {
      if (server, key) !in sessions {
        sessions := sessions[(server, key) := Binding(person, conversation)];
        return None;
      }
      var bound := sessions[(server, key)];
      if person.Some? && bound.person != person {
        return Some(PersonChanged);
      }
      if conversation.Some? && bound.conversation != conversation {
        return Some(ConversationChanged);
      }
      return None;
    }

    method Close(server: string, key: string)
      modifies this
      ensures sessions == old(sessions) - {(server, key)}
    {
      sessions := sessions - {(server, key)};
    }

    /** What `_forward` does with the registry for one request. */
    method Admit(server: string, key: string, person: Option<string>, conversation: Option<string>)
      returns (admitted: bool)
      modifies this
      ensures sessions == Bind(old(sessions), (server, key), Binding(person, conversation))
      ensures admitted <==> CheckBinding(old(sessions), (server, key), Binding(person, conversation)).None?
    {
      var conflict := Check(server, key, person, conversation);
      if conflict.Some? {
        Close(server, key);
        return false;
      }
      return true;
    }

    method ClearServer(server: string)
      modifies this
      ensures sessions == UpstreamSystem.ClearServer(old(sessions), server)
    {
      var doomed := set k | k in sessions && k.0 == server;
      while doomed != {}
        invariant forall k | k in sessions :: k in old(sessions) && sessions[k] == old(sessions)[k]
        invariant forall k | k in old(sessions) :: k in sessions <==> k.0 != server || k in doomed
        invariant forall k | k in doomed :: k in sessions && k.0 == server
        decreases doomed
      {
        var k :| k in doomed;
        sessions := sessions - {k};
        doomed := doomed - {k};
      }
    }
  }
}
