/** The inbound guard: who is let in, and what it remembers of those it refused. */
module Guard {
  import opened Wrappers
  import RateLimit

  datatype Reason = UnknownSender | RateLimited

  datatype Verdict = Allowed(person: Option<string>, group: Option<string>, truncated: bool) | Refused(reason: Reason)

  datatype Refusal = Refusal(channel: string, address: string, chat: string, reason: Reason, at: real)

  datatype Unconfigured = Unconfigured(channel: string, chat: string, title: Option<string>, at: real)

  datatype Group = Group(id: string, members: seq<string>)

  /** The roster and the group chats, as a check reads them. */
  datatype Config = Config(handles: map<(string, string), string>, groups: map<(string, string), Group>)

  datatype Message = Message(channel: string, sender: string, chat: string, inGroup: bool, title: Option<string>, length: nat)

  const RECENT_RING_SIZE := 200
  const UNCONFIGURED_RING_SIZE := 50

  datatype State = State(buckets: RateLimit.Buckets, unknown: nat, limited: nat, truncated: nat,
                         recent: seq<Refusal>, unconfigured: seq<Unconfigured>)

  const EMPTY := State(map[], 0, 0, 0, [], [])

  /** One entry of the guard's life: a check, or a refusal a channel decided itself. */
  datatype Event =
    | Check(cfg: Config, msg: Message, now: real, wall: real)
    | Refuse(channel: string, address: string, chat: string, reason: Reason, wall: real)

  // --- the rules --------------------------------------------------------------------

  /** `_group_for`: the group an unknown sender is let in under. */
  function GroupFor(cfg: Config, msg: Message): Option<string> {
    if !msg.inGroup || (msg.channel, msg.chat) !in cfg.groups then None
    else
      var group := cfg.groups[(msg.channel, msg.chat)];
      if group.members != [] && msg.sender !in group.members then None else Some(group.id)
  }

  function PersonOf(cfg: Config, msg: Message): Option<string> {
    if (msg.channel, msg.sender) in cfg.handles then Some(cfg.handles[(msg.channel, msg.sender)]) else None
  }

  /** The last `n` entries. */
  function Tail<T>(s: seq<T>, n: nat): seq<T> {
    if |s| <= n then s else s[|s| - n..]
  }

  function Record(s: State, refusal: Refusal): State {
    s.(unknown := s.unknown + (if refusal.reason == UnknownSender then 1 else 0),
       limited := s.limited + (if refusal.reason == RateLimited then 1 else 0),
       recent := Tail(s.recent + [refusal], RECENT_RING_SIZE))
  }

  predicate Known(ring: seq<Unconfigured>, channel: string, chat: string) {
    exists u :: u in ring && u.channel == channel && u.chat == chat
  }

  function Note(ring: seq<Unconfigured>, u: Unconfigured): seq<Unconfigured> {
    if Known(ring, u.channel, u.chat) then ring else Tail(ring + [u], UNCONFIGURED_RING_SIZE)
  }

  predicate Unlisted(cfg: Config, msg: Message) {
    msg.inGroup && (msg.channel, msg.chat) !in cfg.groups
  }

  function RefusalOf(msg: Message, reason: Reason, wall: real): Refusal {
    Refusal(msg.channel, msg.sender, msg.chat, reason, wall)
  }

  /** One check: the new state and the verdict. */
  function CheckStep(s: State, rate: int, maxText: nat, cfg: Config, msg: Message, now: real, wall: real): (State, Verdict) {
    var noted := if Unlisted(cfg, msg)
                 then s.(unconfigured := Note(s.unconfigured, Unconfigured(msg.channel, msg.chat, msg.title, wall)))
                 else s;
    var person := PersonOf(cfg, msg);
    var group := if person.Some? then None else GroupFor(cfg, msg);
    if person.None? && group.None? then (Record(noted, RefusalOf(msg, UnknownSender, wall)), Refused(UnknownSender))
    else
      var (buckets, ok) := RateLimit.Take(rate, noted.buckets, (msg.channel, msg.sender), now);
      var taken := noted.(buckets := buckets);
      if !ok then (Record(taken, RefusalOf(msg, RateLimited, wall)), Refused(RateLimited))
      else if msg.length > maxText then (taken.(truncated := taken.truncated + 1), Allowed(person, group, true))
      else (taken, Allowed(person, group, false))
  }

  function Step(s: State, rate: int, maxText: nat, e: Event): (State, Verdict) {
    match e
    case Check(cfg, msg, now, wall) => CheckStep(s, rate, maxText, cfg, msg, now, wall)
    case Refuse(channel, address, chat, reason, wall) =>
      (Record(s, Refusal(channel, address, chat, reason, wall)), Refused(reason))
  }

  class Guard {
    const rate: int
    const maxText: nat
    const limiter: RateLimit.RateLimiter
    var unknown: nat
    var limited: nat
    var truncated: nat
    var recent: seq<Refusal>
    var unconfigured: seq<Unconfigured>

    constructor (perMinute: int, maxTextChars: nat)
      ensures rate == perMinute && maxText == maxTextChars && limiter.rate == perMinute && fresh(limiter)
      ensures View() == EMPTY
    {
      rate := perMinute;
      maxText := maxTextChars;
      limiter := new RateLimit.RateLimiter(perMinute);
      unknown, limited, truncated, recent, unconfigured := 0, 0, 0, [], [];
    }

    function View(): State
      reads this, limiter
    {
      State(limiter.buckets, unknown, limited, truncated, recent, unconfigured)
    }

    /** A deque of at most 200 refusals: a new one pushes the oldest out. */
    method RecordRefusal(refusal: Refusal)
      modifies this
      ensures View() == Record(old(View()), refusal)
    {
      if refusal.reason == UnknownSender {
        unknown := unknown + 1;
      } else {
        limited := limited + 1;
      }
      recent := recent + [refusal];
      if |recent| > RECENT_RING_SIZE {
        recent := recent[|recent| - RECENT_RING_SIZE..];
      }
    }

    method NoteUnconfigured(channel: string, chat: string, title: Option<string>, wall: real)
      requires |unconfigured| <= UNCONFIGURED_RING_SIZE
      modifies this
      ensures View() == old(View()).(unconfigured := Note(old(unconfigured), Unconfigured(channel, chat, title, wall)))
    {
      if exists u :: u in unconfigured && u.channel == channel && u.chat == chat {
        return;
      }
      if |unconfigured| >= UNCONFIGURED_RING_SIZE {
        unconfigured := unconfigured[1..];
      }
      unconfigured := unconfigured + [Unconfigured(channel, chat, title, wall)];
    }

    method Check(cfg: Config, msg: Message, now: real, wall: real) returns (verdict: Verdict)
      requires |unconfigured| <= UNCONFIGURED_RING_SIZE && limiter.rate == rate
      modifies this, limiter
      ensures (View(), verdict) == CheckStep(old(View()), rate, maxText, cfg, msg, now, wall)
    {
      if msg.inGroup && (msg.channel, msg.chat) !in cfg.groups {
        NoteUnconfigured(msg.channel, msg.chat, msg.title, wall);
      }
      var person := PersonOf(cfg, msg);
      var group: Option<string> := None;
      if person.None? {
        group := GroupFor(cfg, msg);
        if group.None? {
          RecordRefusal(RefusalOf(msg, UnknownSender, wall));
          return Refused(UnknownSender);
        }
      }
      var ok := limiter.Allow((msg.channel, msg.sender), now);
      if !ok {
        RecordRefusal(RefusalOf(msg, RateLimited, wall));
        return Refused(RateLimited);
      }
      if msg.length > maxText {
        truncated := truncated + 1;
        return Allowed(person, group, true);
      }
      return Allowed(person, group, false);
    }
  }

  // --- whole histories ------------------------------------------------------------------

  function StateAfter(rate: int, maxText: nat, events: seq<Event>): State {
    if events == [] then EMPTY
    else Step(StateAfter(rate, maxText, events[..|events| - 1]), rate, maxText, events[|events| - 1]).0
  }

  function VerdictAt(rate: int, maxText: nat, events: seq<Event>, i: nat): Verdict
    requires i < |events|
  {
    Step(StateAfter(rate, maxText, events[..i]), rate, maxText, events[i]).1
  }

  /** Every refusal of the history, oldest first, as the channels saw it. */
  function Refusals(rate: int, maxText: nat, events: seq<Event>): seq<Refusal> {
    if events == [] then []
    else
      var n := |events| - 1;
      Refusals(rate, maxText, events[..n]) + RefusedBy(StateAfter(rate, maxText, events[..n]), rate, maxText, events[n])
  }

  function CountReason(refusals: seq<Refusal>, reason: Reason): nat {
    if refusals == [] then 0
    else CountReason(refusals[..|refusals| - 1], reason) + (if refusals[|refusals| - 1].reason == reason then 1 else 0)
  }

  function CountTruncated(rate: int, maxText: nat, events: seq<Event>): nat {
    if events == [] then 0
    else
      var n := |events| - 1;
      var v := VerdictAt(rate, maxText, events, n);
      CountTruncated(rate, maxText, events[..n]) + (if v.Allowed? && v.truncated then 1 else 0)
  }

  lemma TailOfTail<T>(s: seq<T>, x: T, n: nat)
    requires n > 0
    ensures Tail(Tail(s, n) + [x], n) == Tail(s + [x], n)
  {
  }

  lemma RecordKeeps(s: State, refusals: seq<Refusal>, r: Refusal)
    requires s.unknown == CountReason(refusals, UnknownSender) && s.limited == CountReason(refusals, RateLimited)
    requires s.recent == Tail(refusals, RECENT_RING_SIZE)
    ensures var t := Record(s, r);
            && t.unknown == CountReason(refusals + [r], UnknownSender)
            && t.limited == CountReason(refusals + [r], RateLimited)
            && t.recent == Tail(refusals + [r], RECENT_RING_SIZE)
  {
    assert (refusals + [r])[..|refusals|] == refusals;
    TailOfTail(refusals, r, RECENT_RING_SIZE);
  }

  ghost predicate Tallies(s: State, all: seq<Refusal>) {
    && s.unknown == CountReason(all, UnknownSender)
    && s.limited == CountReason(all, RateLimited)
    && s.recent == Tail(all, RECENT_RING_SIZE)
  }

  /** What one event adds to the refusal history. */
  function RefusedBy(s: State, rate: int, maxText: nat, e: Event): seq<Refusal> {
    var v := Step(s, rate, maxText, e).1;
    if v.Refused? then
      [match e
       case Check(_, msg, _, wall) => RefusalOf(msg, v.reason, wall)
       case Refuse(channel, address, chat, reason, wall) => Refusal(channel, address, chat, reason, wall)]
    else []
  }

  predicate SameTallies(s: State, t: State) {
    s.unknown == t.unknown && s.limited == t.limited && s.recent == t.recent
  }

  /** A check changes counters and ring only by recording its own refusal. */
  lemma CheckRecords(s: State, rate: int, maxText: nat, e: Event)
    requires e.Check?
    ensures var (t, v) := Step(s, rate, maxText, e);
            SameTallies(t, if v.Refused? then Record(s, RefusalOf(e.msg, v.reason, e.wall)) else s)
  {
  }

  lemma StepTallies(s: State, rate: int, maxText: nat, e: Event, all: seq<Refusal>)
    requires Tallies(s, all)
    ensures Tallies(Step(s, rate, maxText, e).0, all + RefusedBy(s, rate, maxText, e))
  {
    var v := Step(s, rate, maxText, e).1;
    if v.Refused? {
      var refusal := RefusedBy(s, rate, maxText, e)[0];
      RecordKeeps(s, all, refusal);
    } else {
      assert all + [] == all;
    }
    if e.Check? {
      CheckRecords(s, rate, maxText, e);
    }
  }

  lemma {:induction false} CountsAddUp(all: seq<Refusal>)
    ensures CountReason(all, UnknownSender) + CountReason(all, RateLimited) == |all|
  {
    if all != [] {
      CountsAddUp(all[..|all| - 1]);
    }
  }

  /** Counters and ring are the count and the tail of the refusal history, in every run. */
  lemma {:induction false} StatsAreTheHistory(rate: int, maxText: nat, events: seq<Event>)
    ensures var s, all := StateAfter(rate, maxText, events), Refusals(rate, maxText, events);
            && s.unknown == CountReason(all, UnknownSender)
            && s.limited == CountReason(all, RateLimited)
            && s.unknown + s.limited == |all|
            && s.recent == Tail(all, RECENT_RING_SIZE)
  {
    CountsAddUp(Refusals(rate, maxText, events));
    if events != [] {
      var n := |events| - 1;
      StatsAreTheHistory(rate, maxText, events[..n]);
      StepTallies(StateAfter(rate, maxText, events[..n]), rate, maxText, events[n], Refusals(rate, maxText, events[..n]));
    }
  }

  /** The truncation counter counts the messages let in with a cut text. */
  lemma {:induction false} TruncatedIsCounted(rate: int, maxText: nat, events: seq<Event>)
    ensures StateAfter(rate, maxText, events).truncated == CountTruncated(rate, maxText, events)
  {
    if events != [] {
      TruncatedIsCounted(rate, maxText, events[..|events| - 1]);
    }
  }

  /** No two entries name the same chat. */
  predicate OneEach(ring: seq<Unconfigured>) {
    forall i, j :: 0 <= i < j < |ring| ==> !(ring[i].channel == ring[j].channel && ring[i].chat == ring[j].chat)
  }

  lemma NoteKeeps(ring: seq<Unconfigured>, u: Unconfigured)
    requires |ring| <= UNCONFIGURED_RING_SIZE && OneEach(ring)
    ensures |Note(ring, u)| <= UNCONFIGURED_RING_SIZE && OneEach(Note(ring, u)) && Known(Note(ring, u), u.channel, u.chat)
  {
    if !Known(ring, u.channel, u.chat) {
      assert forall i :: 0 <= i < |ring| ==> ring[i] in ring;
      var next := Note(ring, u);
      assert next[|next| - 1] == u;
    }
  }

  /** The unconfigured chats stay at most 50, each once; one that just wrote is always among them. */
  lemma {:induction false} UnconfiguredRing(rate: int, maxText: nat, events: seq<Event>)
    ensures var ring := StateAfter(rate, maxText, events).unconfigured;
            && |ring| <= UNCONFIGURED_RING_SIZE && OneEach(ring)
            && (events != [] && events[|events| - 1].Check?
                && Unlisted(events[|events| - 1].cfg, events[|events| - 1].msg)
                ==> Known(ring, events[|events| - 1].msg.channel, events[|events| - 1].msg.chat))
  {
    if events != [] {
      var n := |events| - 1;
      UnconfiguredRing(rate, maxText, events[..n]);
      if events[n].Check? {
        var msg := events[n].msg;
        NoteKeeps(StateAfter(rate, maxText, events[..n]).unconfigured,
                  Unconfigured(msg.channel, msg.chat, msg.title, events[n].wall));
      }
    }
  }

  // --- who gets in ------------------------------------------------------------------------

  /**
   A message is let in exactly when its sender is on the roster, or writes in a configured group
   that admits the handle, and the handle is within its rate. The verdict names that person or
   group, and never a group for a direct message.
   */
  lemma AdmittedExactly(s: State, rate: int, maxText: nat, cfg: Config, msg: Message, now: real, wall: real)
    ensures var v := CheckStep(s, rate, maxText, cfg, msg, now, wall).1;
            && (v.Allowed? <==>
                  && (PersonOf(cfg, msg).Some? || GroupFor(cfg, msg).Some?)
                  && RateLimit.Take(rate, s.buckets, (msg.channel, msg.sender), now).1)
            && (v.Allowed? ==> v.person == PersonOf(cfg, msg) && (v.person.Some? <==> v.group.None?))
            && (v.Allowed? && v.group.Some? ==> msg.inGroup)
            && (v == Refused(UnknownSender) <==> PersonOf(cfg, msg).None? && GroupFor(cfg, msg).None?)
  {
  }

  /** A stranger's messages never use up the tokens of anybody. */
  lemma StrangersTakeNoTokens(s: State, rate: int, maxText: nat, cfg: Config, msg: Message, now: real, wall: real)
    requires PersonOf(cfg, msg).None? && GroupFor(cfg, msg).None?
    ensures CheckStep(s, rate, maxText, cfg, msg, now, wall).0.buckets == s.buckets
  {
  }

  // --- the rate in a whole history --------------------------------------------------------

  /** The messages that reached the token bucket, in order. */
  function RateEvents(events: seq<Event>): seq<RateLimit.Event> {
    if events == [] then []
    else
      var e := events[|events| - 1];
      RateEvents(events[..|events| - 1]) +
      (if e.Check? && (PersonOf(e.cfg, e.msg).Some? || GroupFor(e.cfg, e.msg).Some?)
       then [RateLimit.Event((e.msg.channel, e.msg.sender), e.now)] else [])
  }

  lemma {:induction false} AfterPrefix(rate: int, front: seq<RateLimit.Event>, e: RateLimit.Event, n: nat)
    requires n <= |front|
    ensures RateLimit.After(rate, front + [e], n) == RateLimit.After(rate, front, n)
    decreases n
  {
    if n > 0 {
      AfterPrefix(rate, front, e, n - 1);
    }
  }

  /** The buckets of the guard are those of the messages from known senders alone. */
  lemma {:induction false} BucketsAreTheHistory(rate: int, maxText: nat, events: seq<Event>)
    ensures StateAfter(rate, maxText, events).buckets ==
            RateLimit.After(rate, RateEvents(events), |RateEvents(events)|)
  {
    if events != [] {
      var n := |events| - 1;
      BucketsAreTheHistory(rate, maxText, events[..n]);
      var front := RateEvents(events[..n]);
      if |RateEvents(events)| > |front| {
        var e := RateEvents(events)[|front|];
        assert RateEvents(events) == front + [e];
        AfterPrefix(rate, front, e, |front|);
      } else {
        assert RateEvents(events) == front;
      }
    }
  }

  /** The checks of a history never go back in time. */
  predicate ClockRuns(events: seq<Event>) {
    forall i, j :: 0 <= i <= j < |events| && events[i].Check? && events[j].Check? ==> events[i].now <= events[j].now
  }

  /** The checks from event `i` on lie within `w` seconds. */
  predicate Within(events: seq<Event>, i: nat, w: real) {
    forall a, b :: i <= a <= b < |events| && events[a].Check? && events[b].Check? ==> events[b].now - events[a].now <= w
  }

  /** How many messages of the handle `key` were let in from event `i` on. */
  function AllowedSince(rate: int, maxText: nat, events: seq<Event>, key: RateLimit.Key, i: nat): nat
    requires i <= |events|
    decreases |events|
  {
    if |events| == i then 0
    else
      var n := |events| - 1;
      AllowedSince(rate, maxText, events[..n], key, i)
      + (if IsFrom(events[n], key) && VerdictAt(rate, maxText, events, n).Allowed? then 1 else 0)
  }

  predicate IsFrom(e: Event, key: RateLimit.Key) {
    e.Check? && (e.msg.channel, e.msg.sender) == key
  }

  lemma {:induction false} CountPrefix(rate: int, front: seq<RateLimit.Event>, e: RateLimit.Event, key: RateLimit.Key, i: nat, j: nat)
    requires i <= j <= |front|
    ensures RateLimit.AllowedCount(rate, front + [e], key, i, j) == RateLimit.AllowedCount(rate, front, key, i, j)
    decreases j
  {
    if i < j {
      CountPrefix(rate, front, e, key, i, j - 1);
      AfterPrefix(rate, front, e, j - 1);
    }
  }

  lemma RateEventsSnoc(front: seq<Event>, e: Event)
    ensures RateEvents(front + [e]) == RateEvents(front) +
              if e.Check? && (PersonOf(e.cfg, e.msg).Some? || GroupFor(e.cfg, e.msg).Some?)
              then [RateLimit.Event((e.msg.channel, e.msg.sender), e.now)] else []
  {
    assert (front + [e])[..|front|] == front;
  }

  lemma {:induction false} RateEventsGrow(events: seq<Event>, i: nat)
    requires i <= |events|
    ensures |RateEvents(events[..i])| <= |RateEvents(events)|
    decreases |events|
  {
    if i < |events| {
      var n := |events| - 1;
      RateEventsGrow(events[..n], i);
      assert events[..n][..i] == events[..i];
    } else {
      assert events[..i] == events;
    }
  }

  /** The verdicts of a handle are the answers of its token bucket. */
  lemma {:induction false} VerdictsAreTokens(rate: int, maxText: nat, events: seq<Event>, key: RateLimit.Key, i: nat)
    requires i <= |events|
    ensures |RateEvents(events[..i])| <= |RateEvents(events)|
    ensures AllowedSince(rate, maxText, events, key, i) ==
              RateLimit.AllowedCount(rate, RateEvents(events), key, |RateEvents(events[..i])|, |RateEvents(events)|)
    decreases |events|
  {
    RateEventsGrow(events, i);
    if i == |events| {
      assert events[..i] == events;
    } else {
      var n := |events| - 1;
      var front, e := events[..n], events[n];
      VerdictsAreTokens(rate, maxText, front, key, i);
      assert front[..i] == events[..i] && events == front + [e];
      RateEventsSnoc(front, e);
      LastVerdict(rate, maxText, front, e, key, |RateEvents(events[..i])|);
    }
  }

  lemma LastVerdict(rate: int, maxText: nat, front: seq<Event>, e: Event, key: RateLimit.Key, a: nat)
    requires a <= |RateEvents(front)|
    ensures |RateEvents(front + [e])| >= a
    ensures RateLimit.AllowedCount(rate, RateEvents(front + [e]), key, a, |RateEvents(front + [e])|) ==
              RateLimit.AllowedCount(rate, RateEvents(front), key, a, |RateEvents(front)|)
              + if IsFrom(e, key) && Step(StateAfter(rate, maxText, front), rate, maxText, e).1.Allowed? then 1 else 0
  {
    var before, s := RateEvents(front), StateAfter(rate, maxText, front);
    RateEventsSnoc(front, e);
    BucketsAreTheHistory(rate, maxText, front);
    assert before + [] == before;
    if e.Check? {
      AdmittedExactly(s, rate, maxText, e.cfg, e.msg, e.now, e.wall);
      if PersonOf(e.cfg, e.msg).Some? || GroupFor(e.cfg, e.msg).Some? {
        var x := RateLimit.Event((e.msg.channel, e.msg.sender), e.now);
        CountPrefix(rate, before, x, key, a, |before|);
        AfterPrefix(rate, before, x, |before|);
      }
    }
  }

  /** A message at the bucket is a check of the history, and it came no earlier than its place says. */
  lemma {:induction false} RateEventSource(events: seq<Event>, i: nat, m: nat) returns (k: nat)
    requires i <= |events| && |RateEvents(events[..i])| <= m < |RateEvents(events)|
    ensures i <= k < |events| && events[k].Check? && events[k].now == RateEvents(events)[m].at
    decreases |events|
  {
    var n := |events| - 1;
    assert events[..|events|] == events;
    assert events == events[..n] + [events[n]];
    RateEventsSnoc(events[..n], events[n]);
    if m < |RateEvents(events[..n])| {
      assert events[..n][..i] == events[..i];
      k := RateEventSource(events[..n], i, m);
    } else {
      k := n;
    }
  }

  lemma {:induction false} BucketClockRuns(events: seq<Event>)
    requires ClockRuns(events)
    ensures RateLimit.ClockRuns(RateEvents(events))
    decreases |events|
  {
    if events != [] {
      var n := |events| - 1;
      var front := events[..n];
      BucketClockRuns(front);
      assert events == front + [events[n]] && events[..0] == [];
      RateEventsSnoc(front, events[n]);
      forall m: nat | m < |RateEvents(front)| && |RateEvents(events)| > |RateEvents(front)|
        ensures RateEvents(events)[m].at <= events[n].now
      {
        var k := RateEventSource(events, 0, m);
      }
    }
  }

  /**
   In every history, a stretch of `w` seconds lets in at most `rate + rate * w / 60` messages of one
   handle, strangers and other channels' refusals in between or not.
   */
  lemma VerdictsBounded(rate: int, maxText: nat, events: seq<Event>, key: RateLimit.Key, i: nat, w: real)
    requires rate > 0 && w >= 0.0 && ClockRuns(events) && i <= |events| && Within(events, i, w)
    ensures AllowedSince(rate, maxText, events, key, i) as real <= rate as real + rate as real * w / 60.0
  {
    var all, a := RateEvents(events), |RateEvents(events[..i])|;
    VerdictsAreTokens(rate, maxText, events, key, i);
    BucketClockRuns(events);
    if a < |all| {
      var first := RateEventSource(events, i, a);
      var last := RateEventSource(events, i, |all| - 1);
      assert events[last].now - events[first].now <= w by {
        assert all[|all| - 1].at >= all[a].at;
        assert first <= last || events[last].now <= events[first].now;
      }
      RateLimit.WindowBound(rate, all, key, a, |all|, w);
    } else {
      assert rate as real * w / 60.0 >= 0.0;
    }
  }
}
