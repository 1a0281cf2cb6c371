/**
 Accepting background turns: the cache of seen message ids and the limit on turns in flight.

 Many posts are handled at once. Each one checks the cache, waits while its sender is resolved, and
 then checks the limit and starts its turn without another wait.
 */
module Turns {
  import opened Wrappers

  const TTL := 900.0

  type Seen = map<string, real>

  // --- the cache --------------------------------------------------------------------------

  function Purged(seen: Seen, now: real): Seen {
    map k | k in seen && seen[k] >= now - TTL :: seen[k]
  }

  class SeenCache {
    var seen: Seen

    constructor ()
      ensures seen == map[]
    {
      seen := map[];
    }

    /** `_purge`: the expired ids are listed first and then deleted one by one. */
    method Purge(now: real)
      modifies this
      ensures seen == Purged(old(seen), now)
    {
      var expired := set k | k in seen && seen[k] < now - TTL;
      while expired != {}
        invariant expired == set k | k in seen && seen[k] < now - TTL
        invariant forall k :: k in old(seen) && old(seen)[k] >= now - TTL ==> k in seen
        invariant forall k :: k in seen ==> k in old(seen) && seen[k] == old(seen)[k]
        decreases expired
      {
        var k :| k in expired;
        expired := expired - {k};
        seen := seen - {k};
      }
      forall k | k in seen ensures seen[k] >= now - TTL {
        assert k !in expired;
      }
    }

    /** `check_and_add` */
    method CheckAndAdd(key: string, now: real) returns (duplicate: bool)
      modifies this
      ensures duplicate <==> key in Purged(old(seen), now)
      ensures seen == if duplicate then Purged(old(seen), now) else Purged(old(seen), now)[key := now]
    {
      Purge(now);
      if key in seen {
        return true;
      }
      seen := seen[key := now];
      return false;
    }
  }

  // --- the service --------------------------------------------------------------------------

  datatype Phase = Resolving | Duplicate | UnknownSender | Overloaded | Running | Finished

  /** One post: its message id, when it came, and how far it is. */
  datatype Post = Post(id: string, at: real, phase: Phase)

  datatype State = State(seen: Seen, posts: seq<Post>)

  datatype Event =
    | Arrive(id: string, now: real)
    | Resolve(post: nat, known: bool)
    | Done(post: nat)

  function InFlight(posts: seq<Post>): nat {
    if posts == [] then 0
    else InFlight(posts[..|posts| - 1]) + if posts[|posts| - 1].phase == Running then 1 else 0
  }

  predicate AtCapacity(s: State, poolMax: int) {
    InFlight(s.posts) >= 2 * poolMax
  }

  /** One step of `accept` or of a background turn; None when it cannot happen. */
  function Step(s: State, e: Event, poolMax: int): Option<State> {
    match e
    case Arrive(id, now) =>
      if s.posts != [] && now < s.posts[|s.posts| - 1].at then None
      else if id == "" then Some(s.(posts := s.posts + [Post(id, now, Resolving)]))
      else
        var seen := Purged(s.seen, now);
        if id in seen then Some(State(seen, s.posts + [Post(id, now, Duplicate)]))
        else Some(State(seen[id := now], s.posts + [Post(id, now, Resolving)]))
    case Resolve(n, known) =>
      if n >= |s.posts| || s.posts[n].phase != Resolving then None
      else
        Some(s.(posts := s.posts[n := s.posts[n].(phase :=
          if !known then UnknownSender else if AtCapacity(s, poolMax) then Overloaded else Running)]))
    case Done(n) =>
      if n >= |s.posts| || s.posts[n].phase != Running then None
      else Some(s.(posts := s.posts[n := s.posts[n].(phase := Finished)]))
  }

  const START := State(map[], [])

  function Run(events: seq<Event>, poolMax: int): Option<State> {
    if events == [] then Some(START)
    else
      match Run(events[..|events| - 1], poolMax)
      case None => None
      case Some(s) => Step(s, events[|events| - 1], poolMax)
  }

  /** `accept`, as the two stretches between its waits. */
  class TurnService {
    const poolMax: int
    const cache: SeenCache
    /** The posts so far, and the turns that run. */
    var posts: seq<Post>
    var background: set<nat>

    ghost predicate Valid()
      reads this, cache
    {
      && (forall n: nat :: n in background <==> n < |posts| && posts[n].phase == Running)
      && |background| == InFlight(posts)
    }

    function View(): State
      reads this, cache
    {
      State(cache.seen, posts)
    }

    constructor (pool: int)
      ensures Valid() && View() == START && poolMax == pool && fresh(cache)
    {
      poolMax := pool;
      cache := new SeenCache();
      posts := [];
      background := {};
    }

    /** Up to the wait for `resolve`. */
    method Accept(id: string, now: real) returns (post: nat, waits: bool)
      requires Valid() && (posts != [] ==> posts[|posts| - 1].at <= now)
      modifies this, cache
      ensures Valid() && post == |old(posts)|
      ensures Step(old(View()), Arrive(id, now), poolMax) == Some(View())
      ensures waits <==> posts[post].phase == Resolving
    {
      post, waits := |posts|, true;
      if id != "" {
        var duplicate := cache.CheckAndAdd(id, now);
        waits := !duplicate;
      }
      InFlightSnoc(posts, Post(id, now, if waits then Resolving else Duplicate));
      posts := posts + [Post(id, now, if waits then Resolving else Duplicate)];
    }

    /** From there to the answer. */
    method Resolved(n: nat, known: bool)
      requires Valid() && n < |posts| && posts[n].phase == Resolving
      modifies this
      ensures Valid() && Step(old(View()), Resolve(n, known), poolMax) == Some(View())
    {
      InFlightChanged(posts, n, UnknownSender);
      InFlightChanged(posts, n, Overloaded);
      InFlightChanged(posts, n, Running);
      if !known {
        posts := posts[n := posts[n].(phase := UnknownSender)];
        return;
      }
      if |background| >= 2 * poolMax {
        posts := posts[n := posts[n].(phase := Overloaded)];
        return;
      }
      posts := posts[n := posts[n].(phase := Running)];
      background := background + {n};
    }

    /** The done callback of the background task. */
    method Discard(n: nat)
      requires Valid() && n in background
      modifies this
      ensures Valid() && Step(old(View()), Done(n), poolMax) == Some(View())
    {
      InFlightChanged(posts, n, Finished);
      posts := posts[n := posts[n].(phase := Finished)];
      background := background - {n};
    }
  }

  lemma InFlightSnoc(posts: seq<Post>, p: Post)
    ensures InFlight(posts + [p]) == InFlight(posts) + if p.phase == Running then 1 else 0
  {
    assert (posts + [p])[..|posts|] == posts;
  }

  lemma {:induction false} InFlightChanged(posts: seq<Post>, n: nat, phase: Phase)
    requires n < |posts|
    ensures InFlight(posts[n := posts[n].(phase := phase)]) ==
              InFlight(posts) + (if phase == Running then 1 else 0) - (if posts[n].phase == Running then 1 else 0)
    decreases posts
  {
    var last := |posts| - 1;
    var next := posts[n := posts[n].(phase := phase)];
    if n == last {
      assert next[..last] == posts[..last];
    } else {
      InFlightChanged(posts[..last], n, phase);
      assert next[..last] == posts[..last][n := posts[n].(phase := phase)];
    }
  }

  // --- the limit ---------------------------------------------------------------------------------

  /** In every run, the turns in flight never exceed twice the pool. */
  lemma {:induction false} InFlightBounded(events: seq<Event>, poolMax: int)
    requires poolMax >= 0 && Run(events, poolMax).Some?
    ensures InFlight(Run(events, poolMax).value.posts) <= 2 * poolMax
    decreases events
  {
    if events != [] {
      var s := Run(events[..|events| - 1], poolMax).value;
      var e := events[|events| - 1];
      InFlightBounded(events[..|events| - 1], poolMax);
      match e
      case Arrive(id, now) =>
        var t := Run(events, poolMax).value;
        assert t.posts[..|t.posts| - 1] == s.posts;
      case Resolve(n, known) =>
        InFlightChanged(s.posts, n, Run(events, poolMax).value.posts[n].phase);
      case Done(n) =>
        InFlightChanged(s.posts, n, Finished);
    }
  }

  // --- duplicates ----------------------------------------------------------------------------------

  /** The post was taken, whatever became of it. */
  predicate Taken(p: Post) {
    p.id != "" && p.phase != Duplicate
  }

  ghost predicate InOrder(posts: seq<Post>) {
    forall i, j :: 0 <= i < j < |posts| ==> posts[i].at <= posts[j].at
  }

  /** Every cached id belongs to a taken post, with its arrival. */
  ghost predicate CachedWasTaken(s: State) {
    forall k | k in s.seen :: exists i :: 0 <= i < |s.posts| && IsTaking(s.posts[i], k, s.seen[k])
  }

  predicate IsTaking(p: Post, id: string, at: real) {
    Taken(p) && p.id == id && p.at == at
  }

  /** A taken post that is not older than the window is cached with its arrival. */
  ghost predicate RecentIsCached(s: State, now: real) {
    forall i :: 0 <= i < |s.posts| && Taken(s.posts[i]) && now - s.posts[i].at <= TTL ==>
      s.posts[i].id in s.seen && s.seen[s.posts[i].id] == s.posts[i].at
  }

  /** Two taken posts with one id are more than the window apart. */
  ghost predicate Spaced(posts: seq<Post>) {
    forall i, j :: 0 <= i < j < |posts| && Taken(posts[i]) && Taken(posts[j]) && posts[i].id == posts[j].id ==>
      posts[j].at - posts[i].at > TTL
  }

  function Latest(posts: seq<Post>): real {
    if posts == [] then 0.0 else posts[|posts| - 1].at
  }

  ghost predicate CacheInv(s: State) {
    InOrder(s.posts) && CachedWasTaken(s) && RecentIsCached(s, Latest(s.posts)) && Spaced(s.posts)
  }

  /** An id is found in the cache exactly when a post with it was taken within the window. */
  lemma FoundExactly(s: State, id: string, now: real)
    requires CacheInv(s) && (s.posts != [] ==> Latest(s.posts) <= now)
    ensures id in Purged(s.seen, now) <==>
              exists i :: 0 <= i < |s.posts| && Taken(s.posts[i]) && s.posts[i].id == id && now - s.posts[i].at <= TTL
  {
    if id in Purged(s.seen, now) {
      var i :| 0 <= i < |s.posts| && IsTaking(s.posts[i], id, s.seen[id]);
    }
    forall i | 0 <= i < |s.posts| && Taken(s.posts[i]) && s.posts[i].id == id && now - s.posts[i].at <= TTL
      ensures id in Purged(s.seen, now)
    {
      assert Latest(s.posts) - s.posts[i].at <= TTL;
    }
  }

  lemma ArriveCached(s: State, id: string, now: real, t: State)
    requires CachedWasTaken(s) && Step(s, Arrive(id, now), 0) == Some(t)
    ensures CachedWasTaken(t)
  {
    var n := |s.posts|;
    forall k | k in t.seen ensures exists i :: 0 <= i < |t.posts| && IsTaking(t.posts[i], k, t.seen[k]) {
      if k == id && Taken(t.posts[n]) {
        assert IsTaking(t.posts[n], k, t.seen[k]);
      } else {
        var i :| 0 <= i < n && IsTaking(s.posts[i], k, s.seen[k]);
        assert IsTaking(t.posts[i], k, t.seen[k]);
      }
    }
  }

  /** A post that is recent now was recent before, so it is in the purged cache. */
  lemma StillCached(s: State, now: real, i: nat)
    requires CacheInv(s) && i < |s.posts| && Latest(s.posts) <= now && Taken(s.posts[i]) && now - s.posts[i].at <= TTL
    ensures s.posts[i].id in Purged(s.seen, now) && Purged(s.seen, now)[s.posts[i].id] == s.posts[i].at
  {
    assert Latest(s.posts) - s.posts[i].at <= TTL;
  }

  lemma ArriveRecent(s: State, id: string, now: real, t: State)
    requires CacheInv(s) && Step(s, Arrive(id, now), 0) == Some(t)
    ensures RecentIsCached(t, now) && Spaced(t.posts)
  {
    var n := |s.posts|;
    forall i | 0 <= i < n && Taken(s.posts[i]) && now - s.posts[i].at <= TTL
      ensures s.posts[i].id in t.seen && t.seen[s.posts[i].id] == s.posts[i].at
      ensures s.posts[i].id == id ==> !Taken(t.posts[n])
    {
      StillCached(s, now, i);
    }
  }

  lemma ArriveKeeps(s: State, id: string, now: real, t: State)
    requires CacheInv(s) && Step(s, Arrive(id, now), 0) == Some(t)
    ensures CacheInv(t)
  {
    ArriveCached(s, id, now, t);
    ArriveRecent(s, id, now, t);
    InOrderSnoc(s.posts, t.posts[|s.posts|]);
    assert t.posts == s.posts + [t.posts[|s.posts|]];
  }

  lemma InOrderSnoc(posts: seq<Post>, p: Post)
    requires InOrder(posts) && (posts != [] ==> Latest(posts) <= p.at)
    ensures InOrder(posts + [p]) && Latest(posts + [p]) == p.at
  {
    assert forall i :: 0 <= i < |posts| ==> posts[i].at <= Latest(posts);
  }

  /** Resolving and finishing change no arrival and make no duplicate. */
  lemma PhaseKeeps(s: State, n: nat, phase: Phase)
    requires CacheInv(s) && n < |s.posts| && s.posts[n].phase != Duplicate && phase != Duplicate
    ensures CacheInv(s.(posts := s.posts[n := s.posts[n].(phase := phase)]))
  {
    var t := s.(posts := s.posts[n := s.posts[n].(phase := phase)]);
    assert forall i :: 0 <= i < |s.posts| ==>
      t.posts[i].id == s.posts[i].id && t.posts[i].at == s.posts[i].at && (Taken(t.posts[i]) <==> Taken(s.posts[i]));
    forall k | k in t.seen ensures exists i :: 0 <= i < |t.posts| && IsTaking(t.posts[i], k, t.seen[k]) {
      var i :| 0 <= i < |s.posts| && IsTaking(s.posts[i], k, s.seen[k]);
      assert IsTaking(t.posts[i], k, t.seen[k]);
    }
  }

  lemma {:induction false} CacheKeeps(events: seq<Event>, poolMax: int)
    requires Run(events, poolMax).Some?
    ensures CacheInv(Run(events, poolMax).value)
    decreases events
  {
    if events != [] {
      var s := Run(events[..|events| - 1], poolMax).value;
      var t := Run(events, poolMax).value;
      CacheKeeps(events[..|events| - 1], poolMax);
      match events[|events| - 1]
      case Arrive(id, now) => ArriveKeeps(s, id, now, t);
      case Resolve(n, known) => PhaseKeeps(s, n, t.posts[n].phase);
      case Done(n) => PhaseKeeps(s, n, Finished);
    }
  }

  /**
   A post is a duplicate exactly when a post with the same id was taken within the last 900 seconds,
   whether that one ran, was refused or found the service overloaded.
   */
  lemma DuplicateExactly(events: seq<Event>, poolMax: int, id: string, now: real)
    requires id != "" && Run(events + [Arrive(id, now)], poolMax).Some?
    ensures Run(events, poolMax).Some?
    ensures var posts := Run(events, poolMax).value.posts;
            Run(events + [Arrive(id, now)], poolMax).value.posts[|posts|].phase == Duplicate <==>
              exists i :: 0 <= i < |posts| && Taken(posts[i]) && posts[i].id == id && now - posts[i].at <= TTL
  {
    assert (events + [Arrive(id, now)])[..|events|] == events;
    CacheKeeps(events, poolMax);
    FoundExactly(Run(events, poolMax).value, id, now);
  }

  predicate Started(p: Post) {
    p.phase == Running || p.phase == Finished
  }

  /** One message id starts at most one background turn in any 900 seconds. */
  lemma OneTurnPerWindow(events: seq<Event>, poolMax: int, i: nat, j: nat)
    requires Run(events, poolMax).Some?
    requires i < j < |Run(events, poolMax).value.posts|
    requires var posts := Run(events, poolMax).value.posts;
             Started(posts[i]) && Started(posts[j]) && posts[i].id == posts[j].id != ""
    ensures var posts := Run(events, poolMax).value.posts; posts[j].at - posts[i].at > TTL
  {
    CacheKeeps(events, poolMax);
  }

  /** A post that met an overloaded service is not run by a retry in the same window: the retry is a duplicate. */
  lemma OverloadedRetryIsDuplicate(events: seq<Event>, poolMax: int, i: nat, now: real)
    requires Run(events, poolMax).Some? && i < |Run(events, poolMax).value.posts|
    requires var p := Run(events, poolMax).value.posts[i];
             p.phase == Overloaded && p.id != "" && now - p.at <= TTL
             && Run(events + [Arrive(p.id, now)], poolMax).Some?
    ensures var posts := Run(events, poolMax).value.posts;
            Run(events + [Arrive(posts[i].id, now)], poolMax).value.posts[|posts|].phase == Duplicate
  {
    DuplicateExactly(events, poolMax, Run(events, poolMax).value.posts[i].id, now);
  }

  // --- a run that loses a message --------------------------------------------------------------------

  lemma RunSnoc(events: seq<Event>, e: Event, poolMax: int)
    ensures Run(events + [e], poolMax) ==
              match Run(events, poolMax) case None => None case Some(s) => Step(s, e, poolMax)
  {
    assert (events + [e])[..|events|] == events;
  }

  /** `k` messages without an id, each of which starts its turn. */
  function Fill(k: nat): seq<Event> {
    if k == 0 then [] else Fill(k - 1) + [Arrive("", 0.0)] + [Resolve(k - 1, true)]
  }

  function Filled(k: nat): (posts: seq<Post>)
    ensures |posts| == k && forall i :: 0 <= i < k ==> posts[i] == Post("", 0.0, Running)
  {
    seq(k, i => Post("", 0.0, Running))
  }

  lemma FilledSnoc(k: nat)
    ensures Filled(k + 1) == Filled(k) + [Post("", 0.0, Running)]
    ensures (Filled(k) + [Post("", 0.0, Resolving)])[k := Post("", 0.0, Running)] == Filled(k + 1)
    ensures InFlight(Filled(k + 1)) == InFlight(Filled(k)) + 1
    ensures InFlight(Filled(k) + [Post("", 0.0, Resolving)]) == InFlight(Filled(k))
  {
    InFlightSnoc(Filled(k), Post("", 0.0, Running));
    InFlightSnoc(Filled(k), Post("", 0.0, Resolving));
    assert Filled(k + 1) == Filled(k) + [Post("", 0.0, Running)];
  }

  /** One more message without an id starts, when there is room. */
  lemma FillStep(k: nat, poolMax: int)
    requires InFlight(Filled(k)) == k < 2 * poolMax
    ensures var mid := State(map[], Filled(k) + [Post("", 0.0, Resolving)]);
            && Step(State(map[], Filled(k)), Arrive("", 0.0), poolMax) == Some(mid)
            && Step(mid, Resolve(k, true), poolMax) == Some(State(map[], Filled(k + 1)))
  {
    FilledSnoc(k);
  }

  lemma {:induction false} FillRuns(k: nat, poolMax: int)
    requires k <= 2 * poolMax
    ensures Run(Fill(k), poolMax) == Some(State(map[], Filled(k))) && InFlight(Filled(k)) == k
  {
    hide Step, Filled;
    if k == 0 {
      assert Filled(0) == [];
    } else {
      FillRuns(k - 1, poolMax);
      FillStep(k - 1, poolMax);
      FilledSnoc(k - 1);
      RunSnoc(Fill(k - 1), Arrive("", 0.0), poolMax);
      RunSnoc(Fill(k - 1) + [Arrive("", 0.0)], Resolve(k - 1, true), poolMax);
    }
  }

  /** The three steps that lose a message, from a service that is full. */
  lemma LosingSteps(n: nat, poolMax: nat, id: string)
    requires id != "" && n == 2 * poolMax && InFlight(Filled(n)) == n
    ensures var s0 := State(map[], Filled(n));
            var s1 := State(map[id := 0.0], Filled(n) + [Post(id, 0.0, Resolving)]);
            var s2 := State(map[id := 0.0], Filled(n) + [Post(id, 0.0, Overloaded)]);
            var s3 := State(map[id := 0.0], Filled(n) + [Post(id, 0.0, Overloaded), Post(id, 1.0, Duplicate)]);
            && Step(s0, Arrive(id, 0.0), poolMax) == Some(s1) && Step(s1, Resolve(n, true), poolMax) == Some(s2)
            && Step(s2, Arrive(id, 1.0), poolMax) == Some(s3)
  {
    var seen: Seen := map[id := 0.0];
    InFlightSnoc(Filled(n), Post(id, 0.0, Resolving));
    assert (Filled(n) + [Post(id, 0.0, Resolving)])[n := Post(id, 0.0, Overloaded)] == Filled(n) + [Post(id, 0.0, Overloaded)];
    assert Purged(map[], 0.0) == map[];
    assert Purged(seen, 1.0) == seen;
    Append(Filled(n), Post(id, 0.0, Overloaded), Post(id, 1.0, Duplicate));
  }

  lemma Append(posts: seq<Post>, a: Post, b: Post)
    ensures posts + [a] + [b] == posts + [a, b]
  {
  }

  /**
   Whatever the pool, a message can find the service overloaded; its retry a moment later is then a
   duplicate, although no turn ever ran for it.
   */
  lemma OverloadedMessageIsLost(poolMax: nat, id: string)
    requires id != ""
    ensures var n := 2 * poolMax;
            var events := Fill(n) + [Arrive(id, 0.0)] + [Resolve(n, true)] + [Arrive(id, 1.0)];
            && Run(events, poolMax).Some?
            && var posts := Run(events, poolMax).value.posts;
            && |posts| == n + 2 && posts[n] == Post(id, 0.0, Overloaded) && posts[n + 1] == Post(id, 1.0, Duplicate)
            && forall i :: 0 <= i < |posts| && posts[i].id == id ==> !Started(posts[i])
  {
    hide Step, Fill;
    var n := 2 * poolMax;
    var first := Fill(n) + [Arrive(id, 0.0)];
    FillRuns(n, poolMax);
    LosingSteps(n, poolMax, id);
    RunSnoc(Fill(n), Arrive(id, 0.0), poolMax);
    RunSnoc(first, Resolve(n, true), poolMax);
    RunSnoc(first + [Resolve(n, true)], Arrive(id, 1.0), poolMax);
  }
}
