/** The token bucket of each handle, over any run of messages with a clock that never goes back. */
module RateLimit {
  type Key = (string, string)

  datatype Bucket = Bucket(tokens: real, at: real)

  type Buckets = map<Key, Bucket>

  function Min(a: real, b: real): real {
    if a <= b then a else b
  }

  /** The tokens of a bucket at `now`, refilled at `rate` a minute up to `rate`. */
  function Refilled(rate: int, b: Bucket, now: real): real {
    Min(rate as real, b.tokens + Gain(rate, now - b.at))
  }

  function Gain(rate: int, seconds: real): real {
    seconds * PerSecond(rate)
  }

  function PerSecond(rate: int): real {
    rate as real / 60.0
  }

  /** One call of `allow`: the new buckets and the answer. */
  function Take(rate: int, buckets: Buckets, key: Key, now: real): (Buckets, bool) {
    if rate <= 0 then (buckets, true)
    else if key !in buckets then (buckets[key := Bucket(rate as real - 1.0, now)], true)
    else
      var tokens := Refilled(rate, buckets[key], now);
      if tokens >= 1.0 then (buckets[key := Bucket(tokens - 1.0, now)], true)
      else (buckets[key := Bucket(tokens, now)], false)
  }

  class RateLimiter {
    const rate: int
    var buckets: Buckets

    constructor (perMinute: int)
      ensures rate == perMinute && buckets == map[]
    {
      rate := perMinute;
      buckets := map[];
    }

    method Allow(key: Key, now: real) returns (ok: bool)
      modifies this
      ensures (buckets, ok) == Take(rate, old(buckets), key, now)
    {
      if rate <= 0 {
        return true;
      }
      if key !in buckets {
        buckets := buckets[key := Bucket(rate as real - 1.0, now)];
        return true;
      }
      var tokens := Refilled(rate, buckets[key], now);
      ok := tokens >= 1.0;
      if ok {
        tokens := tokens - 1.0;
      }
      buckets := buckets[key := Bucket(tokens, now)];
    }
  }

  // --- runs -----------------------------------------------------------------------

  /** One message: whose it is and when it came. */
  datatype Event = Event(key: Key, at: real)

  predicate ClockRuns(events: seq<Event>) {
    forall i, j :: 0 <= i <= j < |events| ==> events[i].at <= events[j].at
  }

  /** The buckets before message `n`. */
  function After(rate: int, events: seq<Event>, n: nat): Buckets
    requires n <= |events|
  {
    if n == 0 then map[] else Take(rate, After(rate, events, n - 1), events[n - 1].key, events[n - 1].at).0
  }

  predicate IsAllowed(rate: int, events: seq<Event>, i: nat)
    requires i < |events|
  {
    Take(rate, After(rate, events, i), events[i].key, events[i].at).1
  }

  /** How many messages of `key` among `i..j` were allowed. */
  function AllowedCount(rate: int, events: seq<Event>, key: Key, i: nat, j: nat): nat
    requires i <= j <= |events|
  {
    if i == j then 0
    else AllowedCount(rate, events, key, i, j - 1)
         + (if events[j - 1].key == key && IsAllowed(rate, events, j - 1) then 1 else 0)
  }

  lemma GainGrows(rate: int, a: real, b: real)
    requires rate >= 0 && a <= b
    ensures Gain(rate, a) <= Gain(rate, b) && Gain(rate, 0.0) == 0.0
    ensures Gain(rate, b) == Gain(rate, a) + Gain(rate, b - a)
  {
    var r := PerSecond(rate);
    assert r >= 0.0;
    assert b * r == a * r + (b - a) * r;
    assert (b - a) * r >= 0.0;
  }

  /** A bucket never holds less than nothing or more than the rate, and its clock never runs ahead. */
  lemma {:induction false} TokensInRange(rate: int, events: seq<Event>, n: nat, key: Key)
    requires rate > 0 && ClockRuns(events) && n <= |events|
    ensures key in After(rate, events, n) ==>
              var b := After(rate, events, n)[key];
              && 0.0 <= b.tokens <= rate as real
              && forall m :: n <= m < |events| ==> b.at <= events[m].at
  {
    if n > 0 {
      TokensInRange(rate, events, n - 1, key);
      var e := events[n - 1];
      if e.key == key && key in After(rate, events, n - 1) {
        GainGrows(rate, 0.0, e.at - After(rate, events, n - 1)[key].at);
      }
    }
  }

  predicate Sent(events: seq<Event>, key: Key, i: nat, j: nat)
    requires i <= j <= |events|
  {
    exists k :: i <= k < j && events[k].key == key
  }

  /**
   Once `key` has sent something since message `i`, its allowed messages and the tokens left
   together never pass the rate and what time has refilled since then.
   */
  lemma {:induction false} Potential(rate: int, events: seq<Event>, key: Key, i: nat, j: nat)
    requires rate > 0 && ClockRuns(events) && i <= j <= |events|
    ensures !Sent(events, key, i, j) ==> AllowedCount(rate, events, key, i, j) == 0
    ensures Sent(events, key, i, j) ==>
              && key in After(rate, events, j)
              && var b := After(rate, events, j)[key];
                 && events[i].at <= b.at <= events[j - 1].at
                 && AllowedCount(rate, events, key, i, j) as real + b.tokens
                    <= rate as real + Gain(rate, b.at - events[i].at)
    decreases j
  {
    if i < j {
      Potential(rate, events, key, i, j - 1);
      var e := events[j - 1];
      if e.key == key {
        TokensInRange(rate, events, j, key);
        if Sent(events, key, i, j - 1) {
          var b := After(rate, events, j - 1)[key];
          TokensInRange(rate, events, j - 1, key);
          GainGrows(rate, b.at - events[i].at, e.at - events[i].at);
        } else {
          GainGrows(rate, 0.0, e.at - events[i].at);
        }
      } else {
        assert Sent(events, key, i, j) ==> Sent(events, key, i, j - 1);
      }
    }
  }

  /** In every window of `w` seconds one handle gets at most `rate + rate * w / 60` messages through. */
  lemma WindowBound(rate: int, events: seq<Event>, key: Key, i: nat, j: nat, w: real)
    requires rate > 0 && ClockRuns(events) && i < j <= |events| && events[j - 1].at - events[i].at <= w
    ensures AllowedCount(rate, events, key, i, j) as real <= rate as real + Gain(rate, w)
    ensures Gain(rate, w) == rate as real * w / 60.0
  {
    Potential(rate, events, key, i, j);
    TokensInRange(rate, events, j, key);
    if Sent(events, key, i, j) {
      GainGrows(rate, After(rate, events, j)[key].at - events[i].at, w);
    } else {
      GainGrows(rate, 0.0, w);
    }
  }

  /** The messages of `key` are at least `gap` seconds apart. */
  predicate Spaced(events: seq<Event>, key: Key, gap: real) {
    forall i, j :: 0 <= i < j < |events| && events[i].key == key && events[j].key == key
      ==> events[j].at - events[i].at >= gap
  }

  /** The bucket of `key` was last touched by one of its own messages. */
  lemma {:induction false} TouchedByOwn(rate: int, events: seq<Event>, key: Key, n: nat)
    requires rate > 0 && n <= |events|
    ensures key in After(rate, events, n) ==>
              exists k :: 0 <= k < n && events[k].key == key && After(rate, events, n)[key].at == events[k].at
  {
    if n > 0 {
      TouchedByOwn(rate, events, key, n - 1);
    }
  }

  lemma MinuteShare(rate: int)
    requires rate > 0
    ensures Gain(rate, 60.0 / rate as real) == 1.0
  {
    var r := rate as real;
    assert r > 0.0;
    assert (60.0 / r) * r == 60.0;
    assert (60.0 / r) * (r / 60.0) == ((60.0 / r) * r) / 60.0;
  }

  /** A handle that leaves 60 / rate seconds between its messages is never refused for rate. */
  lemma SpacedNeverRefused(rate: int, events: seq<Event>, key: Key, n: nat)
    requires rate > 0 && ClockRuns(events) && n < |events| && events[n].key == key
    requires Spaced(events, key, 60.0 / rate as real)
    ensures IsAllowed(rate, events, n)
  {
    if key in After(rate, events, n) {
      TokensInRange(rate, events, n, key);
      TouchedByOwn(rate, events, key, n);
      var b := After(rate, events, n)[key];
      var k :| 0 <= k < n && events[k].key == key && b.at == events[k].at;
      EnoughForOne(rate, b, events[n].at);
    }
  }

  lemma EnoughForOne(rate: int, b: Bucket, now: real)
    requires rate > 0 && b.tokens >= 0.0 && now - b.at >= 60.0 / rate as real
    ensures Refilled(rate, b, now) >= 1.0
  {
    MinuteShare(rate);
    GainGrows(rate, 60.0 / rate as real, now - b.at);
  }

  /** A rate of zero or less never refuses. */
  lemma NoLimit(rate: int, events: seq<Event>, n: nat)
    requires rate <= 0 && n < |events|
    ensures IsAllowed(rate, events, n)
  {
  }
}
