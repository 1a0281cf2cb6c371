/** Blended ranking of retrieved chunks, with a cap on the chunks of one document. */
module Ranking {
  import opened Wrappers

  datatype Chunk = Chunk(
    person: Option<string>, source: string, path: string, index: int,
    kind: string, docDate: Option<int>, similarity: Option<real>)

  datatype Scored = Scored(score: real, chunk: Chunk)

  /** What a document is to the cap. */
  type Doc = (Option<string>, string, string)

  function DocOf(s: Scored): Doc {
    (s.chunk.person, s.chunk.source, s.chunk.path)
  }

  // --- the score ----------------------------------------------------------------------

  /** The knobs of the recency bonus. `half(x)` stands for `0.5 ** x`. */
  datatype Recency = Recency(
    today: int, kinds: seq<string>, bonus: real, halfLife: real, preferRecent: bool, half: real -> real)

  function Age(c: Chunk, r: Recency): real
    requires c.docDate.Some?
  {
    if r.today >= c.docDate.value then (r.today - c.docDate.value) as real else 0.0
  }

  function Decay(c: Chunk, r: Recency): real
    requires c.docDate.Some?
  {
    r.half(Age(c, r) / (if r.halfLife > 0.01 then r.halfLife else 0.01))
  }

  /** `recency_bonus` */
  function RecencyBonus(c: Chunk, r: Recency): real {
    if c.kind !in r.kinds || c.docDate.None? then 0.0
    else r.bonus * (if r.preferRecent then 2.0 else 1.0) * Decay(c, r)
  }

  function Similarity(c: Chunk): real {
    if c.similarity.Some? then c.similarity.value else 0.0
  }

  /** A halving: it never rises and stays between zero and one. */
  ghost predicate Halves(half: real -> real) {
    && (forall x: real :: x >= 0.0 ==> 0.0 <= half(x) <= 1.0)
    && (forall x: real, y: real :: 0.0 <= x <= y ==> half(y) <= half(x))
  }

  /** Of two chunks of one temporal kind, the fresher never gets the smaller bonus. */
  lemma FresherGetsNoLess(a: Chunk, b: Chunk, r: Recency)
    requires Halves(r.half) && r.bonus >= 0.0 && a.kind == b.kind
    requires a.docDate.Some? && b.docDate.Some? && a.docDate.value >= b.docDate.value
    ensures RecencyBonus(a, r) >= RecencyBonus(b, r)
  {
    DividedOrder(Age(a, r), Age(b, r), if r.halfLife > 0.01 then r.halfLife else 0.01);
    ScaledOrder(r.bonus * (if r.preferRecent then 2.0 else 1.0), Decay(b, r), Decay(a, r));
  }

  /** A bonus is never negative, and at most the configured one, or twice that for a recent question. */
  lemma BonusBounded(c: Chunk, r: Recency)
    requires Halves(r.half) && r.bonus >= 0.0
    ensures 0.0 <= RecencyBonus(c, r) <= r.bonus * (if r.preferRecent then 2.0 else 1.0)
  {
    if c.docDate.Some? {
      DividedOrder(0.0, Age(c, r), if r.halfLife > 0.01 then r.halfLife else 0.01);
      var scale := r.bonus * (if r.preferRecent then 2.0 else 1.0);
      ScaledOrder(scale, 0.0, Decay(c, r));
      ScaledOrder(scale, Decay(c, r), 1.0);
    }
  }

  lemma DividedOrder(x: real, y: real, d: real)
    requires 0.0 <= x <= y && d > 0.0
    ensures 0.0 <= x / d <= y / d
  {
  }

  lemma ScaledOrder(k: real, x: real, y: real)
    requires k >= 0.0 && x <= y
    ensures k * x <= k * y
  {
  }

  // --- the order --------------------------------------------------------------------------

  predicate Less(a: string, b: string) {
    if b == "" then false
    else if a == "" then true
    else a[0] < b[0] || (a[0] == b[0] && Less(a[1..], b[1..]))
  }

  lemma {:induction false} LessTotal(a: string, b: string)
    ensures Less(a, b) || a == b || Less(b, a)
    ensures !(Less(a, b) && Less(b, a))
    decreases |a|
  {
    if a != "" && b != "" && a[0] == b[0] {
      LessTotal(a[1..], b[1..]);
      assert a == [a[0]] + a[1..] && b == [b[0]] + b[1..];
    }
  }

  lemma {:induction false} LessTransitive(a: string, b: string, c: string)
    requires Less(a, b) && Less(b, c)
    ensures Less(a, c)
    decreases |a|
  {
    if a != "" && a[0] == b[0] && b[0] == c[0] {
      LessTransitive(a[1..], b[1..], c[1..]);
    }
  }

  /** The sort key: score downwards, then source, path and index upwards. */
  predicate Before(a: Scored, b: Scored) {
    || a.score > b.score
    || (a.score == b.score
        && (|| Less(a.chunk.source, b.chunk.source)
            || (a.chunk.source == b.chunk.source
                && (|| Less(a.chunk.path, b.chunk.path)
                    || (a.chunk.path == b.chunk.path && a.chunk.index <= b.chunk.index)))))
  }

  lemma BeforeTotal(a: Scored, b: Scored)
    ensures Before(a, b) || Before(b, a)
  {
    LessTotal(a.chunk.source, b.chunk.source);
    LessTotal(a.chunk.path, b.chunk.path);
  }

  lemma BeforeTransitive(a: Scored, b: Scored, c: Scored)
    requires Before(a, b) && Before(b, c)
    ensures Before(a, c)
  {
    if Less(a.chunk.source, b.chunk.source) && Less(b.chunk.source, c.chunk.source) {
      LessTransitive(a.chunk.source, b.chunk.source, c.chunk.source);
    }
    if Less(a.chunk.path, b.chunk.path) && Less(b.chunk.path, c.chunk.path) {
      LessTransitive(a.chunk.path, b.chunk.path, c.chunk.path);
    }
  }

  ghost predicate Ordered(s: seq<Scored>) {
    forall i, j :: 0 <= i < j < |s| ==> Before(s[i], s[j])
  }

  /** A stable sort: `x` goes behind what sorts no later. */
  function Insert(s: seq<Scored>, x: Scored): seq<Scored> {
    if s == [] || Before(s[|s| - 1], x) then s + [x]
    else Insert(s[..|s| - 1], x) + [s[|s| - 1]]
  }

  function Sort(s: seq<Scored>): seq<Scored> {
    if s == [] then [] else Insert(Sort(s[..|s| - 1]), s[|s| - 1])
  }

  lemma {:induction false} InsertKeeps(s: seq<Scored>, x: Scored)
    requires Ordered(s)
    ensures Ordered(Insert(s, x)) && multiset(Insert(s, x)) == multiset(s) + multiset{x}
    decreases s
  {
    if s != [] && !Before(s[|s| - 1], x) {
      var last := s[|s| - 1];
      var front := s[..|s| - 1];
      assert s == front + [last];
      InsertKeeps(front, x);
      BeforeTotal(last, x);
      var r := Insert(front, x);
      forall i | 0 <= i < |r| ensures Before(r[i], last) {
        assert r[i] in multiset(r);
        if r[i] != x {
          assert r[i] in front;
        }
      }
    } else {
      forall i | 0 <= i < |s| ensures Before(s[i], x) {
        if i < |s| - 1 {
          BeforeTransitive(s[i], s[|s| - 1], x);
        }
      }
    }
  }

  lemma {:induction false} SortSorts(s: seq<Scored>)
    ensures Ordered(Sort(s)) && multiset(Sort(s)) == multiset(s)
    decreases s
  {
    if s != [] {
      SortSorts(s[..|s| - 1]);
      InsertKeeps(Sort(s[..|s| - 1]), s[|s| - 1]);
      assert s == s[..|s| - 1] + [s[|s| - 1]];
    }
  }

  // --- the greedy pass -----------------------------------------------------------------------

  function DocCount(s: seq<Scored>, doc: Doc): nat {
    if s == [] then 0 else DocCount(s[..|s| - 1], doc) + if DocOf(s[|s| - 1]) == doc then 1 else 0
  }

  /** Chunks that clear the floor, with their blended scores. */
  function Eligible(chunks: seq<Chunk>, minSim: real, r: Recency): seq<Scored> {
    if chunks == [] then []
    else
      var n := |chunks| - 1;
      var front := Eligible(chunks[..n], minSim, r);
      if Similarity(chunks[n]) < minSim then front
      else front + [Scored(Similarity(chunks[n]) + RecencyBonus(chunks[n], r), chunks[n])]
  }

  /** The chunks of `s` that come before the cap of their own document is used up. */
  function Capped(s: seq<Scored>, cap: int): seq<Scored> {
    if s == [] then []
    else
      var n := |s| - 1;
      Capped(s[..n], cap) + if DocCount(s[..n], DocOf(s[n])) < cap then [s[n]] else []
  }

  function Slots(limit: int): nat {
    if limit < 1 then 1 else limit
  }

  function Top(s: seq<Scored>, limit: int): seq<Scored> {
    if |s| <= Slots(limit) then s else s[..Slots(limit)]
  }

  /** What `rank_chunks` returns: the capped ranking, cut to size. */
  function Ranked(chunks: seq<Chunk>, limit: int, minSim: real, r: Recency, cap: int): seq<Scored> {
    Top(Capped(Sort(Eligible(chunks, minSim, r)), cap), limit)
  }

  /** `rank_chunks`: two loops around a sort. */
  method RankChunks(chunks: seq<Chunk>, limit: int, minSim: real, r: Recency, cap: int) returns (out: seq<Scored>)
    ensures out == Ranked(chunks, limit, minSim, r, cap)
  {
    var scored: seq<Scored> := [];
    for i := 0 to |chunks|
      invariant scored == Eligible(chunks[..i], minSim, r)
    {
      assert chunks[..i + 1][..i] == chunks[..i];
      var sim := Similarity(chunks[i]);
      if sim < minSim {
        continue;
      }
      var bonus := RecencyBonus(chunks[i], r);
      scored := scored + [Scored(sim + bonus, chunks[i])];
    }
    assert chunks[..|chunks|] == chunks;
    scored := Sort(scored);
    out := GreedyPass(scored, limit, cap);
  }

  /** The second loop: it skips a chunk whose document is full and stops when the result is. */
  method GreedyPass(scored: seq<Scored>, limit: int, cap: int) returns (out: seq<Scored>)
    ensures out == Top(Capped(scored, cap), limit)
  {
    out := [];
    var counts: map<Doc, nat> := map[];
    for i := 0 to |scored|
      invariant out == Capped(scored[..i], cap) && |out| < Slots(limit)
      invariant forall doc :: CountOf(counts, doc) == DocCount(out, doc)
    {
      var key := DocOf(scored[i]);
      CappedStep(scored, i, cap);
      if CountOf(counts, key) >= cap {
        continue;
      }
      counts := counts[key := CountOf(counts, key) + 1];
      DocCountStep(out, scored[i]);
      out := out + [scored[i]];
      if |out| >= limit {
        CappedGrows(scored, i + 1, cap);
        return;
      }
    }
    assert scored[..|scored|] == scored;
  }

  lemma CappedStep(s: seq<Scored>, i: nat, cap: int)
    requires i < |s|
    ensures var c := Capped(s[..i], cap);
            Capped(s[..i + 1], cap) == if DocCount(c, DocOf(s[i])) < cap then c + [s[i]] else c
  {
    assert s[..i + 1][..i] == s[..i];
    CountsAgree(s[..i], cap, DocOf(s[i]));
  }

  lemma DocCountStep(s: seq<Scored>, x: Scored)
    ensures forall doc :: DocCount(s + [x], doc) == DocCount(s, doc) + if DocOf(x) == doc then 1 else 0
  {
    assert (s + [x])[..|s|] == s;
  }

  function CountOf(counts: map<Doc, nat>, doc: Doc): nat {
    if doc in counts then counts[doc] else 0
  }

  /** The results of a document are its first chunks, up to the cap. */
  lemma {:induction false} CountsAgree(s: seq<Scored>, cap: int, doc: Doc)
    ensures DocCount(Capped(s, cap), doc) ==
              if cap <= 0 then 0 else if DocCount(s, doc) < cap then DocCount(s, doc) else cap
    decreases s
  {
    if s != [] {
      var n := |s| - 1;
      CountsAgree(s[..n], cap, doc);
      var c := Capped(s, cap);
      if DocCount(s[..n], DocOf(s[n])) < cap {
        assert c[..|c| - 1] == Capped(s[..n], cap);
      } else {
        assert c == Capped(s[..n], cap);
      }
    }
  }

  lemma {:induction false} CappedGrows(s: seq<Scored>, i: nat, cap: int)
    requires i <= |s|
    ensures Capped(s[..i], cap) <= Capped(s, cap)
    decreases |s| - i
  {
    if i < |s| {
      CappedGrows(s, i + 1, cap);
      assert s[..i + 1][..i] == s[..i];
    } else {
      assert s[..i] == s;
    }
  }

  // --- what the result is ---------------------------------------------------------------------

  lemma {:induction false} EligibleClearFloor(chunks: seq<Chunk>, minSim: real, r: Recency)
    ensures forall e | e in Eligible(chunks, minSim, r) ::
              && e.chunk in chunks && Similarity(e.chunk) >= minSim
              && e.score == Similarity(e.chunk) + RecencyBonus(e.chunk, r)
    ensures forall c | c in chunks && Similarity(c) >= minSim ::
              Scored(Similarity(c) + RecencyBonus(c, r), c) in Eligible(chunks, minSim, r)
    decreases chunks
  {
    if chunks != [] {
      var n := |chunks| - 1;
      EligibleClearFloor(chunks[..n], minSim, r);
      assert chunks == chunks[..n] + [chunks[n]];
    }
  }

  /** Capping takes from the list, nothing twice. */
  lemma {:induction false} CappedPicks(s: seq<Scored>, cap: int)
    ensures multiset(Capped(s, cap)) <= multiset(s)
    ensures forall x | x in Capped(s, cap) :: x in s
    decreases s
  {
    if s != [] {
      var n := |s| - 1;
      CappedPicks(s[..n], cap);
      assert s == s[..n] + [s[n]];
    }
  }

  lemma {:induction false} CappedOrdered(s: seq<Scored>, cap: int)
    requires Ordered(s)
    ensures Ordered(Capped(s, cap))
    decreases s
  {
    if s != [] {
      var n := |s| - 1;
      CappedOrdered(s[..n], cap);
      CappedPicks(s[..n], cap);
      forall x | x in Capped(s[..n], cap) ensures Before(x, s[n]) {
        assert x in s[..n];
      }
    }
  }

  lemma {:induction false} PrefixCounts(s: seq<Scored>, k: nat, doc: Doc)
    requires k <= |s|
    ensures DocCount(s[..k], doc) <= DocCount(s, doc)
    decreases |s| - k
  {
    if k < |s| {
      PrefixCounts(s, k + 1, doc);
      assert s[..k + 1][..k] == s[..k];
    } else {
      assert s[..k] == s;
    }
  }

  lemma TopPrefix(s: seq<Scored>, limit: int)
    ensures Top(s, limit) <= s && |Top(s, limit)| <= Slots(limit)
    ensures s == Top(s, limit) + s[|Top(s, limit)|..]
  {
  }

  /** The result is sorted, within the limit, and within the cap of every document. */
  lemma RankedIsSound(chunks: seq<Chunk>, limit: int, minSim: real, r: Recency, cap: int)
    ensures var out := Ranked(chunks, limit, minSim, r, cap);
            && Ordered(out) && |out| <= Slots(limit)
            && forall doc :: DocCount(out, doc) <= if cap < 0 then 0 else cap
  {
    var s := Sort(Eligible(chunks, minSim, r));
    SortSorts(Eligible(chunks, minSim, r));
    CappedOrdered(s, cap);
    var out := Top(Capped(s, cap), limit);
    forall doc ensures DocCount(out, doc) <= if cap < 0 then 0 else cap {
      CountsAgree(s, cap, doc);
      PrefixCounts(Capped(s, cap), |out|, doc);
    }
  }

  /** The result is drawn from the eligible chunks, nothing twice. */
  lemma RankedFromEligible(chunks: seq<Chunk>, limit: int, minSim: real, r: Recency, cap: int)
    ensures multiset(Ranked(chunks, limit, minSim, r, cap)) <= multiset(Eligible(chunks, minSim, r))
  {
    var e := Eligible(chunks, minSim, r);
    SortSorts(e);
    CappedPicks(Sort(e), cap);
    var c := Capped(Sort(e), cap);
    TopPrefix(c, limit);
    assert multiset(c) == multiset(Top(c, limit)) + multiset(c[|Top(c, limit)|..]);
  }

  /** Every chunk in the result clears the raw floor; recency only moves it up or down. */
  lemma RankedClearFloor(chunks: seq<Chunk>, limit: int, minSim: real, r: Recency, cap: int, x: Scored)
    requires x in Ranked(chunks, limit, minSim, r, cap)
    ensures x.chunk in chunks && Similarity(x.chunk) >= minSim
    ensures x.score == Similarity(x.chunk) + RecencyBonus(x.chunk, r)
  {
    RankedFromEligible(chunks, limit, minSim, r, cap);
    EligibleClearFloor(chunks, minSim, r);
    assert x in multiset(Ranked(chunks, limit, minSim, r, cap));
    assert x in multiset(Eligible(chunks, minSim, r));
    assert x in Eligible(chunks, minSim, r);
  }

  /** The results among the first `j` of the ranking. */
  function Upto(s: seq<Scored>, j: nat, limit: int, cap: int): seq<Scored>
    requires j <= |s|
  {
    Top(Capped(s[..j], cap), limit)
  }

  /**
   Going down the ranking, a chunk is either taken or left out, and it is left out only behind a full
   cap of its own document or behind a full result.
   */
  lemma WhyLeftOut(s: seq<Scored>, j: nat, limit: int, cap: int)
    requires j < |s|
    ensures Upto(s, j, limit, cap) <= Top(Capped(s, cap), limit)
    ensures var before, after := Upto(s, j, limit, cap), Upto(s, j + 1, limit, cap);
            || after == before + [s[j]]
            || (after == before && DocCount(before, DocOf(s[j])) == if cap < 0 then 0 else cap)
            || (after == before == Top(Capped(s, cap), limit) && |before| == Slots(limit))
  {
    var c := Capped(s[..j], cap);
    CappedGrows(s, j, cap);
    CappedGrows(s, j + 1, cap);
    CappedStep(s, j, cap);
    CountsAgree(s[..j], cap, DocOf(s[j]));
    if |c| >= Slots(limit) {
      assert Top(Capped(s, cap), limit) == Top(c, limit);
    }
  }

  /** A larger limit only extends the result. */
  lemma LargerLimitExtends(chunks: seq<Chunk>, small: int, large: int, minSim: real, r: Recency, cap: int)
    requires small <= large
    ensures Ranked(chunks, small, minSim, r, cap) <= Ranked(chunks, large, minSim, r, cap)
  {
  }

  /** A limit of zero or less gives what a limit of one gives, and that is a chunk whenever one is eligible. */
  lemma ZeroLimitGivesOne(chunks: seq<Chunk>, limit: int, minSim: real, r: Recency, cap: int)
    requires limit <= 1
    ensures Ranked(chunks, limit, minSim, r, cap) == Ranked(chunks, 1, minSim, r, cap)
    ensures |Ranked(chunks, limit, minSim, r, cap)| ==
              if cap >= 1 && exists c :: c in chunks && Similarity(c) >= minSim then 1 else 0
  {
    var e := Eligible(chunks, minSim, r);
    var s := Sort(e);
    SortSorts(e);
    EligibleClearFloor(chunks, minSim, r);
    assert |s| == |multiset(s)| == |e|;
    if e != [] {
      assert e[0] in e;
      CappedGrows(s, 1, cap);
      assert s[..1][..0] == [];
      assert DocCount([], DocOf(s[0])) == 0;
    }
    if cap <= 0 {
      NoRoom(s, cap);
    }
  }

  lemma {:induction false} NoRoom(s: seq<Scored>, cap: int)
    requires cap <= 0
    ensures Capped(s, cap) == []
    decreases s
  {
    if s != [] {
      NoRoom(s[..|s| - 1], cap);
    }
  }
}
