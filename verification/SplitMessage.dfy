/** Cutting a reply into messages of limited length. */
module SplitMessage {
  import opened Arithmetic
  import opened Text

  predicate NonEmpty(parts: seq<string>) {
    forall i :: 0 <= i < |parts| ==> parts[i] != ""
  }

  predicate Fitting(parts: seq<string>, limit: nat) {
    forall i :: 0 <= i < |parts| ==> 0 < |parts[i]| <= limit
  }

  // --- lines --------------------------------------------------------------------------

  /** The characters at which `str.splitlines` ends a line. */
  predicate IsBreak(c: char) {
    || c == '\n' || c == '\r' || c == '\U{0b}' || c == '\U{0c}' || '\U{1c}' <= c <= '\U{1e}'
    || c == '\U{85}' || c == '\U{2028}' || c == '\U{2029}'
  }

  /** The length of the first line with its line end. */
  function FirstLine(text: string): (n: nat)
    requires text != ""
    ensures 0 < n <= |text|
  {
    if text[0] == '\r' && |text| > 1 && text[1] == '\n' then 2
    else if IsBreak(text[0]) || |text| == 1 then 1
    else 1 + FirstLine(text[1..])
  }

  /** `text.splitlines(keepends=True)` */
  function SplitLines(text: string): (lines: seq<string>)
    ensures NonEmpty(lines)
  {
    if text == "" then [] else [text[..FirstLine(text)]] + SplitLines(text[FirstLine(text)..])
  }

  lemma {:induction false} ConcatAppend(a: seq<string>, b: seq<string>)
    ensures Concat(a + b) == Concat(a) + Concat(b)
  {
    if a == [] {
      assert a + b == b;
    } else {
      ConcatAppend(a[1..], b);
      assert (a + b)[1..] == a[1..] + b;
    }
  }

  lemma {:induction false} LinesConcat(text: string)
    ensures Concat(SplitLines(text)) == text
  {
    if text != "" {
      LinesConcat(text[FirstLine(text)..]);
    }
  }

  // --- pieces: whole lines, and long lines cut hard ----------------------------------------

  function Chop(line: string, limit: nat): (pieces: seq<string>)
    requires limit >= 1 && line != ""
    ensures Fitting(pieces, limit)
    ensures pieces != []
    ensures |line| <= limit ==> pieces == [line]
  {
    if |line| <= limit then [line] else [line[..limit]] + Chop(line[limit..], limit)
  }

  function Pieces(lines: seq<string>, limit: nat): (pieces: seq<string>)
    requires limit >= 1 && NonEmpty(lines)
    ensures Fitting(pieces, limit)
  {
    if lines == [] then [] else Chop(lines[0], limit) + Pieces(lines[1..], limit)
  }

  lemma {:induction false} ChopConcat(line: string, limit: nat)
    requires limit >= 1 && line != ""
    ensures Concat(Chop(line, limit)) == line
    decreases |line|
  {
    if |line| > limit {
      ChopConcat(line[limit..], limit);
      ConcatAppend([line[..limit]], Chop(line[limit..], limit));
      assert line == line[..limit] + line[limit..];
    }
  }

  lemma {:induction false} PiecesConcat(lines: seq<string>, limit: nat)
    requires limit >= 1 && NonEmpty(lines)
    ensures Concat(Pieces(lines, limit)) == Concat(lines)
  {
    if lines != [] {
      ChopConcat(lines[0], limit);
      PiecesConcat(lines[1..], limit);
      ConcatAppend(Chop(lines[0], limit), Pieces(lines[1..], limit));
    }
  }

  // --- packing -----------------------------------------------------------------------------

  /** Fill each part with as many pieces as fit. */
  function Pack(current: string, pieces: seq<string>, limit: nat): seq<string>
    decreases pieces
  {
    if pieces == [] then if current == "" then [] else [current]
    else if |current| + |pieces[0]| > limit then [current] + Pack(pieces[0], pieces[1..], limit)
    else Pack(current + pieces[0], pieces[1..], limit)
  }

  /** A full part is closed by whatever follows. */
  lemma FullPart(chunk: string, pieces: seq<string>, limit: nat)
    requires limit >= 1 && |chunk| == limit && Fitting(pieces, limit)
    ensures Pack(chunk, pieces, limit) == [chunk] + Pack("", pieces, limit)
  {
    if pieces != [] {
      assert "" + pieces[0] == pieces[0];
    }
  }

  /** The parts `split_message` gives for `text`. */
  function Parts(text: string, limit: nat): seq<string>
    requires limit >= 1
  {
    Pack("", Pieces(SplitLines(text), limit), limit)
  }

  /** The final parts, as seen from inside the loops. */
  function Final(parts: seq<string>, current: string, pieces: seq<string>, limit: nat): seq<string> {
    parts + Pack(current, pieces, limit)
  }

  /** The parts with the open one closed, unless there is none. */
  function Closed(parts: seq<string>, current: string): seq<string> {
    if current == "" then parts else parts + [current]
  }

  /** `split_message`: nested loops over the lines and over the length of a long line. */
  method Split(text: string, limit: nat) returns (parts: seq<string>)
    requires limit >= 1
    ensures parts == Parts(text, limit)
  {
    var lines := SplitLines(text);
    ghost var all := Final([], "", Pieces(lines, limit), limit);
    parts := [];
    var current := "";
    assert lines[0..] == lines;
    for i := 0 to |lines|
      invariant all == Final(parts, current, Pieces(lines[i..], limit), limit)
    {
      var line := lines[i];
      ghost var rest := Pieces(lines[i + 1..], limit);
      LinePieces(lines, i, limit);
      while |line| > limit
        invariant line != ""
        invariant all == Final(parts, current, Chop(line, limit) + rest, limit)
        decreases |line|
      {
        LongStep(parts, current, line, rest, limit);
        if current != "" {
          parts := parts + [current];
          current := "";
        }
        parts := parts + [line[..limit]];
        line := line[limit..];
      }
      ShortStep(parts, current, line, rest, limit);
      if |current| + |line| > limit {
        parts := parts + [current];
        current := line;
      } else {
        current := current + line;
      }
    }
    LastStep(parts, current, limit);
    if current != "" {
      parts := parts + [current];
    }
  }

  lemma LinePieces(lines: seq<string>, i: nat, limit: nat)
    requires limit >= 1 && NonEmpty(lines) && i < |lines|
    ensures Pieces(lines[i..], limit) == Chop(lines[i], limit) + Pieces(lines[i + 1..], limit)
  {
    assert lines[i..][1..] == lines[i + 1..];
  }

  /** A long line closes the open part and gives one full part. */
  lemma LongStep(parts: seq<string>, current: string, line: string, rest: seq<string>, limit: nat)
    requires limit >= 1 && |line| > limit && Fitting(rest, limit)
    ensures Final(parts, current, Chop(line, limit) + rest, limit) ==
              Final(Closed(parts, current) + [line[..limit]], "", Chop(line[limit..], limit) + rest, limit)
  {
    var chunk, after := line[..limit], Chop(line[limit..], limit) + rest;
    Associative([chunk], Chop(line[limit..], limit), rest);
    ChunkStep(current, chunk, after, limit);
    Associative(parts, [current], [chunk] + Pack("", after, limit));
    Associative(Closed(parts, current), [chunk], Pack("", after, limit));
  }

  lemma ShortStep(parts: seq<string>, current: string, line: string, rest: seq<string>, limit: nat)
    requires limit >= 1 && 0 < |line| <= limit
    ensures Final(parts, current, Chop(line, limit) + rest, limit) ==
              if |current| + |line| > limit then Final(parts + [current], line, rest, limit)
              else Final(parts, current + line, rest, limit)
  {
    assert ([line] + rest)[1..] == rest;
    Associative(parts, [current], Pack(line, rest, limit));
  }

  lemma LastStep(parts: seq<string>, current: string, limit: nat)
    ensures Final(parts, current, [], limit) == Closed(parts, current)
  {
  }

  lemma ChunkStep(current: string, chunk: string, after: seq<string>, limit: nat)
    requires limit >= 1 && |chunk| == limit && Fitting(after, limit)
    ensures Pack(current, [chunk] + after, limit) ==
              if current == "" then [chunk] + Pack("", after, limit) else [current] + ([chunk] + Pack("", after, limit))
  {
    assert ([chunk] + after)[1..] == after;
    FullPart(chunk, after, limit);
    if current == "" {
      assert current + chunk == chunk;
    }
  }

  // --- what the parts are ----------------------------------------------------------------------

  lemma ConcatCons(part: string, rest: seq<string>)
    ensures Concat([part] + rest) == part + Concat(rest)
  {
    assert ([part] + rest)[1..] == rest;
  }

  lemma {:induction false} PackConcat(current: string, pieces: seq<string>, limit: nat)
    ensures Concat(Pack(current, pieces, limit)) == current + Concat(pieces)
    decreases pieces
  {
    if pieces != [] {
      if |current| + |pieces[0]| > limit {
        PackConcat(pieces[0], pieces[1..], limit);
        ConcatCons(current, Pack(pieces[0], pieces[1..], limit));
      } else {
        PackConcat(current + pieces[0], pieces[1..], limit);
        Associative(current, pieces[0], Concat(pieces[1..]));
      }
    } else if current != "" {
      ConcatCons(current, []);
      assert [current] + [] == [current];
    }
  }

  /** No two neighbours would fit into one message. */
  predicate Tight(parts: seq<string>, limit: nat) {
    forall i :: 0 <= i < |parts| - 1 ==> |parts[i]| + |parts[i + 1]| > limit
  }

  lemma {:induction false} PackFits(current: string, pieces: seq<string>, limit: nat)
    requires |current| <= limit && Fitting(pieces, limit)
    ensures Fitting(Pack(current, pieces, limit), limit) && Tight(Pack(current, pieces, limit), limit)
    ensures current != "" ==> Pack(current, pieces, limit) != [] && |Pack(current, pieces, limit)[0]| >= |current|
    decreases pieces
  {
    if pieces != [] {
      if |current| + |pieces[0]| > limit {
        PackFits(pieces[0], pieces[1..], limit);
      } else {
        PackFits(current + pieces[0], pieces[1..], limit);
      }
    }
  }

  /**
   The messages concatenate to the text, each is non-empty and within the limit, and any two
   neighbours together exceed it.
   */
  lemma PartsAreTheText(text: string, limit: nat)
    requires limit >= 1
    ensures Concat(Parts(text, limit)) == text
    ensures Fitting(Parts(text, limit), limit) && Tight(Parts(text, limit), limit)
  {
    var pieces := Pieces(SplitLines(text), limit);
    PackConcat("", pieces, limit);
    PiecesConcat(SplitLines(text), limit);
    LinesConcat(text);
    PackFits("", pieces, limit);
  }

  lemma {:induction false} TightLength(parts: seq<string>, limit: nat)
    requires Fitting(parts, limit) && Tight(parts, limit)
    ensures (limit + 1) * (|parts| / 2) <= |Concat(parts)|
    decreases parts
  {
    if |parts| >= 2 {
      var rest := parts[2..];
      assert forall i :: 0 <= i < |rest| ==> rest[i] == parts[i + 2];
      TightLength(rest, limit);
      assert parts[1..][1..] == rest && parts[1..][0] == parts[1];
      assert |Concat(parts)| == |parts[0]| + |parts[1]| + |Concat(rest)|;
      assert |parts| / 2 == |rest| / 2 + 1;
      assert (limit + 1) * (|rest| / 2 + 1) == (limit + 1) * (|rest| / 2) + (limit + 1);
    }
  }

  lemma PartCount(text: string, limit: nat)
    requires limit >= 1
    ensures |Parts(text, limit)| <= 2 * (|text| / (limit + 1)) + 1
  {
    PartsAreTheText(text, limit);
    TightCount(Parts(text, limit), limit);
  }

  lemma TightCount(parts: seq<string>, limit: nat)
    requires Fitting(parts, limit) && Tight(parts, limit)
    ensures |parts| <= 2 * (|Concat(parts)| / (limit + 1)) + 1
  {
    TightLength(parts, limit);
    AtMost(|parts| / 2, limit + 1, |Concat(parts)|);
  }

  // --- fewest messages ---------------------------------------------------------------------------

  /** Any other way to put the same pieces into parts: a part ends before each piece whose cut is true. */
  function Regroup(current: string, pieces: seq<string>, cuts: seq<bool>): seq<string>
    requires |cuts| == |pieces|
    decreases pieces
  {
    if pieces == [] then if current == "" then [] else [current]
    else if cuts[0] then [current] + Regroup(pieces[0], pieces[1..], cuts[1..])
    else Regroup(current + pieces[0], pieces[1..], cuts[1..])
  }

  /** A packing that holds more in its open part, or is one part ahead, stays no worse. */
  lemma {:induction false} PackNoWorse(g: string, o: string, pieces: seq<string>, cuts: seq<bool>, limit: nat)
    requires limit >= 1 && |cuts| == |pieces| && |g| <= limit && Fitting(pieces, limit)
    requires forall q | q in Regroup(o, pieces, cuts) :: |q| <= limit
    requires o != "" && g != ""
    ensures |Pack(g, pieces, limit)| <= |Regroup(o, pieces, cuts)| + 1
    ensures |g| <= |o| ==> |Pack(g, pieces, limit)| <= |Regroup(o, pieces, cuts)|
    decreases pieces
  {
    if pieces != [] {
      var p, rest, flags := pieces[0], pieces[1..], cuts[1..];
      var g1 := if |g| + |p| > limit then p else g + p;
      var o1 := if cuts[0] then p else o + p;
      assert forall q | q in Regroup(o1, rest, flags) :: q in Regroup(o, pieces, cuts);
      PackNoWorse(g1, o1, rest, flags, limit);
      OpenPart(o1, rest, flags);
    }
  }

  lemma {:induction false} OpenPart(o: string, pieces: seq<string>, cuts: seq<bool>)
    requires |cuts| == |pieces| && o != ""
    ensures Regroup(o, pieces, cuts) != [] && |Regroup(o, pieces, cuts)[0]| >= |o|
    decreases pieces
  {
    if pieces != [] && !cuts[0] {
      OpenPart(o + pieces[0], pieces[1..], cuts[1..]);
    }
  }

  /**
   Whoever keeps short lines whole and cuts long ones at the limit needs at least as many messages:
   the greedy split is the shortest.
   */
  lemma FewestParts(text: string, limit: nat, cuts: seq<bool>)
    requires limit >= 1
    requires var pieces := Pieces(SplitLines(text), limit);
             |cuts| == |pieces| && forall q | q in Regroup("", pieces, cuts) :: |q| <= limit
    ensures |Parts(text, limit)| <= |Regroup("", Pieces(SplitLines(text), limit), cuts)|
  {
    var pieces := Pieces(SplitLines(text), limit);
    if pieces != [] {
      var p, rest, flags := pieces[0], pieces[1..], cuts[1..];
      assert "" + p == p;
      assert forall q | q in Regroup(p, rest, flags) :: q in Regroup("", pieces, cuts);
      PackNoWorse(p, p, rest, flags, limit);
    }
  }
}
