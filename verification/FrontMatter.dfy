/** The front matter a migrated journal page gets: a `---` block with `people` and `date` keys. */
module FrontMatter {
  import opened Wrappers
  import opened Text

  const OPEN := "---\n"

  predicate ClosesAt(s: string, i: nat) {
    i + 4 <= |s| && s[i] == '\n' && s[i + 1] == '-' && s[i + 2] == '-' && s[i + 3] == '-'
  }

  /** The first line break that three dashes follow. */
  function FindClose(s: string): (r: Option<nat>)
    ensures r.Some? ==> ClosesAt(s, r.value) && forall i :: 0 <= i < r.value ==> !ClosesAt(s, i)
    ensures r.None? ==> forall i: nat :: !ClosesAt(s, i)
  {
    FindCloseFrom(s, 0)
  }

  function FindCloseFrom(s: string, from: nat): (r: Option<nat>)
    requires from <= |s|
    ensures r.Some? ==> from <= r.value && ClosesAt(s, r.value) && forall i :: from <= i < r.value ==> !ClosesAt(s, i)
    ensures r.None? ==> forall i: nat :: from <= i ==> !ClosesAt(s, i)
    decreases |s| - from
  {
    if from == |s| then None
    else if ClosesAt(s, from) then Some(from)
    else FindCloseFrom(s, from + 1)
  }

  /** A text split at its front matter: the lines of the block, and what follows it. */
  datatype Page = Page(body: string, rest: string)

  /** The match of `\A---\n(?P<body>.*?)\n---\n?`, or None. */
  function Parse(text: string): Option<Page> {
    if !StartsWith(text, OPEN) then None
    else
      var tail := text[4..];
      match FindClose(tail)
      case None => None
      case Some(i) =>
        var after := tail[i + 4..];
        Some(Page(tail[..i], Behind(after)))
  }

  function Lines(body: string): seq<string> {
    if body == "" then [] else Split(body, '\n')
  }

  predicate HasLine(lines: seq<string>, key: string) {
    exists i :: 0 <= i < |lines| && StartsWith(lines[i], key)
  }

  const PEOPLE_KEY := "people:"
  const DATE_KEY := "date:"

  function PeopleLine(pid: string): string { PEOPLE_KEY + " [" + pid + "]" }
  function DateLine(date: string): string { DATE_KEY + " " + date }

  function AddMissing(lines: seq<string>, pid: string, date: string): seq<string> {
    var withPeople := if HasLine(lines, PEOPLE_KEY) then lines else lines + [PeopleLine(pid)];
    if HasLine(withPeople, DATE_KEY) then withPeople else withPeople + [DateLine(date)]
  }

  function Render(lines: seq<string>, rest: string): string {
    OPEN + Join(lines, '\n') + "\n---\n" + rest
  }

  /** `_add_front_matter_keys`. */
  function AddKeys(text: string, pid: string, date: string): string {
    match Parse(text)
    case None => Render([PeopleLine(pid), DateLine(date)], text)
    case Some(page) => Render(AddMissing(Lines(page.body), pid, date), page.rest)
  }

  /** The list is appended to, one missing key at a time. */
  method AddFrontMatterKeys(text: string, pid: string, date: string) returns (r: string)
    ensures r == AddKeys(text, pid, date)
  {
    var match_ := Parse(text);
    if match_.None? {
      return Render([PeopleLine(pid), DateLine(date)], text);
    }
    var lines := Lines(match_.value.body);
    if !HasLine(lines, PEOPLE_KEY) {
      lines := lines + [PeopleLine(pid)];
    }
    if !HasLine(lines, DATE_KEY) {
      lines := lines + [DateLine(date)];
    }
    return Render(lines, match_.value.rest);
  }

  /** The text of a page without its front matter. */
  function BodyText(text: string): string {
    match Parse(text)
    case None => text
    case Some(page) => page.rest
  }

  // --- reading back what was rendered -----------------------------------------------

  predicate OneLine(s: string) {
    '\n' !in s
  }

  /** Lines that a rendered block gives back: no line but the first starts with three dashes. */
  predicate Printable(lines: seq<string>) {
    && lines != [] && lines != [""]
    && (forall l | l in lines :: OneLine(l))
    && (forall i :: 1 <= i < |lines| ==> !StartsWith(lines[i], "---"))
  }

  /** Inside printed lines there is no closing fence. */
  lemma {:induction false} NoCloseInLines(lines: seq<string>, i: nat)
    requires Printable(lines) || (lines != [] && (forall l | l in lines :: OneLine(l)) && forall j :: 1 <= j < |lines| ==> !StartsWith(lines[j], "---"))
    ensures !ClosesAt(Join(lines, '\n'), i)
    decreases |lines|
  {
    var s := Join(lines, '\n');
    var n := |lines[0]|;
    assert lines[0] in lines;
    if |lines| > 1 {
      var rest := lines[1..];
      var t := Join(rest, '\n');
      assert s == lines[0] + ['\n'] + t;
      assert forall l | l in rest :: l in lines;
      JoinStarts(rest, '\n');
      if i < n {
        assert s[i] == lines[0][i];
      } else if i == n {
        assert forall k :: 0 <= k < |t| ==> s[n + 1 + k] == t[k];
        assert !StartsWith(lines[1], "---");
        if ClosesAt(s, i) {
          assert t[0] == '-' && t[1] == '-' && t[2] == '-';
          FirstLineDashes(rest);
        }
      } else {
        NoCloseInLines(rest, i - n - 1);
        assert forall k :: 0 <= k < |t| ==> s[n + 1 + k] == t[k];
      }
    }
  }

  lemma JoinStarts(lines: seq<string>, sep: char)
    requires lines != []
    ensures |Join(lines, sep)| >= |lines[0]| && Join(lines, sep)[..|lines[0]|] == lines[0]
    ensures |lines| > 1 ==> |Join(lines, sep)| > |lines[0]| && Join(lines, sep)[|lines[0]|] == sep
  {
  }

  /** A joined text that starts with three dashes has a first line that does. */
  lemma FirstLineDashes(lines: seq<string>)
    requires lines != []
    requires var t := Join(lines, '\n'); |t| >= 3 && t[0] == '-' && t[1] == '-' && t[2] == '-'
    ensures StartsWith(lines[0], "---")
  {
    JoinStarts(lines, '\n');
    var t := Join(lines, '\n');
    var n := |lines[0]|;
    assert |lines| > 1 ==> t[n] == '\n';
    assert n >= 3;
    assert forall k :: 0 <= k < n ==> t[..n][k] == t[k];
    assert lines[0][..3] == "---";
  }

  /** What stands behind a closing fence: one line break belongs to the fence. */
  function Behind(after: string): string {
    if after != "" && after[0] == '\n' then after[1..] else after
  }

  /** A fence written after text without one is found right there. */
  lemma CloseFound(body: string, after: string)
    requires forall i: nat :: !ClosesAt(body, i)
    ensures FindClose(body + "\n---" + after) == Some(|body|)
  {
    var tail := body + "\n---" + after;
    var n := |body|;
    assert ClosesAt(tail, n);
    forall i | 0 <= i < n ensures !ClosesAt(tail, i) {
      assert !ClosesAt(body, i) && tail[n] == '\n';
      assert forall k :: 0 <= k < n ==> tail[k] == body[k];
    }
  }

  /** Text behind an opening fence, closed by a fence that it does not hold itself, parses back. */
  lemma FencedParses(body: string, after: string)
    requires forall i: nat :: !ClosesAt(body, i)
    ensures Parse(OPEN + (body + "\n---" + after)) == Some(Page(body, Behind(after)))
  {
    var tail := body + "\n---" + after;
    var text := OPEN + tail;
    CloseFound(body, after);
    assert text[..4] == OPEN && text[4..] == tail;
    assert tail[..|body|] == body;
    assert tail[|body| + 4..] == after;
  }

  /** A rendered page parses back into its lines and its rest. */
  lemma RenderParse(lines: seq<string>, rest: string)
    requires Printable(lines)
    ensures Parse(Render(lines, rest)) == Some(Page(Join(lines, '\n'), rest))
    ensures Lines(Join(lines, '\n')) == lines
  {
    var body := Join(lines, '\n');
    forall i: nat ensures !ClosesAt(body, i) {
      NoCloseInLines(lines, i);
    }
    FencedParses(body, "\n" + rest);
    assert ("\n" + rest)[1..] == rest;
    assert Render(lines, rest) == OPEN + (body + "\n---" + ("\n" + rest));
    LinesOfJoin(lines);
  }

  lemma LinesOfJoin(lines: seq<string>)
    requires Printable(lines)
    ensures Lines(Join(lines, '\n')) == lines
  {
    SplitJoin(lines, '\n');
    JoinStarts(lines, '\n');
    assert lines[0] in lines;
  }

  // --- what the keys do ----------------------------------------------------------------

  lemma OtherStart(s: string, prefix: string)
    requires s != "" && prefix != "" && s[0] != prefix[0]
    ensures !StartsWith(s, prefix)
  {
    assert |prefix| <= |s| ==> s[..|prefix|][0] == s[0];
  }

  lemma KeyLines(pid: string, date: string)
    requires OneLine(pid) && OneLine(date)
    ensures OneLine(PeopleLine(pid)) && StartsWith(PeopleLine(pid), PEOPLE_KEY) && !StartsWith(PeopleLine(pid), "---")
    ensures OneLine(DateLine(date)) && StartsWith(DateLine(date), DATE_KEY) && !StartsWith(DateLine(date), "---")
    ensures !StartsWith(PeopleLine(pid), DATE_KEY)
  {
    assert PeopleLine(pid)[..7] == PEOPLE_KEY;
    assert DateLine(date)[..5] == DATE_KEY;
    assert PeopleLine(pid)[0] == 'p' && DateLine(date)[0] == 'd';
    OtherStart(PeopleLine(pid), "---");
    OtherStart(DateLine(date), "---");
    OtherStart(PeopleLine(pid), DATE_KEY);
  }

  /** The lines of a parsed block can be printed again. */
  lemma ParsedLines(text: string)
    requires Parse(text).Some?
    ensures var lines := Lines(Parse(text).value.body);
            && (forall l | l in lines :: OneLine(l))
            && (forall i :: 1 <= i < |lines| ==> !StartsWith(lines[i], "---"))
            && (lines != [] ==> lines != [""])
  {
    var body := Parse(text).value.body;
    var tail := text[4..];
    var n := |body|;
    assert body == tail[..n];
    assert forall k :: 0 <= k < n ==> tail[k] == body[k];
    assert forall i: nat :: ClosesAt(body, i) ==> i < n && ClosesAt(tail, i);
    var lines := Lines(body);
    if lines != [] {
      JoinSplit(body, '\n');
      forall i | 1 <= i < |lines| ensures !StartsWith(lines[i], "---") {
        LineStart(lines, i);
      }
    }
  }

  /** Line `i` of a joined text follows a line break. */
  lemma {:induction false} LineStart(lines: seq<string>, i: nat)
    requires 1 <= i < |lines| && forall k: nat :: !ClosesAt(Join(lines, '\n'), k)
    ensures !StartsWith(lines[i], "---")
    decreases i
  {
    var s := Join(lines, '\n');
    var rest := lines[1..];
    var t := Join(rest, '\n');
    var n := |lines[0]|;
    assert s == lines[0] + ['\n'] + t;
    assert forall k :: 0 <= k < |t| ==> s[n + 1 + k] == t[k];
    if i == 1 {
      JoinStarts(rest, '\n');
      if StartsWith(lines[1], "---") {
        assert lines[1][..3][0] == '-' && lines[1][..3][1] == '-' && lines[1][..3][2] == '-';
        assert t[..|lines[1]|][0] == '-' && t[..|lines[1]|][1] == '-' && t[..|lines[1]|][2] == '-';
        assert ClosesAt(s, n);
      }
    } else {
      forall k: nat ensures !ClosesAt(t, k) {
        assert !ClosesAt(s, n + 1 + k);
      }
      LineStart(rest, i - 1);
    }
  }

  /** What `AddKeys` renders: the old lines in front, both keys present, the same rest. */
  lemma AddMissingKeepsOrder(lines: seq<string>, pid: string, date: string)
    requires OneLine(pid) && OneLine(date)
    requires (forall l | l in lines :: OneLine(l)) && lines != [""]
    requires forall i :: 1 <= i < |lines| ==> !StartsWith(lines[i], "---")
    ensures Printable(AddMissing(lines, pid, date)) && lines <= AddMissing(lines, pid, date)
    ensures HasLine(AddMissing(lines, pid, date), PEOPLE_KEY) && HasLine(AddMissing(lines, pid, date), DATE_KEY)
  {
    KeyLines(pid, date);
    var withPeople := if HasLine(lines, PEOPLE_KEY) then lines else lines + [PeopleLine(pid)];
    assert HasLine(withPeople, PEOPLE_KEY) by {
      assert !HasLine(lines, PEOPLE_KEY) ==> StartsWith(withPeople[|lines|], PEOPLE_KEY);
    }
    var all := AddMissing(lines, pid, date);
    assert HasLine(all, DATE_KEY) by {
      assert !HasLine(withPeople, DATE_KEY) ==> StartsWith(all[|withPeople|], DATE_KEY);
    }
    var i :| 0 <= i < |withPeople| && StartsWith(withPeople[i], PEOPLE_KEY);
    assert StartsWith(all[i], PEOPLE_KEY);
  }

  lemma AddKeysLines(text: string, pid: string, date: string) returns (lines: seq<string>)
    requires OneLine(pid) && OneLine(date)
    ensures AddKeys(text, pid, date) == Render(lines, BodyText(text)) && Printable(lines)
    ensures HasLine(lines, PEOPLE_KEY) && HasLine(lines, DATE_KEY)
    ensures Parse(text).Some? ==> Lines(Parse(text).value.body) <= lines
  {
    match Parse(text)
    case None =>
      AddMissingKeepsOrder([], pid, date);
      BothMissing(pid, date);
      lines := AddMissing([], pid, date);
    case Some(page) =>
      ParsedLines(text);
      AddMissingKeepsOrder(Lines(page.body), pid, date);
      lines := AddMissing(Lines(page.body), pid, date);
  }

  lemma BothMissing(pid: string, date: string)
    requires OneLine(pid) && OneLine(date)
    ensures AddMissing([], pid, date) == [PeopleLine(pid), DateLine(date)]
  {
    KeyLines(pid, date);
    var withPeople := [PeopleLine(pid)];
    assert [] + withPeople == withPeople;
    assert !HasLine(withPeople, DATE_KEY);
  }

  /** The text after the front matter is untouched. */
  lemma BodyTextKept(text: string, pid: string, date: string)
    requires OneLine(pid) && OneLine(date)
    ensures BodyText(AddKeys(text, pid, date)) == BodyText(text)
  {
    var lines := AddKeysLines(text, pid, date);
    RenderParse(lines, BodyText(text));
  }

  /** Every line that was in the block before is still there, in order and first. */
  lemma ExistingKeysKept(text: string, pid: string, date: string)
    requires OneLine(pid) && OneLine(date)
    ensures Parse(AddKeys(text, pid, date)).Some?
    ensures var lines := Lines(Parse(AddKeys(text, pid, date)).value.body);
            && HasLine(lines, PEOPLE_KEY) && HasLine(lines, DATE_KEY)
            && (Parse(text).Some? ==> Lines(Parse(text).value.body) <= lines)
  {
    var lines := AddKeysLines(text, pid, date);
    RenderParse(lines, BodyText(text));
  }

  /** Adding keys again, even with other values, changes nothing. */
  lemma AddKeysTwice(text: string, pid: string, date: string, pid2: string, date2: string)
    requires OneLine(pid) && OneLine(date)
    ensures AddKeys(AddKeys(text, pid, date), pid2, date2) == AddKeys(text, pid, date)
  {
    var lines := AddKeysLines(text, pid, date);
    RenderParse(lines, BodyText(text));
  }
}
