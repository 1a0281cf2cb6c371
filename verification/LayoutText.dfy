/** What a moved post keeps of its text, line endings included. */
module LayoutText {
  import opened Wrappers
  import opened Text
  import opened FrontMatter
  import opened Layout
  import opened LayoutKeeps

  predicate GoodId(pid: string) {
    '\n' !in pid
  }

  lemma DateOneLine(name: string)
    requires Dated(name)
    ensures '\n' !in name[..10]
  {
    var s := name[..10];
    assert forall i :: 0 <= i < 4 ==> name[..4][i] == s[i];
    assert forall i :: 0 <= i < 2 ==> name[5..7][i] == s[5 + i];
    assert forall i :: 0 <= i < 2 ==> name[8..10][i] == s[8 + i];
    assert !IsDigit('\n', 10);
    forall i | 0 <= i < 10 ensures s[i] != '\n' {
      if i < 4 {
        assert IsDigit(name[..4][i], 10);
      } else if 5 <= i < 7 {
        assert IsDigit(name[5..7][i - 5], 10);
      } else if i >= 8 {
        assert IsDigit(name[8..10][i - 8], 10);
      }
    }
  }

  // --- `read_text` on parts of a text -----------------------------------------------------

  /** Line endings are read part by part, unless a cut goes through one. */
  lemma {:induction false} UniversalSplit(a: string, b: string)
    requires a == "" || b == "" || a[|a| - 1] != '\r' || b[0] != '\n'
    ensures Universal(a + b) == Universal(a) + Universal(b)
    decreases |a|
  {
    var s := a + b;
    if a == "" {
      assert s == b && Universal(a) + Universal(b) == Universal(b);
    } else if a[0] == '\r' && |a| > 1 && a[1] == '\n' {
      UniversalSplit(a[2..], b);
      assert s[2..] == a[2..] + b && s[0] == '\r' && s[1] == '\n';
      Associative(['\n'], Universal(a[2..]), Universal(b));
    } else {
      var c := if a[0] == '\r' then '\n' else a[0];
      UniversalSplit(a[1..], b);
      assert s[1..] == a[1..] + b && s[0] == a[0];
      assert |a| == 1 && b != "" ==> s[1] == b[0];
      assert Universal(a) == [c] + Universal(a[1..]) && Universal(s) == [c] + Universal(s[1..]);
      Associative([c], Universal(a[1..]), Universal(b));
    }
  }

  predicate ThreeDashes(s: string, i: nat) {
    i + 3 <= |s| && s[i] == '-' && s[i + 1] == '-' && s[i + 2] == '-'
  }

  /** A bare carriage return, which `read_text` turns into a line break, with three dashes behind it. */
  predicate BareFence(s: string, i: nat) {
    i < |s| && s[i] == '\r' && ThreeDashes(s, i + 1)
  }

  lemma DashesFromRaw(s: string)
    requires ThreeDashes(Universal(s), 0)
    ensures ThreeDashes(s, 0)
  {
    var u := Universal(s);
    assert s != "" && s[0] == '-';
    assert u[1..] == Universal(s[1..]) && s[1..] != "" && s[1] == '-';
    assert u[1..][1..] == Universal(s[1..][1..]) && s[1..][1..] != "" && s[2] == '-';
  }

  /** A closing fence after `read_text` was one before, or was a bare one. */
  lemma {:induction false} CloseFromRaw(s: string, p: nat) returns (i: nat)
    requires ClosesAt(Universal(s), p)
    ensures ClosesAt(s, i) || BareFence(s, i)
    decreases |s|
  {
    var u := Universal(s);
    var k := if s[0] == '\r' && |s| > 1 && s[1] == '\n' then 2 else 1;
    assert u[1..] == Universal(s[k..]);
    if p == 0 {
      assert ThreeDashes(u[1..], 0);
      DashesFromRaw(s[k..]);
      i := k - 1;
    } else {
      assert ClosesAt(u[1..], p - 1);
      var j := CloseFromRaw(s[k..], p - 1);
      i := k + j;
    }
  }

  lemma FencesFromRaw(s: string)
    ensures forall p: nat :: ClosesAt(Universal(s), p) ==> exists i: nat :: ClosesAt(s, i) || BareFence(s, i)
  {
    forall p: nat | ClosesAt(Universal(s), p)
      ensures exists i: nat :: ClosesAt(s, i) || BareFence(s, i)
    {
      var i := CloseFromRaw(s, p);
    }
  }

  // --- posts with front matter --------------------------------------------------------------

  /** The raw pieces of a text with front matter. */
  lemma PagePieces(content: string) returns (body: string, after: string)
    requires Parse(content).Some?
    ensures content == OPEN + (body + "\n---" + after) && Parse(content) == Some(Page(body, Behind(after)))
    ensures forall i: nat :: !ClosesAt(body, i)
  {
    var tail := content[4..];
    var n := FindClose(tail).value;
    body, after := tail[..n], tail[n + 4..];
    assert tail == body + "\n---" + after;
    assert forall k :: 0 <= k < n ==> tail[k] == body[k];
    forall i: nat ensures !ClosesAt(body, i) {
      assert ClosesAt(body, i) ==> ClosesAt(tail, i);
    }
  }

  lemma UniversalOpen(tail: string)
    ensures Universal(OPEN + tail) == OPEN + Universal(tail)
  {
    UniversalPlain(OPEN);
    UniversalSplit(OPEN, tail);
  }

  /** Without a bare fence in the block, the block closes where it closed. */
  lemma BlockStays(body: string, after: string)
    requires forall i: nat :: !ClosesAt(body, i) && !BareFence(body, i)
    requires '\r' !in after
    ensures BodyText(Universal(OPEN + (body + "\n---" + after))) == Behind(after)
  {
    var cut := body != "" && body[|body| - 1] == '\r';
    var front := if cut then body[..|body| - 1] else body;
    var fence := (if cut then "\r\n---" else "\n---") + after;
    assert body + "\n---" + after == front + fence;
    UniversalSplit(front, fence);
    FenceReads(cut, after);
    UniversalOpen(front + fence);
    FencesFromRaw(front);
    assert forall i: nat :: ClosesAt(front, i) ==> ClosesAt(body, i);
    assert forall i: nat :: BareFence(front, i) ==> BareFence(body, i);
    FencedParses(Universal(front), after);
    Associative(Universal(front), "\n---", after);
  }

  lemma FenceReads(cut: bool, after: string)
    requires '\r' !in after
    ensures Universal((if cut then "\r\n---" else "\n---") + after) == "\n---" + after
  {
    UniversalPlain("\n---" + after);
    if cut {
      var fence := "\r\n---" + after;
      assert fence[2..] == "---" + after && ("\n---" + after)[1..] == "---" + after;
    }
  }

  /** A fence found at `p` or before leaves no more than this behind it. */
  lemma EarlyFence(u: string, p: nat)
    requires ClosesAt(u, p)
    ensures |BodyText(OPEN + u)| >= |u| - p - 5
  {
    assert (OPEN + u)[..4] == OPEN && (OPEN + u)[4..] == u;
  }

  /** A bare fence in the block closes it early, and more is left behind it than was before. */
  lemma BlockBreaks(body: string, after: string, j: nat)
    requires BareFence(body, j) && '\r' !in after
    ensures BodyText(Universal(OPEN + (body + "\n---" + after))) != Behind(after)
  {
    var b1, b2, end := body[..j], body[j + 4..] + "\n", "---" + after;
    var tail := body + "\n---" + after;
    assert tail == b1 + ("\r---" + (b2 + end));
    UniversalSplit(b1, "\r---" + (b2 + end));
    UniversalSplit("\r---", b2 + end);
    UniversalSplit(b2, end);
    UniversalPlain(end);
    BareFenceReads();
    var u, p := Universal(tail), |Universal(b1)|;
    assert u == Universal(b1) + ("\n---" + (Universal(b2) + end));
    assert ClosesAt(u, p);
    EarlyFence(u, p);
    UniversalOpen(tail);
  }

  lemma BareFenceReads()
    ensures Universal("\r---") == "\n---"
  {
    UniversalPlain("---");
    assert "\r---"[1..] == "---";
  }

  lemma BodyTextPart(s: string)
    ensures '\r' in BodyText(s) ==> '\r' in s
  {
    if Parse(s).Some? {
      var body, after := PagePieces(s);
    }
  }

  lemma NoReturnInBody(content: string)
    ensures '\r' !in BodyText(Universal(content))
  {
    BodyTextPart(Universal(content));
    UniversalHasNoReturn(content);
  }

  /**
   A moved post keeps the text after its front matter as `read_text` gives it. It keeps it to the
   letter exactly when that text has no carriage return and, in a post with front matter, no bare
   carriage return with three dashes behind it stands in the block.
   */
  lemma MovedTextIntact(pid: string, name: string, content: string)
    requires GoodId(pid) && (IsDigest(name) || IsEntry(name))
    ensures BodyText(Carried(pid, name, content)) == BodyText(Universal(content))
    ensures BodyText(Carried(pid, name, content)) == BodyText(content) <==>
              && '\r' !in BodyText(content)
              && (Parse(content).Some? ==> forall i: nat :: !BareFence(Parse(content).value.body, i))
  {
    DateOneLine(name);
    BodyTextKept(Universal(content), pid, name[..10]);
    NoReturnInBody(content);
    if Parse(content).None? {
      UniversalPlain(content);
    } else if '\r' !in BodyText(content) {
      var body, after := PagePieces(content);
      assert '\r' !in after;
      if j: nat :| BareFence(body, j) {
        BlockBreaks(body, after, j);
      } else {
        BlockStays(body, after);
      }
    }
  }

  /** A carriage return at the end of a block does no harm. */
  lemma ReturnInBlockKeepsText(pid: string, name: string)
    requires GoodId(pid) && (IsDigest(name) || IsEntry(name))
    ensures BodyText("---\na\r\n---\nb") == "b" == BodyText(Carried(pid, name, "---\na\r\n---\nb"))
  {
    var content := "---\na\r\n---\nb";
    assert forall i: nat :: !ClosesAt("a\r", i) && !BareFence("a\r", i);
    FencedParses("a\r", "\nb");
    assert content == OPEN + ("a\r" + "\n---" + "\nb");
    MovedTextIntact(pid, name, content);
  }

  /** A bare one in front of three dashes splits the block, and the moved post has a longer text. */
  lemma BareFenceChangesText(pid: string, name: string)
    requires GoodId(pid) && (IsDigest(name) || IsEntry(name))
    ensures BodyText("---\na\r---\n---\nb") == "b" != BodyText(Carried(pid, name, "---\na\r---\n---\nb"))
  {
    var content := "---\na\r---\n---\nb";
    assert forall i: nat :: !ClosesAt("a\r---", i);
    FencedParses("a\r---", "\nb");
    assert content == OPEN + ("a\r---" + "\n---" + "\nb");
    assert BareFence("a\r---", 1);
    MovedTextIntact(pid, name, content);
  }
}
