/** Finding and replacing the attachment links of a wiki page. */
module LinkText {
  import opened Wrappers
  import opened Text

  // --- the pattern ---------------------------------------------------------------------

  predicate IsIdStart(c: char) {
    'a' <= c <= 'z' || '0' <= c <= '9'
  }

  predicate IsIdChar(c: char) {
    IsIdStart(c) || c == '-'
  }

  /** The run of person id characters at the start. */
  function IdRun(s: string): (n: nat)
    ensures n <= |s| && (forall i :: 0 <= i < n ==> IsIdChar(s[i])) && (n < |s| ==> !IsIdChar(s[n]))
  {
    if s == "" || !IsIdChar(s[0]) then 0 else 1 + IdRun(s[1..])
  }

  const PEOPLE := "people/"
  const FOLDER := "/attachments/"
  const SHARED := "shared/attachments/"

  /** The length of `(people/<id>|shared)/attachments/` at the start. */
  function RootLength(s: string): (r: Option<nat>)
    ensures r.Some? ==> r.value <= |s|
  {
    if StartsWith(s, PEOPLE) then
      var n := IdRun(s[7..]);
      if 1 <= n <= 32 && IsIdStart(s[7]) && StartsWith(s[7 + n..], FOLDER) then Some(7 + n + 13) else None
    else if StartsWith(s, SHARED) then Some(19)
    else None
  }

  /** 1 when the path is written with a leading slash. */
  function Slash(s: string): nat {
    if s != "" && s[0] == '/' then 1 else 0
  }

  function HeadLength(s: string): (r: Option<nat>)
    ensures r.Some? ==> r.value <= |s|
  {
    match RootLength(s[Slash(s)..])
    case None => None
    case Some(n) => Some(Slash(s) + n)
  }

  /** The number of characters before a closing bracket that no white space precedes. */
  function RunLength(s: string): (r: Option<nat>)
    ensures r.Some? ==> r.value < |s| && s[r.value] == ')' && forall i :: 0 <= i < r.value ==> s[i] != ')' && !IsSpace(s[i])
  {
    if s == "" || IsSpace(s[0]) then None
    else if s[0] == ')' then Some(0)
    else
      match RunLength(s[1..])
      case None => None
      case Some(n) =>
        assert forall i :: 0 < i < n + 1 ==> s[i] == s[1..][i - 1];
        Some(n + 1)
  }

  /** The length of a link target, with its brackets, that starts with `s`. */
  function MatchLength(s: string): (r: Option<nat>)
    ensures r.Some? ==> 2 < r.value <= |s| && s[0] == '(' && s[r.value - 1] == ')'
  {
    if s == "" || s[0] != '(' then None
    else
      match HeadLength(s[1..])
      case None => None
      case Some(h) =>
        match RunLength(s[1 + h..])
        case None => None
        case Some(n) => if n == 0 then None else Some(1 + h + n + 1)
  }

  /** The path that a match names, without a leading slash. */
  function PathOf(s: string): string
    requires MatchLength(s).Some?
  {
    s[1 + Slash(s[1..])..MatchLength(s).value - 1]
  }

  /** The text with every link that `links` knows replaced. */
  function Rewrite(s: string, links: map<string, string>): string {
    if s == "" then ""
    else
      match MatchLength(s)
      case None => [s[0]] + Rewrite(s[1..], links)
      case Some(n) =>
        (if PathOf(s) in links then "(" + links[PathOf(s)] + ")" else s[..n]) + Rewrite(s[n..], links)
  }

  // --- what the head of a match looks like --------------------------------------------------

  predicate IsPlain(c: char) {
    c != '(' && c != ')' && !IsSpace(c)
  }

  lemma RootPlain(s: string)
    requires RootLength(s).Some?
    ensures forall i :: 0 <= i < RootLength(s).value ==> IsPlain(s[i])
  {
    var n := RootLength(s).value;
    if StartsWith(s, PEOPLE) {
      var k := IdRun(s[7..]);
      forall i | 0 <= i < n ensures IsPlain(s[i]) {
        if i < 7 {
          assert s[i] == PEOPLE[i];
        } else if i < 7 + k {
          assert s[i] == s[7..][i - 7];
        } else {
          assert s[i] == s[7 + k..][i - 7 - k] && s[7 + k..][i - 7 - k] == FOLDER[i - 7 - k];
        }
      }
    } else {
      forall i | 0 <= i < n ensures IsPlain(s[i]) {
        assert s[i] == SHARED[i];
      }
    }
  }

  lemma HeadPlain(s: string)
    requires HeadLength(s).Some?
    ensures forall i :: 0 <= i < HeadLength(s).value ==> IsPlain(s[i])
  {
    var k, t := Slash(s), s[Slash(s)..];
    RootPlain(t);
    assert forall i :: k <= i < HeadLength(s).value ==> s[i] == t[i - k];
  }

  lemma IdRunUnique(s: string, n: nat)
    requires n <= |s| && (forall i :: 0 <= i < n ==> IsIdChar(s[i])) && (n < |s| ==> !IsIdChar(s[n]))
    ensures IdRun(s) == n
  {
  }

  /** The head is recognised from its own characters. */
  lemma RootLocal(s: string, t: string)
    requires RootLength(s).Some? && RootLength(s).value <= |t| && t[..RootLength(s).value] == s[..RootLength(s).value]
    ensures RootLength(t) == RootLength(s)
  {
    var n := RootLength(s).value;
    assert forall i :: 0 <= i < n ==> t[i] == s[i];
    if StartsWith(s, PEOPLE) {
      var k := IdRun(s[7..]);
      assert t[..7] == s[..7];
      assert s[7 + k] == s[7 + k..][0] && s[7 + k..][0] == FOLDER[0];
      IdRunUnique(t[7..], k);
      assert t[7 + k..][..13] == s[7 + k..][..13];
    } else {
      assert t[..19] == s[..19];
      assert PEOPLE[0] != SHARED[0] && t[0] == SHARED[0];
    }
  }

  lemma HeadLocal(s: string, t: string)
    requires HeadLength(s).Some? && HeadLength(s).value <= |t| && t[..HeadLength(s).value] == s[..HeadLength(s).value]
    ensures HeadLength(t) == HeadLength(s)
  {
    var h, k := HeadLength(s).value, Slash(s);
    assert h > 0 && t[0] == t[..h][0] && s[0] == s[..h][0];
    assert t[k..][..h - k] == t[..h][k..] && s[k..][..h - k] == s[..h][k..];
    RootLocal(s[k..], t[k..]);
  }

  lemma RunOver(s: string, rest: string)
    requires forall i :: 0 <= i < |s| ==> s[i] != ')' && !IsSpace(s[i])
    ensures RunLength(s + ")" + rest) == Some(|s|)
    decreases |s|
  {
    var t := s + ")" + rest;
    if s != "" {
      RunOver(s[1..], rest);
      assert t[1..] == s[1..] + ")" + rest;
    }
  }

  /** A match is a bracket, a head and a run that is not empty. */
  lemma MatchIs(s: string, h: nat)
    requires s != "" && s[0] == '(' && HeadLength(s[1..]) == Some(h)
    ensures MatchLength(s) ==
              if RunLength(s[1 + h..]).Some? && RunLength(s[1 + h..]).value > 0 then Some(2 + h + RunLength(s[1 + h..]).value)
              else None
  {
  }

  /** A match, with what it names, depends on nothing behind it. */
  lemma MatchLocal(s: string, rest: string)
    requires MatchLength(s).Some?
    ensures var n := MatchLength(s).value;
            MatchLength(s[..n] + rest) == Some(n) && PathOf(s[..n] + rest) == PathOf(s)
  {
    var n := MatchLength(s).value;
    var h := HeadLength(s[1..]).value;
    var t := s[..n] + rest;
    var body := s[1 + h..n - 1];
    MatchParts(s, h, body, rest);
    HeadLocal(s[1..], t[1..]);
    RunOver(body, rest);
    MatchIs(t, h);
    SamePath(s, t);
  }

  lemma SamePath(s: string, t: string)
    requires MatchLength(s).Some? && MatchLength(t) == MatchLength(s)
    requires t[..MatchLength(s).value] == s[..MatchLength(s).value]
    ensures PathOf(t) == PathOf(s)
  {
    var n := MatchLength(s).value;
    assert t[1] == t[..n][1] && s[1] == s[..n][1];
    assert Slash(t[1..]) == Slash(s[1..]);
    SliceOf(s, n, 1 + Slash(s[1..]));
    SliceOf(t, n, 1 + Slash(s[1..]));
  }

  lemma SliceOf(s: string, n: nat, i: nat)
    requires i < n <= |s|
    ensures s[..n][i..n - 1] == s[i..n - 1]
  {
  }

  lemma MatchParts(s: string, h: nat, body: string, rest: string)
    requires MatchLength(s).Some? && HeadLength(s[1..]) == Some(h) && body == s[1 + h..MatchLength(s).value - 1]
    ensures var t := s[..MatchLength(s).value] + rest;
            && t[1..][..h] == s[1..][..h] && t[0] == '(' && t[1] == s[1]
            && t[1 + h..] == body + ")" + rest
    ensures forall i :: 0 <= i < |body| ==> body[i] != ')' && !IsSpace(body[i])
  {
    hide HeadLength, RunLength;
    assert forall i :: 0 <= i < |body| ==> body[i] == s[1 + h..][i];
    CutBehind(s, MatchLength(s).value, 1 + h, rest);
  }

  lemma CutBehind(s: string, n: nat, k: nat, rest: string)
    requires 0 < k < n <= |s| && n >= 2
    ensures var t := s[..n] + rest;
            t[1..][..k - 1] == s[1..][..k - 1] && t[0] == s[0] && t[1] == s[1] && t[k..] == s[k..n - 1] + [s[n - 1]] + rest
  {
    var t := s[..n] + rest;
    assert s[..n] == s[..k] + (s[k..n - 1] + [s[n - 1]]);
    assert t == s[..k] + (s[k..n - 1] + [s[n - 1]] + rest);
  }

  /** No white space and no closing bracket inside a match. */
  lemma MatchRun(s: string)
    requires MatchLength(s).Some?
    ensures RunLength(s) == Some(MatchLength(s).value - 1)
  {
    hide HeadLength;
    var n := MatchLength(s).value;
    var h := HeadLength(s[1..]).value;
    var body := s[..n - 1];
    RunBody(s, h);
    CutAt(s, n - 1);
    assert s == body + ")" + s[n..];
    RunOver(body, s[n..]);
  }

  lemma RunBody(s: string, h: nat)
    requires MatchLength(s).Some? && HeadLength(s[1..]) == Some(h)
    ensures forall i :: 0 <= i < MatchLength(s).value - 1 ==> s[i] != ')' && !IsSpace(s[i])
  {
    hide HeadLength;
    HeadPlain(s[1..]);
    forall i | 0 <= i < MatchLength(s).value - 1 ensures s[i] != ')' && !IsSpace(s[i]) {
      assert 1 <= i < 1 + h ==> s[i] == s[1..][i - 1];
      assert i >= 1 + h ==> s[i] == s[1 + h..][i - 1 - h];
    }
  }

  // --- what a new link looks like -------------------------------------------------------------

  const WIKI_FOLDER := "/attachments/"

  /** A link below `/attachments/`, without brackets to close it, and no slash behind an opening bracket. */
  predicate GoodLink(l: string) {
    && StartsWith(l, WIKI_FOLDER)
    && (forall i :: 0 <= i < |l| ==> l[i] != ')' && !IsSpace(l[i]))
    && (forall i :: 0 <= i < |l| && l[i] == '(' ==> '/' !in l[i..])
  }

  lemma RootStart(s: string)
    ensures RootLength(s).Some? ==>
              |s| > 6 && (s[0] == 'p' || s[0] == 's') && s[6] == '/' && forall i :: 0 <= i < 6 ==> s[i] != ')'
  {
    if RootLength(s).Some? {
      RootPlain(s);
      if StartsWith(s, PEOPLE) {
        assert s[..7][0] == PEOPLE[0] && s[..7][6] == PEOPLE[6];
      } else {
        assert s[..19][0] == SHARED[0] && s[..19][6] == SHARED[6];
      }
    }
  }

  /** Text that closes before its first slash starts no match behind an opening bracket. */
  lemma NoHead(s: string, k: nat)
    requires k < |s| && s[k] == ')' && forall i :: 0 <= i < k ==> s[i] != '/'
    ensures HeadLength(s).None?
  {
    RootStart(s);
    assert s[0..] == s;
    assert Slash(s) == 0;
  }

  /** No match starts inside a bracketed new link. */
  lemma LinkHasNoMatch(l: string, rest: string, i: nat)
    requires GoodLink(l) && i < |l| + 2
    ensures MatchLength(("(" + l + ")" + rest)[i..]).None?
  {
    var s := "(" + l + ")" + rest;
    var t := s[i..];
    if i == 0 {
      assert t == s && s[1..] == l + ")" + rest;
      var u := s[1..];
      assert l[..13] == WIKI_FOLDER && l[..13][0] == '/' && l[..13][1] == 'a';
      RootStart(u[1..]);
    } else if i <= |l| && l[i - 1] == '(' {
      assert t[0] == '(';
      var u := t[1..];
      assert u == l[i..] + ")" + rest;
      forall j | 0 <= j < |l| - i ensures u[j] != '/' {
        assert u[j] == l[i - 1..][j + 1];
      }
      NoHead(u, |l| - i);
    } else {
      assert t[0] == if i <= |l| then l[i - 1] else ')';
    }
  }

  // --- pages without links to replace ---------------------------------------------------------

  /** No match of the text names a path in `paths`. */
  ghost predicate Clean(s: string, paths: iset<string>) {
    s == "" ||
    match MatchLength(s)
    case None => Clean(s[1..], paths)
    case Some(n) => PathOf(s) !in paths && Clean(s[n..], paths)
  }

  lemma {:induction false} SkipPlain(x: string, rest: string, paths: iset<string>)
    requires forall i :: 0 <= i < |x| ==> MatchLength((x + rest)[i..]).None?
    ensures Clean(x + rest, paths) <==> Clean(rest, paths)
    decreases |x|
  {
    if x == "" {
      assert x + rest == rest;
    } else {
      var s := x + rest;
      assert s[0..] == s;
      assert s[1..] == x[1..] + rest;
      forall i | 0 <= i < |x| - 1 ensures MatchLength((x[1..] + rest)[i..]).None? {
        assert (x[1..] + rest)[i..] == s[i + 1..];
      }
      SkipPlain(x[1..], rest, paths);
    }
  }

  lemma Shift(s: string, k: nat, rest: string)
    requires 0 < k <= |s|
    ensures s[1..][k - 1..] == s[k..] && [s[0]] + (s[1..][..k - 1] + rest) == s[..k] + rest
  {
    assert s[..k] == [s[0]] + s[1..][..k - 1];
  }

  /** Characters other than an opening bracket are copied as they are. */
  lemma {:induction false} CopyPlain(s: string, k: nat, links: map<string, string>)
    requires k <= |s| && forall i :: 0 <= i < k ==> s[i] != '('
    ensures Rewrite(s, links) == s[..k] + Rewrite(s[k..], links)
    decreases k
  {
    if k == 0 {
      assert s[0..] == s;
    } else {
      CopyPlain(s[1..], k - 1, links);
      Shift(s, k, Rewrite(s[k..], links));
    }
  }

  lemma FirstKept(s: string, links: map<string, string>)
    requires s != ""
    ensures Rewrite(s, links) != "" && Rewrite(s, links)[0] == s[0]
  {
  }

  /** A new link closes where it ends. */
  lemma LinkRun(l: string, rest: string)
    requires GoodLink(l)
    ensures RunLength("(" + l + ")" + rest) == Some(|l| + 1)
  {
    RunOver("(" + l, rest);
    assert ("(" + l) + ")" + rest == "(" + l + ")" + rest;
  }

  ghost predicate GoodLinks(links: map<string, string>) {
    forall p | p in links :: GoodLink(links[p])
  }

  /** Replacing links neither makes nor breaks a run up to a closing bracket. */
  lemma {:induction false} RunKept(s: string, links: map<string, string>)
    requires GoodLinks(links)
    ensures RunLength(Rewrite(s, links)).Some? <==> RunLength(s).Some?
    decreases |s|
  {
    if s != "" {
      match MatchLength(s)
      case None =>
        RunKept(s[1..], links);
        assert Rewrite(s, links)[1..] == Rewrite(s[1..], links);
      case Some(n) =>
        MatchRun(s);
        if PathOf(s) in links {
          LinkRun(links[PathOf(s)], Rewrite(s[n..], links));
        } else {
          MatchLocal(s, Rewrite(s[n..], links));
          MatchRun(s[..n] + Rewrite(s[n..], links));
        }
    }
  }

  /** What starts no match before starts none after. */
  lemma NoNewMatch(s: string, links: map<string, string>)
    requires GoodLinks(links) && s != "" && MatchLength(s).None?
    ensures MatchLength(Rewrite(s, links)).None?
  {
    var u := s[1..];
    var r := Rewrite(u, links);
    assert Rewrite(s, links)[1..] == r;
    if s[0] == '(' && HeadLength(r).Some? {
      var h := HeadLength(r).value;
      HeadKept(u, links);
      MatchIs(s, h);
      MatchIs(Rewrite(s, links), h);
      assert Rewrite(s, links)[1 + h..] == r[h..] && s[1 + h..] == u[h..];
      SameRun(u[h..], links);
    }
  }

  lemma SameRun(w: string, links: map<string, string>)
    requires GoodLinks(links)
    ensures var r := Rewrite(w, links);
            RunLength(r).Some? && RunLength(r).value > 0 <==> RunLength(w).Some? && RunLength(w).value > 0
  {
    RunKept(w, links);
    if w != "" {
      FirstKept(w, links);
    }
  }

  /** A head found after the replacement was there before, followed by the replaced rest. */
  lemma HeadKept(u: string, links: map<string, string>)
    requires HeadLength(Rewrite(u, links)).Some?
    ensures var h := HeadLength(Rewrite(u, links)).value;
            h <= |u| && HeadLength(u) == Some(h) && Rewrite(u, links)[h..] == Rewrite(u[h..], links)
  {
    var r := Rewrite(u, links);
    var h := HeadLength(r).value;
    var k := Find(u, '(');
    HeadPlain(r);
    forall i | 0 <= i < k ensures u[i] != '(' {
      assert u[i] == u[..k][i];
    }
    CopyPlain(u, k, links);
    if k < |u| {
      FirstKept(u[k..], links);
      assert r[k] == '(';
    } else {
      assert u[k..] == "";
      assert |r| == k;
    }
    assert h <= k;
    CopyPlain(u, h, links);
    assert r[..h] == u[..h];
    HeadLocal(r, u);
  }

  /**
   After the replacement no match names a path in `paths`, when `links` holds every such path that the
   text named before.
   */
  lemma {:induction false} RewriteCleans(s: string, links: map<string, string>, paths: iset<string>)
    requires GoodLinks(links) && Covers(s, links, paths)
    ensures Clean(Rewrite(s, links), paths)
    decreases |s|
  {
    if s != "" {
      match MatchLength(s)
      case None =>
        RewriteCleans(s[1..], links, paths);
        NoNewMatch(s, links);
        assert Rewrite(s, links)[1..] == Rewrite(s[1..], links);
      case Some(n) =>
        var rest := Rewrite(s[n..], links);
        RewriteCleans(s[n..], links, paths);
        if PathOf(s) in links {
          var x := "(" + links[PathOf(s)] + ")";
          forall i | 0 <= i < |x| ensures MatchLength((x + rest)[i..]).None? {
            LinkHasNoMatch(links[PathOf(s)], rest, i);
          }
          SkipPlain(x, rest, paths);
        } else {
          MatchLocal(s, rest);
          assert (s[..n] + rest)[n..] == rest;
        }
    }
  }

  /** Every path in `paths` that the text names has a link. */
  ghost predicate Covers(s: string, links: map<string, string>, paths: iset<string>) {
    s == "" ||
    match MatchLength(s)
    case None => Covers(s[1..], links, paths)
    case Some(n) => (PathOf(s) in paths ==> PathOf(s) in links) && Covers(s[n..], links, paths)
  }

  lemma {:induction false} NoReturns(s: string, links: map<string, string>)
    requires GoodLinks(links) && '\r' !in s
    ensures '\r' !in Rewrite(s, links)
    decreases |s|
  {
    if s != "" {
      match MatchLength(s)
      case None => NoReturns(s[1..], links);
      case Some(n) =>
        NoReturns(s[n..], links);
        if PathOf(s) in links {
          var l := links[PathOf(s)];
          assert forall i :: 0 <= i < |l| ==> !IsSpace(l[i]);
          assert IsSpace('\r');
        }
    }
  }
}
