/** Whole runs of the link migration: what they keep, what they leave, and what a second one does. */
module PageLinkRuns {
  import opened Wrappers
  import opened Text
  import opened Filing
  import opened LinkText
  import opened PageLinks
  import Layout
  import LayoutKeeps

  // --- what a run leaves of the pages -----------------------------------------------------------------

  ghost predicate Grows(a: map<string, string>, b: map<string, string>) {
    forall q | q in a :: q in b && b[q] == a[q]
  }

  /** The page `p` stands where the link of `rel` points, with the text of that attachment. */
  predicate IsCopyOf(texts: Texts, t: Tree, s: State, p: Path, rel: string) {
    && rel in s.done && p != [] && s.done[rel] == LinkTo(p) && PartsOf(rel) in t.files
    && p in s.pages && s.pages[p] == texts(t.files[PartsOf(rel)])
  }

  /** The page holds what the run copied there. */
  ghost predicate Landed(texts: Texts, t: Tree, s: State, p: Path) {
    exists rel :: IsCopyOf(texts, t, s, p, rel)
  }

  /** From `s` to `u` pages only came or changed by landing, but for `p`. */
  ghost predicate LaterBut(texts: Texts, t: Tree, s: State, u: State, but: Option<Path>) {
    && Grows(s.done, u.done) && s.pages.Keys <= u.pages.Keys
    && (forall p | p in u.pages && Some(p) != but :: Landed(texts, t, u, p) || (p in s.pages && u.pages[p] == s.pages[p]))
    && (forall p | p in u.pages && p !in s.pages :: Layout.Under(p, WIKI_ATTACHMENTS))
  }

  lemma LandedStays(texts: Texts, t: Tree, s: State, u: State, p: Path)
    requires Landed(texts, t, s, p) && Grows(s.done, u.done) && p in u.pages && u.pages[p] == s.pages[p]
    ensures Landed(texts, t, u, p)
  {
    var rel :| IsCopyOf(texts, t, s, p, rel);
    assert IsCopyOf(texts, t, u, p, rel);
  }

  lemma LaterThen(texts: Texts, t: Tree, s: State, m: State, u: State)
    requires LaterBut(texts, t, s, m, None) && LaterBut(texts, t, m, u, None)
    ensures LaterBut(texts, t, s, u, None)
  {
    hide Landed;
    forall p | p in u.pages ensures Landed(texts, t, u, p) || (p in s.pages && u.pages[p] == s.pages[p]) {
      if !Landed(texts, t, u, p) && Landed(texts, t, m, p) {
        LandedStays(texts, t, m, u, p);
      }
    }
  }

  lemma LaterGrows(texts: Texts, t: Tree, s: State, u: State)
    requires LaterBut(texts, t, s, u, None)
    ensures Grows(s.done, u.done)
  {
  }

  lemma LaterSame(texts: Texts, t: Tree, s: State)
    ensures LaterBut(texts, t, s, s, None)
  {
  }

  lemma CopyLater(texts: Texts, t: Tree, s: State, rel: string)
    requires Sound(t, s)
    ensures LaterBut(texts, t, s, CopyInto(texts, s, rel).1, None)
  {
    hide CopyTarget, Honest, NoPages, SoundLinks, LinkTo;
    if rel !in s.done && Copyable(s.tree, rel) {
      var u := CopyInto(texts, s, rel).1;
      var target := CopyTarget(s, rel);
      CopyBelow(s, rel);
      SameCopyable(t, s.tree, rel);
      if IsPage(target) {
        assert IsCopyOf(texts, t, u, target, rel);
      }
    }
  }

  /**
   A page gets the links of the run: the result is the text with the links that the run has in the end,
   and the run has one for every attachment that the page names and that can be copied.
   */
  lemma {:induction false} RewriteDoes(texts: Texts, t: Tree, text: string, s: State)
    requires Sound(t, s)
    ensures var (out, after) := RewriteWith(texts, text, s);
            && Sound(t, after) && LaterBut(texts, t, s, after, None)
            && Covers(text, after.done, CopyPaths(t)) && out == Rewrite(text, after.done)
    decreases |text|
  {
    hide Sound, Landed, CopyInto, LaterBut, CopyPaths, MatchLength, PathOf;
    if text == "" {
      LaterSame(texts, t, s);
    } else {
      match MatchLength(text)
      case None => RewriteDoes(texts, t, text[1..], s);
      case Some(n) =>
        MatchedPath(text);
        CopyKeeps(texts, t, s, PathOf(text));
        CopyLater(texts, t, s, PathOf(text));
        var next := CopyInto(texts, s, PathOf(text)).1;
        RewriteDoes(texts, t, text[n..], next);
        var after := RewriteWith(texts, text[n..], next).1;
        LaterThen(texts, t, s, next, after);
        LaterGrows(texts, t, next, after);
        SoundHasLinks(t, after);
    }
  }

  /** A head names the folder word. */
  lemma RootWord(v: string) returns (j: nat)
    requires RootLength(v).Some?
    ensures j + 12 <= |v| && v[j..j + 12] == WORD
  {
    if StartsWith(v, PEOPLE) {
      var n := IdRun(v[7..]);
      j := 7 + n + 1;
      assert v[7 + n..][..13] == FOLDER && FOLDER[1..] == WORD;
      assert v[j..j + 12] == v[7 + n..][..13][1..];
    } else {
      j := 7;
      assert v[..19] == SHARED && SHARED[7..] == WORD;
      assert v[7..19] == v[..19][7..];
    }
  }

  lemma MatchMentions(text: string)
    requires MatchLength(text).Some?
    ensures Mentions(text)
  {
    var k := 1 + Slash(text[1..]);
    assert text[k..] == text[1..][Slash(text[1..])..];
    var j := RootWord(text[k..]);
    assert text[k + j..k + j + 12] == text[k..][j..j + 12];
    assert OccursAt(text, WORD, k + j);
  }

  lemma MentionsBehind(text: string, k: nat)
    requires k <= |text|
    ensures Mentions(text[k..]) ==> Mentions(text)
  {
    forall i: nat | i <= |text[k..]| && OccursAt(text[k..], WORD, i) ensures Mentions(text) {
      assert text[k..][i..i + 12] == text[k + i..k + i + 12];
      assert OccursAt(text, WORD, k + i);
    }
  }

  lemma {:induction false} UnmentionedIsClean(text: string, paths: iset<string>)
    requires !Mentions(text)
    ensures Clean(text, paths)
    decreases |text|
  {
    if text != "" {
      if MatchLength(text).Some? {
        MatchMentions(text);
      } else {
        MentionsBehind(text, 1);
        UnmentionedIsClean(text[1..], paths);
      }
    }
  }

  /** Nothing of the page is left to do. */
  ghost predicate PageClean(pages: Pages, p: Path, paths: iset<string>)
    requires p in pages
  {
    pages[p].Some? ==> Clean(Layout.Universal(pages[p].value), paths)
  }

  lemma WrittenClean(t: Tree, raw: string, done: map<string, string>)
    requires SoundLinks(t, done) && Covers(Layout.Universal(raw), done, CopyPaths(t))
    ensures var out := Rewrite(Layout.Universal(raw), done);
            Clean(out, CopyPaths(t)) && Layout.Universal(out) == out
  {
    var text := Layout.Universal(raw);
    RewriteCleans(text, done, CopyPaths(t));
    LayoutKeeps.UniversalHasNoReturn(raw);
    NoReturns(text, done);
    LayoutKeeps.UniversalPlain(Rewrite(text, done));
  }

  /** One page is left clean, unless the run copied something over it. */
  lemma PageDone(texts: Texts, t: Tree, p: Path, s: State)
    requires Sound(t, s) && p in s.pages
    ensures var u := MigratePage(texts, p, s).0;
            && Sound(t, u) && LaterBut(texts, t, s, u, Some(p))
            && (Landed(texts, t, u, p) || PageClean(u.pages, p, CopyPaths(t)))
  {
    hide Landed, Sound, LaterBut, RewriteWith, Clean, Layout.Universal, Mentions, CopyPaths;
    LaterSame(texts, t, s);
    if s.pages[p].Some? {
      var text := Layout.Universal(s.pages[p].value);
      if !Mentions(text) {
        UnmentionedIsClean(text, CopyPaths(t));
        ButOne(texts, t, s, s, p);
      } else {
        RewriteDoes(texts, t, text, s);
        var (out, after) := RewriteWith(texts, text, s);
        SoundHasLinks(t, after);
        WrittenClean(t, s.pages[p].value, after.done);
        ButOne(texts, t, s, after, p);
        if out != text {
          PageWritten(texts, t, s, after, p, out);
          SoundWithPage(t, after, p, out);
        } else {
          PageAsItWas(texts, t, s, after, p);
        }
      }
    } else {
      ButOne(texts, t, s, s, p);
    }
  }

  lemma SoundHasLinks(t: Tree, s: State)
    requires Sound(t, s)
    ensures SoundLinks(t, s.done)
  {
  }

  lemma SoundWithPage(t: Tree, s: State, p: Path, out: string)
    requires Sound(t, s)
    ensures Sound(t, s.(pages := s.pages[p := Some(out)]))
  {
  }

  lemma ButOne(texts: Texts, t: Tree, s: State, u: State, p: Path)
    requires LaterBut(texts, t, s, u, None)
    ensures LaterBut(texts, t, s, u, Some(p))
  {
  }

  lemma PageAsItWas(texts: Texts, t: Tree, s: State, u: State, p: Path)
    requires LaterBut(texts, t, s, u, None) && p in s.pages && p in u.pages
    ensures Landed(texts, t, u, p) || u.pages[p] == s.pages[p]
  {
  }

  lemma PageWritten(texts: Texts, t: Tree, s: State, after: State, p: Path, out: string)
    requires LaterBut(texts, t, s, after, None) && p in s.pages
    ensures LaterBut(texts, t, s, after.(pages := after.pages[p := Some(out)]), Some(p))
  {
    var u := after.(pages := after.pages[p := Some(out)]);
    forall q | q in u.pages && q != p ensures Landed(texts, t, u, q) || (q in s.pages && u.pages[q] == s.pages[q]) {
      if Landed(texts, t, after, q) {
        LandedStays(texts, t, after, u, q);
      }
    }
  }

  // --- all pages ------------------------------------------------------------------------------------------

  /** A page after a run over `order`: as copied by the run, clean, or not gone through and as it was. */
  ghost predicate PageLeft(texts: Texts, t: Tree, order: seq<Path>, s: State, u: State, p: Path)
    requires p in u.pages
  {
    Landed(texts, t, u, p) ||
    if p in order then PageClean(u.pages, p, CopyPaths(t)) else p in s.pages && u.pages[p] == s.pages[p]
  }

  ghost predicate RunLeft(texts: Texts, t: Tree, order: seq<Path>, s: State, u: State) {
    && Sound(t, u) && Grows(s.done, u.done) && s.pages.Keys <= u.pages.Keys
    && (forall p | p in u.pages :: PageLeft(texts, t, order, s, u, p))
    && (forall p | p in u.pages && p !in s.pages :: Layout.Under(p, WIKI_ATTACHMENTS))
  }

  /** What a run leaves: sound links and files, and every page it went through clean or just copied. */
  lemma {:induction false} RunLeaves(texts: Texts, t: Tree, order: seq<Path>, s: State)
    requires Sound(t, s) && forall p | p in order :: p in s.pages
    ensures RunLeft(texts, t, order, s, MigratePages(texts, order, s).0)
    decreases |order|
  {
    hide Landed, Sound, MigratePage;
    if order != [] {
      var n := |order| - 1;
      var mid := MigratePages(texts, order[..n], s).0;
      RunLeaves(texts, t, order[..n], s);
      PageDone(texts, t, order[n], mid);
      RunStep(texts, t, order[..n], order[n], s, mid, MigratePage(texts, order[n], mid).0);
      assert order == order[..n] + [order[n]];
    }
  }

  lemma RunStep(texts: Texts, t: Tree, done: seq<Path>, p: Path, s: State, mid: State, u: State)
    requires RunLeft(texts, t, done, s, mid) && p in mid.pages
    requires Sound(t, u) && LaterBut(texts, t, mid, u, Some(p))
    requires Landed(texts, t, u, p) || PageClean(u.pages, p, CopyPaths(t))
    ensures RunLeft(texts, t, done + [p], s, u)
  {
    hide Landed, Sound, CopyPaths;
    forall q | q in u.pages ensures PageLeft(texts, t, done + [p], s, u, q) {
      if q != p && !Landed(texts, t, u, q) {
        assert q in mid.pages && u.pages[q] == mid.pages[q];
        if Landed(texts, t, mid, q) {
          LandedStays(texts, t, mid, u, q);
        }
        assert PageLeft(texts, t, done, s, mid, q);
        assert q in done + [p] <==> q in done;
      }
    }
  }

  /** A run loses no stored file and invents no content; pages come only as copies below the wiki's attachments. */
  lemma RunKeepsFiles(texts: Texts, t: Tree, pages: Pages, order: seq<Path>)
    requires Honest(t) && NoPages(t) && forall p | p in order :: p in pages
    ensures var u := MigratePages(texts, order, State(t, map[], pages)).0;
            && Digests(u.tree) == Digests(t) && Honest(u.tree)
            && (forall p | p in t.files :: p in u.tree.files && u.tree.files[p] == t.files[p])
            && (forall p | p in u.tree.files && p !in t.files :: Layout.Under(p, WIKI_ATTACHMENTS))
            && (forall p | p in pages :: p in u.pages)
            && (forall p | p in u.pages && p !in pages :: Layout.Under(p, WIKI_ATTACHMENTS) && Landed(texts, t, u, p))
            && (forall p | p in u.pages && p !in order && !Landed(texts, t, u, p) :: u.pages[p] == pages[p])
  {
    hide Landed, MigratePages;
    var s := State(t, map[], pages);
    RunLeaves(texts, t, order, s);
    var u := MigratePages(texts, order, s).0;
    forall p | p in u.pages && p !in pages ensures Landed(texts, t, u, p) {
      assert PageLeft(texts, t, order, s, u, p) && p !in order;
    }
    forall p | p in u.pages && p !in order && !Landed(texts, t, u, p) ensures p in pages && u.pages[p] == pages[p] {
      assert PageLeft(texts, t, order, s, u, p);
    }
  }

  // --- a second run --------------------------------------------------------------------------------------

  /** Text without anything to copy is left alone; any other text makes a link. */
  lemma {:induction false} CleanIsQuiet(texts: Texts, text: string, s: State)
    requires s.done == map[]
    ensures Clean(text, CopyPaths(s.tree)) ==> RewriteWith(texts, text, s) == (text, s)
    ensures !Clean(text, CopyPaths(s.tree)) ==> RewriteWith(texts, text, s).1.done != map[]
    decreases |text|
  {
    hide MatchLength, PathOf, CopyTarget, ShaOf, MetaOf, LinkTo, IsPage, PartsOf, IsMeta, AreaOf;
    if text != "" {
      match MatchLength(text)
      case None =>
        CleanIsQuiet(texts, text[1..], s);
        assert text == [text[0]] + text[1..];
      case Some(n) =>
        if Copyable(s.tree, PathOf(text)) {
          var next := CopyInto(texts, s, PathOf(text)).1;
          assert PathOf(text) in next.done;
          LinksStay(texts, text[n..], next);
        } else {
          CleanIsQuiet(texts, text[n..], s);
          assert text == text[..n] + text[n..];
        }
    }
  }

  lemma {:induction false} LinksStay(texts: Texts, text: string, s: State)
    ensures Grows(s.done, RewriteWith(texts, text, s).1.done)
    decreases |text|
  {
    hide MatchLength, PathOf, Copyable, CopyTarget, ShaOf, MetaOf, LinkTo, IsPage;
    if text != "" {
      match MatchLength(text)
      case None => LinksStay(texts, text[1..], s);
      case Some(n) => LinksStay(texts, text[n..], CopyInto(texts, s, PathOf(text)).1);
    }
  }

  lemma QuietPage(texts: Texts, p: Path, s: State)
    requires s.done == map[] && p in s.pages
    ensures PageClean(s.pages, p, CopyPaths(s.tree)) ==> MigratePage(texts, p, s) == (s, false)
    ensures !PageClean(s.pages, p, CopyPaths(s.tree)) ==> MigratePage(texts, p, s).0.done != map[]
  {
    hide RewriteWith, Clean, Layout.Universal, Mentions, CopyPaths;
    if s.pages[p].Some? {
      var text := Layout.Universal(s.pages[p].value);
      CleanIsQuiet(texts, text, s);
      if !Mentions(text) {
        UnmentionedIsClean(text, CopyPaths(s.tree));
      }
    }
  }

  lemma PageLinksStay(texts: Texts, p: Path, s: State)
    requires p in s.pages
    ensures Grows(s.done, MigratePage(texts, p, s).0.done)
  {
    if s.pages[p].Some? {
      LinksStay(texts, Layout.Universal(s.pages[p].value), s);
    }
  }

  /** A run over clean pages changes nothing at all; one over other pages makes a link. */
  lemma {:induction false} QuietRun(texts: Texts, order: seq<Path>, s: State)
    requires s.done == map[] && forall p | p in order :: p in s.pages
    ensures (forall p | p in order :: PageClean(s.pages, p, CopyPaths(s.tree))) ==> MigratePages(texts, order, s) == (s, 0)
    ensures !(forall p | p in order :: PageClean(s.pages, p, CopyPaths(s.tree))) ==> MigratePages(texts, order, s).0.done != map[]
    decreases |order|
  {
    hide PageClean, MigratePage, CopyPaths;
    if order != [] {
      var n := |order| - 1;
      assert order == order[..n] + [order[n]];
      QuietRun(texts, order[..n], s);
      QuietPage(texts, order[n], s);
      PageLinksStay(texts, order[n], MigratePages(texts, order[..n], s).0);
    }
  }

  /**
   A second run over the visible pages changes nothing, exactly when no page that the first run copied
   into place, and that is still as it was copied, names an attachment that can be copied.
   */
  lemma SecondRunIdleExactly(texts: Texts, t: Tree, pages: Pages, order: seq<Path>, again: seq<Path>)
    requires Honest(t) && NoPages(t) && Listing(order, pages)
    requires Listing(again, MigratePages(texts, order, State(t, map[], pages)).0.pages)
    ensures var s := MigratePages(texts, order, State(t, map[], pages)).0;
            var start := s.(done := map[]);
            MigratePages(texts, again, start) == (start, 0) <==>
              forall p | p in again && Landed(texts, t, s, p) :: PageClean(s.pages, p, CopyPaths(t))
  {
    hide Landed, PageClean, MigratePages, CopyPaths;
    RunLeaves(texts, t, order, State(t, map[], pages));
    var s := MigratePages(texts, order, State(t, map[], pages)).0;
    ExtendsKeepsPaths(t, s.tree);
    QuietRun(texts, again, s.(done := map[]));
    forall p | p in again && !Landed(texts, t, s, p) ensures PageClean(s.pages, p, CopyPaths(t)) {
      assert PageLeft(texts, t, order, State(t, map[], pages), s, p);
    }
  }

  lemma NeverLanded(texts: Texts, t: Tree, s: State, p: Path)
    requires IsPage(p) && forall rel | rel in s.done :: !EndsWith(s.done[rel], MD)
    ensures !Landed(texts, t, s, p)
  {
    LinkEnds(p);
  }

  lemma SoundStart(t: Tree, pages: Pages)
    requires Honest(t) && NoPages(t)
    ensures Sound(t, State(t, map[], pages))
  {
  }

  /** No stored file that can be copied ends in `.md`. */
  predicate NoPageStored(t: Tree) {
    forall p | p in t.files && (AreaOf(p) == Some(PersonArea) || AreaOf(p) == Some(SharedArea)) :: !EndsWith(Last(p), MD)
  }

  lemma NoLinkToPage(t: Tree, done: map<string, string>)
    requires SoundLinks(t, done) && NoPageStored(t)
    ensures forall rel | rel in done :: !EndsWith(done[rel], MD)
  {
    hide EndsWith;
    forall rel | rel in done ensures !EndsWith(done[rel], MD) {
      assert Copyable(t, rel);
    }
  }

  /** So a second run is idle when no attachment that can be copied ends in `.md`. */
  lemma SecondRunIdle(texts: Texts, t: Tree, pages: Pages, order: seq<Path>, again: seq<Path>)
    requires Honest(t) && NoPages(t) && Listing(order, pages)
    requires Listing(again, MigratePages(texts, order, State(t, map[], pages)).0.pages)
    requires NoPageStored(t)
    ensures var s := MigratePages(texts, order, State(t, map[], pages)).0;
            MigratePages(texts, again, s.(done := map[])) == (s.(done := map[]), 0)
  {
    hide MigratePages, PageClean, Landed, EndsWith, AreaOf, LinkTo, Sound, SoundLinks;
    SecondRunIdleExactly(texts, t, pages, order, again);
    SoundStart(t, pages);
    RunLeaves(texts, t, order, State(t, map[], pages));
    var s := MigratePages(texts, order, State(t, map[], pages)).0;
    SoundHasLinks(t, s);
    NoLinkToPage(t, s.done);
    forall p | p in again ensures !Landed(texts, t, s, p) {
      NeverLanded(texts, t, s, p);
    }
  }
}
