/** A link migration whose second run goes on: the first one copied a page. */
module PageLinkExample {
  import opened Wrappers
  import opened Text
  import opened Naming
  import opened Filing
  import opened LinkText
  import opened PageLinks
  import opened PageLinkRuns
  import Layout
  import LayoutKeeps

  // --- links to the shared attachments -------------------------------------------------------------

  /** A name that can stand in a link to the shared attachments. */
  predicate LinkName(x: string) {
    x != "" && x != "." && x != ".." && NamePlain(x) && !IsMeta(x)
  }

  function SharedLink(x: string): string {
    "(" + SHARED + x + ")"
  }

  function SharedPath(x: string): Path {
    ["shared", ATTACHMENTS, x]
  }

  lemma SharedHead(rest: string)
    ensures HeadLength(SHARED + rest) == Some(19) && (SHARED + rest)[19..] == rest
  {
    var u := SHARED + rest;
    assert u[..19] == SHARED && u[0] == 's' && u[0..] == u;
    assert u[..7][0] == 's' && PEOPLE[0] == 'p';
  }

  lemma SharedMatch(x: string)
    requires LinkName(x)
    ensures MatchLength(SharedLink(x)) == Some(|SharedLink(x)|) && PathOf(SharedLink(x)) == SHARED + x
  {
    hide HeadLength, IsMeta, RunLength;
    var text := SharedLink(x);
    SharedSlices(x);
    SharedHead(x + ")" + "");
    RunOver(x, "");
    MatchIs(text, 19);
  }

  lemma SharedSlices(x: string)
    ensures var text := SharedLink(x);
            && text[0] == '(' && text[1..] == SHARED + (x + ")" + "") && Slash(text[1..]) == 0
            && text[20..] == x + ")" + "" && text[1..|text| - 1] == SHARED + x && |text| == |x| + 21
  {
    var text := SharedLink(x);
    assert text[1] == SHARED[0] == 's';
  }

  lemma SharedSplit(x: string)
    requires LinkName(x)
    ensures Split(SHARED + x, '/') == SharedPath(x)
  {
    hide IsMeta;
    var parts := SharedPath(x);
    JoinCons(ATTACHMENTS, [x], '/');
    JoinCons("shared", [ATTACHMENTS] + [x], '/');
    assert parts == ["shared"] + ([ATTACHMENTS] + [x]);
    assert Join(parts, '/') == SHARED + x;
    SplitJoin(parts, '/');
  }

  lemma SharedParts(x: string)
    requires LinkName(x)
    ensures PartsOf(SHARED + x) == SharedPath(x)
  {
    hide IsMeta;
    SharedSplit(x);
    var parts := SharedPath(x);
    assert parts[1..] == [ATTACHMENTS, x] && parts[1..][1..] == [x];
    assert [x][1..] == [] && Proper([x]) == [x] + Proper([]);
    assert [ATTACHMENTS, x][1..] == [x] && ATTACHMENTS != "" && ATTACHMENTS != ".";
    assert Proper([ATTACHMENTS, x]) == [ATTACHMENTS] + Proper([x]);
  }

  lemma SharedIsArea(x: string)
    requires LinkName(x)
    ensures AreaOf(SharedPath(x)) == Some(SharedArea)
  {
    hide IsMeta;
    assert ".." !in SharedPath(x) && SharedPath(x)[0] == "shared";
    assert "shared"[0] != "wiki"[0] && "shared"[0] != "people"[0];
  }

  lemma SharedCopyable(t: Tree, x: string)
    requires LinkName(x) && SharedPath(x) in t.files
    ensures Copyable(t, SHARED + x)
  {
    hide AreaOf, PartsOf, IsMeta;
    SharedParts(x);
    SharedIsArea(x);
  }

  lemma SharedDir(x: string)
    requires LinkName(x)
    ensures TargetDirOf(SHARED + x) == WIKI_ATTACHMENTS
  {
    hide IsMeta, Split;
    SharedSplit(x);
    NoMonth(SharedPath(x));
  }

  lemma NoMonth(parts: seq<string>)
    requires |parts| == 3 && |parts[0]| != 4
    ensures MonthOf(parts).None?
  {
    assert |parts[1..]| == 2;
  }

  // --- the first run -----------------------------------------------------------------------------------

  const A := "a.md"
  const B := "b"

  lemma GoodNames()
    ensures LinkName(A) && LinkName(B)
  {
    assert |META_SUFFIX| > 4;
  }

  /** Two shared attachments, of which the first is a page. */
  function TwoFiles(d: string, e: string): Tree {
    Tree(map[SharedPath(A) := d, SharedPath(B) := e], map[])
  }

  const PAGE: Path := ["wiki", "p.md"]

  /** The wiki has one page, which names the first. */
  function Start(d: string, e: string): State {
    State(TwoFiles(d, e), map[], map[PAGE := Some(SharedLink(A))])
  }

  function AfterFirst(texts: Texts, d: string, e: string): State {
    MigratePages(texts, [PAGE], Start(d, e)).0
  }

  lemma StartIsSound(d: string, e: string)
    ensures Honest(TwoFiles(d, e)) && NoPages(TwoFiles(d, e)) && Listing([PAGE], Start(d, e).pages)
  {
    assert "shared"[0] != "wiki"[0];
    LastThree("p.md");
    assert PAGE[1] == "p.md";
  }

  lemma CopyName(d: string)
    ensures EndsWith(TargetName(A, d), MD) && !StartsWith(TargetName(A, d), ".")
  {
    LastUnique(A, '.', 1);
    assert Suffix(A) == ".md" && Stem(A) == "a";
  }

  lemma NoNames(d: string, e: string)
    ensures NamesAt(Start(d, e), WIKI_ATTACHMENTS) == {}
  {
    var t := TwoFiles(d, e);
    assert "shared"[0] != "wiki"[0];
    forall p | p in t.files ensures !Layout.Under(p, WIKI_ATTACHMENTS) {
      assert p[..2][0] == "shared" && WIKI_ATTACHMENTS[0] == "wiki";
    }
  }

  /** The first attachment is copied to a visible page. */
  lemma FirstTarget(d: string, e: string)
    ensures Copyable(TwoFiles(d, e), SHARED + A)
    ensures CopyTarget(Start(d, e), SHARED + A) == WIKI_ATTACHMENTS + [TargetName(A, d)]
  {
    hide NamesAt, TargetName, Recorded, TargetDirOf, PartsOf, Copyable;
    GoodNames();
    SharedCopyable(TwoFiles(d, e), A);
    SharedParts(A);
    SharedDir(A);
    NoNames(d, e);
  }

  lemma TargetVisible(d: string)
    ensures Visible(WIKI_ATTACHMENTS + [TargetName(A, d)])
  {
    hide TargetName;
    CopyName(d);
    var p := WIKI_ATTACHMENTS + [TargetName(A, d)];
    assert p[0] == "wiki" && p[1] == ATTACHMENTS && p[2] == TargetName(A, d);
    assert ATTACHMENTS[..1] == "a";
  }

  lemma RewriteLink(texts: Texts, s: State, x: string)
    requires LinkName(x)
    ensures RewriteWith(texts, SharedLink(x), s).1 == CopyInto(texts, s, SHARED + x).1
  {
    hide MatchLength, PathOf, CopyInto, IsMeta;
    SharedMatch(x);
    assert SharedLink(x)[|SharedLink(x)|..] == "";
  }

  lemma LinkIsMentioned(x: string)
    requires LinkName(x)
    ensures Mentions(SharedLink(x)) && Layout.Universal(SharedLink(x)) == SharedLink(x)
  {
    hide IsMeta;
    SharedMatch(x);
    MatchMentions(SharedLink(x));
    NoReturn(x);
    LayoutKeeps.UniversalPlain(SharedLink(x));
  }

  lemma NoReturn(x: string)
    requires PathPlain(x)
    ensures '\r' !in SharedLink(x)
  {
    assert IsSpace('\r') && '\r' !in SHARED;
    assert forall c | c in x :: !IsSpace(c);
  }

  lemma OnePage(texts: Texts, p: Path, s: State)
    requires p in s.pages
    ensures MigratePages(texts, [p], s).0 == MigratePage(texts, p, s).0
  {
    assert [p][..0] == [];
  }

  /** After the first run the copy stands as it was copied. */
  lemma FirstLands(texts: Texts, d: string, e: string)
    ensures IsCopyOf(texts, TwoFiles(d, e), AfterFirst(texts, d, e), WIKI_ATTACHMENTS + [TargetName(A, d)], SHARED + A)
  {
    hide Copyable, CopyTarget, RewriteWith, TargetName, Mentions, Layout.Universal, PartsOf, SharedLink, MetaOf;
    var s, target := Start(d, e), WIKI_ATTACHMENTS + [TargetName(A, d)];
    GoodNames();
    FirstTarget(d, e);
    TargetVisible(d);
    SharedParts(A);
    LinkIsMentioned(A);
    RewriteLink(texts, s, A);
    OnePage(texts, PAGE, s);
    assert target != PAGE && target[2] == TargetName(A, d);
  }

  // --- the second run --------------------------------------------------------------------------------------

  lemma LinkUnclean(t: Tree, x: string)
    requires LinkName(x) && SharedPath(x) in t.files
    ensures !Clean(SharedLink(x), CopyPaths(t))
  {
    hide MatchLength, PathOf, Copyable, IsMeta;
    SharedMatch(x);
    SharedCopyable(t, x);
  }

  lemma CopyUnclean(texts: Texts, d: string, e: string, s: State, target: Path)
    requires texts(d) == Some(SharedLink(B)) && IsCopyOf(texts, TwoFiles(d, e), s, target, SHARED + A)
    ensures Landed(texts, TwoFiles(d, e), s, target) && !PageClean(s.pages, target, CopyPaths(TwoFiles(d, e)))
  {
    hide Clean, CopyPaths, Mentions, PartsOf, Layout.Universal, SharedLink, LinkTo, IsMeta;
    GoodNames();
    SharedParts(A);
    LinkIsMentioned(B);
    LinkUnclean(TwoFiles(d, e), B);
    assert SharedPath(A)[2] != SharedPath(B)[2];
  }

  /**
   The first run copies an attachment that is a page and names another attachment; the second goes
   through the copy and moves that link.
   */
  lemma CopiedPageIsMovedOn(texts: Texts, d: string, e: string, again: seq<Path>)
    requires texts(d) == Some(SharedLink(B)) && Listing(again, AfterFirst(texts, d, e).pages)
    ensures Honest(TwoFiles(d, e)) && NoPages(TwoFiles(d, e)) && Listing([PAGE], Start(d, e).pages)
    ensures var start := AfterFirst(texts, d, e).(done := map[]);
            MigratePages(texts, again, start) != (start, 0)
  {
    hide MigratePages, SharedLink, PageClean, Landed, IsCopyOf, CopyPaths, TargetName, TwoFiles, Visible;
    var t, s, target := TwoFiles(d, e), AfterFirst(texts, d, e), WIKI_ATTACHMENTS + [TargetName(A, d)];
    StartIsSound(d, e);
    FirstLands(texts, d, e);
    TargetVisible(d);
    PageThere(texts, t, s, target);
    CopyUnclean(texts, d, e, s, target);
    SecondRunIdleExactly(texts, t, Start(d, e).pages, [PAGE], again);
  }

  lemma PageThere(texts: Texts, t: Tree, s: State, p: Path)
    requires IsCopyOf(texts, t, s, p, SHARED + A)
    ensures p in s.pages
  {
  }
}
