/** Moving the attachments that wiki pages point at into the wiki. */
module PageLinks {
  import opened Wrappers
  import opened Text
  import opened Naming
  import opened Filing
  import opened LinkText
  import Layout
  import LayoutKeeps

  /** The text of a file with these bytes; None when it is no UTF-8 text. */
  type Texts = string -> Option<string>

  /** The `.md` files below the wiki, with their text. */
  type Pages = map<Path, Option<string>>

  /** The stored files but for the pages, the links already made in this run, and the pages. */
  datatype State = State(tree: Tree, done: map<string, string>, pages: Pages)

  const MD := ".md"

  predicate IsPage(p: Path) {
    |p| >= 2 && p[0] == "wiki" && EndsWith(Last(p), MD)
  }

  /** No part below the wiki starts with a dot. */
  predicate Visible(p: Path) {
    IsPage(p) && forall i :: 1 <= i < |p| ==> !StartsWith(p[i], ".")
  }

  /** The pages that a run goes through, in some order: all that are visible when it starts. */
  ghost predicate Listing(order: seq<Path>, pages: Pages) {
    forall p :: p in order <==> p in pages && Visible(p)
  }

  // --- one attachment -----------------------------------------------------------------------

  function Proper(parts: seq<string>): seq<string> {
    if parts == [] then []
    else (if parts[0] == "" || parts[0] == "." then [] else [parts[0]]) + Proper(parts[1..])
  }

  /** The parts of a path below the data root. */
  function PartsOf(rel: string): Path {
    Proper(Split(rel, '/'))
  }

  predicate IsMeta(name: string) {
    |META_SUFFIX| <= |name| && name[|name| - |META_SUFFIX|..] == META_SUFFIX
  }

  /** A stored file outside the wiki that a link can be made for. */
  predicate Copyable(t: Tree, rel: string) {
    var p := PartsOf(rel);
    (AreaOf(p) == Some(PersonArea) || AreaOf(p) == Some(SharedArea)) && p in t.files && !IsMeta(Last(p))
  }

  predicate IsNumber(s: string, n: nat) {
    |s| == n && AllDigits(s, 10)
  }

  /** `_month_of`: the first year and month, with something behind them. */
  function MonthOf(parts: seq<string>): (r: Option<(string, string)>)
    ensures r.Some? ==> IsNumber(r.value.0, 4) && IsNumber(r.value.1, 2)
  {
    if |parts| < 3 then None
    else if IsNumber(parts[0], 4) && IsNumber(parts[1], 2) then Some((parts[0], parts[1]))
    else MonthOf(parts[1..])
  }

  function TargetDirOf(rel: string): Path {
    match MonthOf(Split(rel, '/'))
    case Some((year, month)) => WIKI_ATTACHMENTS + [year, month]
    case None => WIKI_ATTACHMENTS
  }

  /** `_target_name` */
  function TargetName(name: string, sha: string): string {
    var tag := DigestTag(Some(sha));
    if tag == "" || EndsWith(Stem(name), "-" + tag) then name else Stem(name) + "-" + tag + Suffix(name)
  }

  /** The link a page gets: the path below the wiki. */
  function LinkTo(target: Path): string
    requires target != []
  {
    "/" + Join(target[1..], '/')
  }

  function ShaOf(t: Tree, source: Path): string
    requires source in t.files
  {
    if source in t.metas && t.metas[source].sha.Some? && t.metas[source].sha.value != "" then t.metas[source].sha.value
    else t.files[source]
  }

  /** Every name in `dir`, those of pages too. */
  function NamesAt(s: State, dir: Path): set<string> {
    NamesIn(s.tree, dir) + set p | p in s.pages && Layout.Under(p, dir) :: p[|dir|]
  }

  function CopyTarget(s: State, rel: string): (target: Path)
    requires Copyable(s.tree, rel)
    ensures |target| >= 3
  {
    var source, dir := PartsOf(rel), TargetDirOf(rel);
    var sha := ShaOf(s.tree, source);
    dir + [FreeName(NamesAt(s, dir), Recorded(s.tree, dir), TargetName(Last(source), sha), Some(sha))]
  }

  function MetaOf(t: Tree, source: Path): Meta
    requires source in t.files
  {
    Meta(Some(ShaOf(t, source)), if source in t.metas then t.metas[source].slug else None, Some(source))
  }

  /** The copy and its metadata. A copy that ends in `.md` is a page from now on. */
  function Copied(texts: Texts, s: State, rel: string, target: Path): State
    requires Copyable(s.tree, rel) && target != []
  {
    var source := PartsOf(rel);
    var digest := s.tree.files[source];
    var metas, done := s.tree.metas[target := MetaOf(s.tree, source)], s.done[rel := LinkTo(target)];
    if IsPage(target) then State(Tree(s.tree.files, metas), done, s.pages[target := texts(digest)])
    else State(Tree(s.tree.files[target := digest], metas), done, s.pages)
  }

  /** `_copy_into_wiki` */
  function CopyInto(texts: Texts, s: State, rel: string): (r: (Option<string>, State))
    ensures s.pages.Keys <= r.1.pages.Keys
  {
    if rel in s.done then (Some(s.done[rel]), s)
    else if !Copyable(s.tree, rel) then (None, s)
    else
      var target := CopyTarget(s, rel);
      (Some(LinkTo(target)), Copied(texts, s, rel, target))
  }

  // --- one page ---------------------------------------------------------------------------------

  /** The page text with its links replaced, attachment by attachment. */
  function RewriteWith(texts: Texts, text: string, s: State): (r: (string, State))
    ensures s.pages.Keys <= r.1.pages.Keys
    decreases |text|
  {
    if text == "" then ("", s)
    else
      match MatchLength(text)
      case None =>
        var (rest, after) := RewriteWith(texts, text[1..], s);
        ([text[0]] + rest, after)
      case Some(n) =>
        var (link, next) := CopyInto(texts, s, PathOf(text));
        var (rest, after) := RewriteWith(texts, text[n..], next);
        ((if link.Some? then "(" + link.value + ")" else text[..n]) + rest, after)
  }

  const WORD := "attachments/"

  predicate Mentions(text: string) {
    Contains(text, WORD)
  }

  /** One page of `migrate_page_links`, and whether it was written: it is when a link changed. */
  function MigratePage(texts: Texts, p: Path, s: State): (r: (State, bool))
    requires p in s.pages
    ensures s.pages.Keys <= r.0.pages.Keys
  {
    if s.pages[p].None? || !Mentions(Layout.Universal(s.pages[p].value)) then (s, false)
    else
      var text := Layout.Universal(s.pages[p].value);
      var (rewritten, after) := RewriteWith(texts, text, s);
      if rewritten == text then (after, false)
      else (after.(pages := after.pages[p := Some(rewritten)]), true)
  }

  /** A run, with the number of pages written. */
  function MigratePages(texts: Texts, order: seq<Path>, s: State): (r: (State, nat))
    requires forall p | p in order :: p in s.pages
    ensures s.pages.Keys <= r.0.pages.Keys
    decreases |order|
  {
    if order == [] then (s, 0)
    else
      var n := |order| - 1;
      var (mid, count) := MigratePages(texts, order[..n], s);
      var (after, written) := MigratePage(texts, order[n], mid);
      (after, count + if written then 1 else 0)
  }

  class LinkMigration {
    const texts: Texts
    var files: map<Path, string>
    var metas: map<Path, Meta>
    var pages: Pages
    var done: map<string, string>

    function View(): State
      reads this
    {
      State(Tree(files, metas), done, pages)
    }

    constructor (texts: Texts, t: Tree, wiki: Pages)
      ensures View() == State(t, map[], wiki) && this.texts == texts
    {
      this.texts := texts;
      files, metas, pages, done := t.files, t.metas, wiki, map[];
    }

    method CopyIntoWiki(rel: string) returns (link: Option<string>)
      modifies this
      ensures (link, View()) == CopyInto(texts, old(View()), rel)
    {
      hide NamesAt, Recorded, FreeName, TargetName, TargetDirOf, LinkTo, IsMeta, PartsOf;
      if rel in done {
        return Some(done[rel]);
      }
      var source := PartsOf(rel);
      var area := AreaOf(source);
      if area != Some(PersonArea) && area != Some(SharedArea) {
        return None;
      }
      if source !in files || IsMeta(Last(source)) {
        return None;
      }
      var meta := if source in metas then metas[source] else Meta(None, None, None);
      if meta.sha.None? || meta.sha.value == "" {
        meta := meta.(sha := Some(files[source]));
      }
      var dir := TargetDirOf(rel);
      var name := FreePath(NamesAt(View(), dir), Recorded(View().tree, dir), TargetName(Last(source), meta.sha.value), meta.sha);
      var target := dir + [name];
      meta := meta.(savedFrom := Some(source));
      if IsPage(target) {
        pages := pages[target := texts(files[source])];
      } else {
        files := files[target := files[source]];
      }
      metas := metas[target := meta];
      link := Some(LinkTo(target));
      done := done[rel := link.value];
    }

    /** The substitution: the text is read from left to right, match by match. */
    method RewritePage(text: string) returns (out: string)
      modifies this
      ensures (out, View()) == RewriteWith(texts, text, old(View()))
    {
      out := "";
      var rest := text;
      ghost var end := RewriteWith(texts, text, View());
      NothingYet(end);
      while rest != ""
        invariant end == Prefixed(out, RewriteWith(texts, rest, View()))
        decreases |rest|
      {
        var n := MatchLength(rest);
        if n.None? {
          PlainStep(texts, out, rest, View());
          out := out + [rest[0]];
          rest := rest[1..];
        } else {
          MatchStep(texts, out, rest, View());
          var link := CopyIntoWiki(PathOf(rest));
          out := out + if link.Some? then "(" + link.value + ")" else rest[..n.value];
          rest := rest[n.value..];
        }
      }
      NothingLeft(texts, out, View());
    }

    /** `migrate_page_links` over the visible pages of the wiki. */
    method MigratePageLinks(order: seq<Path>) returns (written: nat, copied: nat)
      requires forall p | p in order :: p in pages
      modifies this
      ensures (View(), written) == MigratePages(texts, order, old(View()).(done := map[]))
      ensures copied == |done|
    {
      hide MigratePage;
      ghost var start := View().(done := map[]);
      done := map[];
      written := 0;
      for i := 0 to |order|
        invariant (View(), written) == MigratePages(texts, order[..i], start)
      {
        assert order[..i + 1][..i] == order[..i];
        written := MigrateOne(order[i], written);
      }
      assert order[..|order|] == order;
      copied := |done|;
    }

    method MigrateOne(p: Path, before: nat) returns (written: nat)
      requires p in pages
      modifies this
      ensures var (after, changed) := MigratePage(texts, p, old(View()));
              View() == after && written == before + if changed then 1 else 0
    {
      written := before;
      if pages[p].None? {
        return;
      }
      var text := Layout.Universal(pages[p].value);
      if !Mentions(text) {
        return;
      }
      var rewritten := RewritePage(text);
      if rewritten != text {
        pages := pages[p := Some(rewritten)];
        written := written + 1;
      }
    }
  }

  /** A result with `out` already written in front of it. */
  function Prefixed(out: string, r: (string, State)): (string, State) {
    (out + r.0, r.1)
  }

  lemma NothingYet(r: (string, State))
    ensures Prefixed("", r) == r
  {
    assert "" + r.0 == r.0;
    assert (r.0, r.1) == r;
  }

  lemma NothingLeft(texts: Texts, out: string, s: State)
    ensures Prefixed(out, RewriteWith(texts, "", s)) == (out, s)
  {
    assert out + "" == out;
  }

  lemma PlainStep(texts: Texts, out: string, text: string, s: State)
    requires text != "" && MatchLength(text).None?
    ensures Prefixed(out, RewriteWith(texts, text, s)) == Prefixed(out + [text[0]], RewriteWith(texts, text[1..], s))
  {
    Associative(out, [text[0]], RewriteWith(texts, text[1..], s).0);
  }

  lemma MatchStep(texts: Texts, out: string, text: string, s: State)
    requires text != "" && MatchLength(text).Some?
    ensures var n := MatchLength(text).value;
            var (link, next) := CopyInto(texts, s, PathOf(text));
            Prefixed(out, RewriteWith(texts, text, s))
            == Prefixed(out + (if link.Some? then "(" + link.value + ")" else text[..n]), RewriteWith(texts, text[n..], next))
  {
    hide CopyInto;
    var n := MatchLength(text).value;
    var (link, next) := CopyInto(texts, s, PathOf(text));
    Associative(out, if link.Some? then "(" + link.value + ")" else text[..n], RewriteWith(texts, text[n..], next).0);
  }

  // --- copies lose nothing -------------------------------------------------------------------------

  ghost function CopyPaths(t: Tree): iset<string> {
    iset rel: string | Copyable(t, rel)
  }

  /** `u` holds every file of `t`, and outside the wiki nothing else. */
  ghost predicate Extends(t: Tree, u: Tree) {
    && (forall p | p in t.files :: p in u.files && u.files[p] == t.files[p])
    && (forall p | p in u.files && p !in t.files :: Layout.Under(p, WIKI_ATTACHMENTS))
    && Digests(u) == Digests(t)
  }

  lemma SameCopyable(t: Tree, u: Tree, rel: string)
    requires Extends(t, u)
    ensures Copyable(u, rel) <==> Copyable(t, rel)
  {
    var p := PartsOf(rel);
    if Layout.Under(p, WIKI_ATTACHMENTS) {
      NotElsewhere(p);
    }
  }

  lemma NotElsewhere(p: Path)
    requires Layout.Under(p, WIKI_ATTACHMENTS)
    ensures AreaOf(p) != Some(PersonArea) && AreaOf(p) != Some(SharedArea)
  {
    assert p[..2][0] == "wiki" && p[0] == "wiki";
    assert "wiki"[0] != "people"[0] && "wiki"[0] != "shared"[0];
  }

  lemma ExtendsKeepsPaths(t: Tree, u: Tree)
    requires Extends(t, u)
    ensures CopyPaths(u) == CopyPaths(t)
  {
    forall rel: string ensures rel in CopyPaths(u) <==> rel in CopyPaths(t) {
      SameCopyable(t, u, rel);
    }
  }

  /** Pages are kept apart from the other files. */
  predicate NoPages(t: Tree) {
    forall p | p in t.files :: !IsPage(p)
  }

  ghost predicate Sound(t: Tree, s: State) {
    Honest(s.tree) && NoPages(s.tree) && Extends(t, s.tree) && SoundLinks(t, s.done)
  }

  /** Every link is a good one, of a file that can be copied, and to a page only when that file ends in `.md`. */
  ghost predicate SoundLinks(t: Tree, done: map<string, string>) {
    && GoodLinks(done)
    && (forall rel | rel in done :: rel in CopyPaths(t))
    && (forall rel | rel in done :: EndsWith(done[rel], MD) ==> EndsWith(Last(PartsOf(rel)), MD))
  }

  lemma SoundLinksMore(t: Tree, done: map<string, string>, rel: string, link: string)
    requires SoundLinks(t, done) && rel in CopyPaths(t) && GoodLink(link)
    requires EndsWith(link, MD) ==> EndsWith(Last(PartsOf(rel)), MD)
    ensures SoundLinks(t, done[rel := link])
  {
  }

  predicate PathPlain(rel: string) {
    forall i :: 0 <= i < |rel| ==> rel[i] != ')' && !IsSpace(rel[i])
  }

  lemma MatchedPath(text: string)
    requires MatchLength(text).Some?
    ensures PathPlain(PathOf(text))
  {
    MatchRun(text);
    var k := 1 + Slash(text[1..]);
    assert forall i :: 0 <= i < |PathOf(text)| ==> PathOf(text)[i] == text[k + i];
  }

  /** A copy lands below the wiki's attachments. */
  lemma CopyBelow(s: State, rel: string)
    requires Copyable(s.tree, rel)
    ensures Layout.Under(CopyTarget(s, rel), WIKI_ATTACHMENTS)
  {
    var target := CopyTarget(s, rel);
    assert TargetDirOf(rel)[..2] == WIKI_ATTACHMENTS;
    assert target[..2] == TargetDirOf(rel)[..2];
  }

  lemma TrueSha(t: Tree, source: Path)
    requires Honest(t) && source in t.files
    ensures ShaOf(t, source) == t.files[source]
  {
  }

  /** It takes a free name, or that of a file with the same bytes. */
  lemma CopySafe(s: State, rel: string)
    requires Honest(s.tree) && Copyable(s.tree, rel)
    ensures CopyTarget(s, rel) in s.tree.files ==> s.tree.files[CopyTarget(s, rel)] == s.tree.files[PartsOf(rel)]
  {
    var source, dir := PartsOf(rel), TargetDirOf(rel);
    var sha := ShaOf(s.tree, source);
    TrueSha(s.tree, source);
    TargetSafe(s.tree, dir, NamesAt(s, dir), TargetName(Last(source), sha), Some(sha));
  }

  lemma CopyNewTree(texts: Texts, t: Tree, s: State, rel: string)
    requires Extends(t, s.tree) && Honest(s.tree) && NoPages(s.tree) && Copyable(s.tree, rel)
    ensures var next := Copied(texts, s, rel, CopyTarget(s, rel)).tree; Extends(t, next) && Honest(next) && NoPages(next)
  {
    hide CopyTarget;
    var source, target := PartsOf(rel), CopyTarget(s, rel);
    TrueSha(s.tree, source);
    if !IsPage(target) {
      CopyBelow(s, rel);
      CopySafe(s, rel);
      assert s.tree.files[source] in Digests(s.tree);
      PutExtends(t, s.tree, target, s.tree.files[source], MetaOf(s.tree, source));
    }
  }

  lemma CopyNew(texts: Texts, t: Tree, s: State, rel: string)
    requires Sound(t, s) && PathPlain(rel) && rel !in s.done && Copyable(s.tree, rel) && rel in CopyPaths(t)
    ensures Sound(t, CopyInto(texts, s, rel).1)
  {
    hide CopyTarget, Honest, Extends, NoPages, SoundLinks, LinkTo, MetaOf;
    CopyNewTree(texts, t, s, rel);
    LinkGood(s, rel);
    SoundLinksMore(t, s.done, rel, LinkTo(CopyTarget(s, rel)));
  }

  /** Copying one attachment keeps the run sound, and gives a link exactly when there is something to copy. */
  lemma CopyKeeps(texts: Texts, t: Tree, s: State, rel: string)
    requires Sound(t, s) && PathPlain(rel)
    ensures var (link, next) := CopyInto(texts, s, rel);
            && Sound(t, next)
            && (link.Some? <==> rel in CopyPaths(t))
            && (link.Some? ==> rel in next.done && next.done[rel] == link.value)
            && (forall q | q in s.done :: q in next.done && next.done[q] == s.done[q])
  {
    hide Copyable, CopyTarget, Honest, Extends, NoPages, LinkTo, Last, PathPlain, PartsOf, ShaOf, MetaOf, IsPage, GoodLinks, EndsWith;
    SameCopyable(t, s.tree, rel);
    if rel !in s.done && Copyable(s.tree, rel) {
      CopyNew(texts, t, s, rel);
    }
  }

  lemma PutExtends(t: Tree, u: Tree, target: Path, digest: string, meta: Meta)
    requires Extends(t, u) && Honest(u) && Layout.Under(target, WIKI_ATTACHMENTS) && meta.sha == Some(digest)
    requires digest in Digests(u) && (target in u.files ==> u.files[target] == digest)
    ensures Extends(t, Put(u, target, digest, meta)) && Honest(Put(u, target, digest, meta))
  {
    ValuesAfterPut(u.files, target, digest);
    assert Digests(u) + {digest} == Digests(u);
  }

  // --- the link of a copy is a good link -------------------------------------------------------------

  predicate NamePlain(name: string) {
    PathPlain(name) && '/' !in name
  }

  lemma {:induction false} ProperFrom(parts: seq<string>)
    ensures forall p | p in Proper(parts) :: p in parts
  {
    if parts != [] {
      ProperFrom(parts[1..]);
    }
  }

  lemma {:induction false} SplitPlain(rel: string)
    requires PathPlain(rel)
    ensures forall p | p in Split(rel, '/') :: PathPlain(p)
    decreases |rel|
  {
    var i := Find(rel, '/');
    assert forall k :: 0 <= k < i ==> rel[..i][k] == rel[k];
    if i < |rel| {
      var tail := rel[i + 1..];
      assert forall k :: 0 <= k < |tail| ==> tail[k] == rel[i + 1 + k];
      SplitPlain(tail);
    }
  }

  lemma DigitsName(s: string)
    requires AllDigits(s, 10)
    ensures NamePlain(s) && '(' !in s
  {
    DigitsPlain(s, 10);
    forall i | 0 <= i < |s| ensures s[i] != ')' && s[i] != '/' && s[i] != '(' {
      assert IsDigit(s[i], 10);
    }
  }

  lemma ConcatPlain(a: string, b: string)
    requires NamePlain(a) && NamePlain(b)
    ensures NamePlain(a + b)
  {
  }

  lemma CutPlain(name: string)
    requires NamePlain(name)
    ensures NamePlain(Stem(name)) && NamePlain(Suffix(name))
  {
    var a, b := Stem(name), Suffix(name);
    assert a + b == name;
    assert forall i :: 0 <= i < |a| ==> a[i] == name[i];
    assert forall i :: 0 <= i < |b| ==> b[i] == name[|a| + i];
  }

  lemma TagPlain(sha: string)
    ensures NamePlain(DigestTag(Some(sha))) && NamePlain("-")
  {
    var tag := DigestTag(Some(sha));
    forall i | 0 <= i < |tag| ensures tag[i] != ')' && !IsSpace(tag[i]) && tag[i] != '/' {
      assert tag[i] in tag;
    }
  }

  lemma NumberedPlain(stem: string, suffix: string, k: nat)
    requires NamePlain(stem) && NamePlain(suffix)
    ensures NamePlain(Numbered(stem, suffix, k))
  {
    DigitsName(Decimal(k));
    TagPlain("");
    ConcatPlain(stem, "-");
    ConcatPlain(stem + "-", Decimal(k));
    ConcatPlain(stem + "-" + Decimal(k), suffix);
  }

  lemma TargetNamePlain(name: string, sha: string)
    requires NamePlain(name)
    ensures NamePlain(TargetName(name, sha))
  {
    var tag := DigestTag(Some(sha));
    CutPlain(name);
    TagPlain(sha);
    ConcatPlain(Stem(name), "-");
    ConcatPlain(Stem(name) + "-", tag);
    ConcatPlain(Stem(name) + "-" + tag, Suffix(name));
  }

  lemma FreeNamePlain(names: set<string>, recorded: map<string, string>, name: string, digest: Option<string>)
    requires NamePlain(name)
    ensures NamePlain(FreeName(names, recorded, name, digest))
  {
    CutPlain(name);
    if FreeName(names, recorded, name, digest) != name {
      NumberedPlain(Stem(name), Suffix(name), FirstFree(names, Stem(name), Suffix(name), 2));
    }
  }

  /** Folders without brackets in front of a plain name make a good link. */
  lemma FoldersAndName(prefix: string, name: string)
    requires StartsWith(prefix, WIKI_FOLDER) && PathPlain(prefix) && '(' !in prefix && NamePlain(name)
    ensures GoodLink(prefix + name)
  {
    var l := prefix + name;
    assert l[..13] == prefix[..13];
    forall i | 0 <= i < |l| && l[i] == '(' ensures '/' !in l[i..] {
      assert i >= |prefix|;
      assert l[i..] == name[i - |prefix|..];
    }
  }

  lemma LinkGood(s: State, rel: string)
    requires Copyable(s.tree, rel) && PathPlain(rel)
    ensures GoodLink(LinkTo(CopyTarget(s, rel)))
    ensures EndsWith(LinkTo(CopyTarget(s, rel)), MD) ==> EndsWith(Last(PartsOf(rel)), MD)
  {
    hide GoodLink, LinkTo, TargetName, FreeName, ShaOf, Recorded, NamesAt, EndsWith, MonthOf;
    var source, dir := PartsOf(rel), TargetDirOf(rel);
    var sha := ShaOf(s.tree, source);
    var names, recorded, name := NamesAt(s, dir), Recorded(s.tree, dir), TargetName(Last(source), sha);
    SplitPlain(rel);
    ProperFrom(Split(rel, '/'));
    assert Last(source) in source;
    TargetNamePlain(Last(source), sha);
    FreeNamePlain(names, recorded, name, Some(sha));
    LinkShape(MonthOf(Split(rel, '/')), FreeName(names, recorded, name, Some(sha)));
    LinkEnds(CopyTarget(s, rel));
    FreeNameEnds(names, recorded, name, Some(sha));
    TargetNameEnds(Last(source), sha);
  }

  lemma LinkShape(month: Option<(string, string)>, name: string)
    requires NamePlain(name) && (month.Some? ==> IsNumber(month.value.0, 4) && IsNumber(month.value.1, 2))
    ensures var dir := match month case Some((y, m)) => WIKI_ATTACHMENTS + [y, m] case None => WIKI_ATTACHMENTS;
            GoodLink(LinkTo(dir + [name]))
  {
    assert "/" + ATTACHMENTS + "/" == WIKI_FOLDER;
    match month
    case None =>
      var target := WIKI_ATTACHMENTS + [name];
      assert target[1..] == [ATTACHMENTS] + [name];
      JoinCons(ATTACHMENTS, [name], '/');
      FoldersAndName(WIKI_FOLDER, name);
      assert LinkTo(target) == WIKI_FOLDER + name;
    case Some((y, m)) =>
      var target := WIKI_ATTACHMENTS + [y, m] + [name];
      DigitsName(y);
      DigitsName(m);
      MonthLink(y, m, name);
      var prefix := WIKI_FOLDER + y + "/" + m + "/";
      assert prefix[..13] == WIKI_FOLDER;
      FoldersAndName(prefix, name);
  }

  lemma MonthLink(y: string, m: string, name: string)
    ensures LinkTo(WIKI_ATTACHMENTS + [y, m] + [name]) == (WIKI_FOLDER + y + "/" + m + "/") + name
  {
    var target := WIKI_ATTACHMENTS + [y, m] + [name];
    assert target[1..] == [ATTACHMENTS] + ([y] + ([m] + [name]));
    JoinCons(m, [name], '/');
    JoinCons(y, [m] + [name], '/');
    JoinCons(ATTACHMENTS, [y] + ([m] + [name]), '/');
    assert "/" + ATTACHMENTS + "/" == WIKI_FOLDER;
  }

  // --- which names end in `.md` ------------------------------------------------------------------------

  lemma {:induction false} JoinLast(parts: seq<string>) returns (front: string)
    requires parts != []
    ensures "/" + Join(parts, '/') == front + "/" + parts[|parts| - 1]
    decreases |parts|
  {
    if |parts| == 1 {
      front := "";
    } else {
      var rest := JoinLast(parts[1..]);
      front := "/" + parts[0] + rest;
      assert Join(parts, '/') == parts[0] + ("/" + Join(parts[1..], '/'));
      Associative("/" + parts[0], rest, "/" + parts[|parts| - 1]);
    }
  }

  lemma LinkEnds(p: Path)
    requires |p| >= 2
    ensures EndsWith(LinkTo(p), MD) <==> EndsWith(Last(p), MD)
  {
    var front := JoinLast(p[1..]);
    TailEnds(front, Last(p));
  }

  lemma TailEnds(front: string, name: string)
    ensures EndsWith(front + "/" + name, MD) <==> EndsWith(name, MD)
  {
    var s := front + "/" + name;
    var n := |name|;
    assert s[|front|] == '/';
    assert forall i :: 0 <= i < n ==> s[|front| + 1 + i] == name[i];
    LastThree(s);
    LastThree(name);
  }

  lemma LastThree(s: string)
    ensures EndsWith(s, MD) <==> |s| >= 3 && s[|s| - 3] == '.' && s[|s| - 2] == 'm' && s[|s| - 1] == 'd'
  {
    if |s| >= 3 {
      assert s[|s| - 3..] == [s[|s| - 3], s[|s| - 2], s[|s| - 1]];
    }
  }

  /** What stands in front of a suffix does not make a name end in `.md`. */
  lemma SuffixEnds(front: string, name: string)
    requires Suffix(name) != ""
    ensures EndsWith(front + Suffix(name), MD) ==> EndsWith(name, MD)
  {
    var suffix := Suffix(name);
    var s := front + suffix;
    var i := FindLast(name, '.').value;
    assert suffix == name[i..] && |suffix| >= 2 && '.' !in name[i + 1..];
    LastThree(s);
    LastThree(name);
    assert |suffix| > 3 ==> s[|s| - 3] == name[i + 1..][|suffix| - 4];
  }

  /** A name without a suffix does not end in `.md` behind a dash and letters or digits. */
  lemma DashEnds(front: string, tail: string)
    requires forall c | c in tail :: IsAlnum(c)
    ensures !EndsWith(front + "-" + tail, MD)
  {
    var s := front + "-" + tail;
    LastThree(s);
    assert s[|front|] == '-';
    assert forall i :: 0 <= i < |tail| ==> s[|front| + 1 + i] == tail[i] && tail[i] in tail;
  }

  lemma TargetNameEnds(name: string, sha: string)
    ensures EndsWith(TargetName(name, sha), MD) ==> EndsWith(name, MD)
  {
    var tag := DigestTag(Some(sha));
    if Suffix(name) != "" {
      SuffixEnds(Stem(name) + "-" + tag, name);
    } else {
      DashEnds(Stem(name), tag);
      assert Stem(name) + "-" + tag + "" == Stem(name) + "-" + tag;
    }
  }

  lemma FreeNameEnds(names: set<string>, recorded: map<string, string>, name: string, digest: Option<string>)
    ensures EndsWith(FreeName(names, recorded, name, digest), MD) ==> EndsWith(name, MD)
  {
    if FreeName(names, recorded, name, digest) != name {
      var k := FirstFree(names, Stem(name), Suffix(name), 2);
      if Suffix(name) != "" {
        SuffixEnds(Stem(name) + "-" + Decimal(k), name);
      } else {
        DecimalAlnum(k);
        DashEnds(Stem(name), Decimal(k));
        assert Stem(name) + "-" + Decimal(k) + "" == Stem(name) + "-" + Decimal(k);
      }
    }
  }

  lemma DecimalAlnum(k: nat)
    ensures forall c | c in Decimal(k) :: IsAlnum(c)
  {
    DigitsPlain(Decimal(k), 10);
  }
}
