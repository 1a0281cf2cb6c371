/** Storing, naming and placing attachments without losing one. */
module Filing {
  import opened Wrappers
  import opened Text
  import opened Naming
  import Layout

  type Path = Layout.Path

  datatype Meta = Meta(sha: Option<string>, slug: Option<string>, savedFrom: Option<Path>)

  /** Stored files with the digests of their bytes, and the metadata files beside them. */
  datatype Tree = Tree(files: map<Path, string>, metas: map<Path, Meta>)

  datatype Area = Wiki | PersonArea | SharedArea

  const ATTACHMENTS := "attachments"
  const META_SUFFIX := ".meta.json"

  /** `attachment_area` */
  function AreaOf(p: Path): Option<Area> {
    if ".." in p then None
    else if |p| >= 3 && p[0] == "wiki" && p[1] == ATTACHMENTS then Some(Wiki)
    else if |p| >= 4 && p[0] == "people" && p[2] == ATTACHMENTS then Some(PersonArea)
    else if |p| >= 3 && p[0] == "shared" && p[1] == ATTACHMENTS then Some(SharedArea)
    else None
  }

  function Last(p: Path): string
    requires p != []
  {
    p[|p| - 1]
  }

  function Parent(p: Path): Path
    requires p != []
  {
    p[..|p| - 1]
  }

  // --- directories -----------------------------------------------------------------------

  /** Every name that exists in `dir`: files, folders with files in them, and metadata files. */
  function NamesIn(t: Tree, dir: Path): (names: set<string>)
    ensures forall n :: dir + [n] in t.files ==> n in names
  {
    assert forall n :: Layout.Under(dir + [n], dir) && (dir + [n])[|dir|] == n;
    (set p | p in t.files && Layout.Under(p, dir) :: p[|dir|])
    + (set p | p in t.metas && Layout.Under(p, dir) && |p| > |dir| + 1 :: p[|dir|])
    + (set p | p in t.metas && Layout.Under(p, dir) && |p| == |dir| + 1 :: p[|dir|] + META_SUFFIX)
  }

  /** The digests that the metadata of `dir` records. */
  function Recorded(t: Tree, dir: Path): map<string, string> {
    var names := set p | p in t.metas && Layout.Under(p, dir) && |p| == |dir| + 1 && t.metas[p].sha.Some? :: p[|dir|];
    map n | n in names && dir + [n] in t.metas && t.metas[dir + [n]].sha.Some? :: t.metas[dir + [n]].sha.value
  }

  /** The metadata of a file never records another digest than that of the file. */
  ghost predicate Honest(t: Tree) {
    forall p | p in t.metas && p in t.files && t.metas[p].sha.Some? :: t.metas[p].sha.value == t.files[p]
  }

  function Digests(t: Tree): set<string> {
    t.files.Values
  }

  // --- names --------------------------------------------------------------------------------

  predicate IsAlnum(c: char) {
    '0' <= c <= '9' || 'a' <= c <= 'z' || 'A' <= c <= 'Z'
  }

  /** `digest_tag` */
  function DigestTag(sha: Option<string>): (tag: string)
    ensures forall c | c in tag :: IsAlnum(c)
  {
    if sha.None? then ""
    else
      var clean := Lower(Strip(sha.value));
      var tag := if |clean| <= 6 then clean else clean[..6];
      if forall c | c in tag :: IsAlnum(c) then tag else ""
  }

  /** `stored_name` */
  function StoredName(current: string, slug: string, sha: Option<string>): string {
    var tag := DigestTag(sha);
    (if tag != "" then slug + "-" + tag else slug) + Suffix(current)
  }

  // --- the three ways a file comes to a place ---------------------------------------------------

  /** A file arrives under `target`, which is free, or holds the same bytes. */
  function Put(t: Tree, target: Path, digest: string, meta: Meta): Tree {
    Tree(t.files[target := digest], t.metas[target := meta])
  }

  function Taken(t: Tree, source: Path): Tree {
    Tree(t.files - {source}, t.metas - {source})
  }

  /** Where `name` goes in `dir`. */
  function Target(t: Tree, dir: Path, name: string, sha: Option<string>): Path {
    dir + [FreeName(NamesIn(t, dir), Recorded(t, dir), name, sha)]
  }

  const WIKI_ATTACHMENTS: Path := ["wiki", ATTACHMENTS]

  predicate ToWiki(rel: Path, autoSave: bool, member: bool) {
    autoSave && member && AreaOf(rel).Some? && AreaOf(rel) != Some(Wiki)
  }

  /** A described file in an attachment area, whose name or place is not yet the one it should have. */
  predicate Moves(t: Tree, rel: Path, meta: Meta, autoSave: bool, member: bool) {
    && meta.slug.Some? && AreaOf(rel).Some? && rel in t.files
    && (ToWiki(rel, autoSave, member) || StoredName(Last(rel), meta.slug.value, meta.sha) != Last(rel))
  }

  function TargetDir(rel: Path, autoSave: bool, member: bool, month: (string, string)): Path
    requires rel != []
  {
    if ToWiki(rel, autoSave, member) then WIKI_ATTACHMENTS + [month.0, month.1] else Parent(rel)
  }

  /** What `file_attachment` returns and leaves behind. */
  function Filed(t: Tree, rel: Path, meta: Meta, autoSave: bool, member: bool, month: (string, string)): (Path, Meta, Tree) {
    if !Moves(t, rel, meta, autoSave, member) then (rel, meta, t)
    else
      var name := StoredName(Last(rel), meta.slug.value, meta.sha);
      var target := Target(t, TargetDir(rel, autoSave, member, month), name, meta.sha);
      var after := if ToWiki(rel, autoSave, member) then meta.(savedFrom := Some(rel)) else meta;
      (target, after, Put(Taken(t, rel), target, t.files[rel], after))
  }

  /** Where an arriving file goes: a path that no file has. */
  function FreshPath(t: Tree, dir: Path, name: string, ext: string): (dest: Path)
    ensures dest !in t.files && Layout.Under(dest, dir) && |dest| == |dir| + 1
  {
    dir + [Deduped(NamesIn(t, dir), name, ext)]
  }

  class Store {
    var files: map<Path, string>
    var metas: map<Path, Meta>

    function View(): Tree
      reads this
    {
      Tree(files, metas)
    }

    constructor ()
      ensures View() == Tree(map[], map[])
    {
      files, metas := map[], map[];
    }

    /** `file_attachment`: the file is renamed, its old metadata file removed and a new one written. */
    method FileAttachment(rel: Path, meta: Meta, autoSave: bool, member: bool, month: (string, string))
      returns (newRel: Path, newMeta: Meta)
      modifies this
      ensures (newRel, newMeta, View()) == Filed(old(View()), rel, meta, autoSave, member, month)
    {
      newRel, newMeta := rel, meta;
      if meta.slug.None? {
        return;
      }
      var area := AreaOf(rel);
      if area.None? || rel !in files {
        return;
      }
      var name := StoredName(Last(rel), meta.slug.value, meta.sha);
      var toWiki := autoSave && member && area != Some(Wiki);
      var dir;
      if toWiki {
        dir := WIKI_ATTACHMENTS + [month.0, month.1];
      } else {
        dir := Parent(rel);
        if name == Last(rel) {
          return;
        }
      }
      var free := FreePath(NamesIn(View(), dir), Recorded(View(), dir), name, meta.sha);
      newRel := dir + [free];
      if toWiki {
        newMeta := meta.(savedFrom := Some(rel));
      }
      files := (files - {rel})[newRel := files[rel]];
      metas := metas - {rel};
      metas := metas[newRel := newMeta];
    }

    /** A new file from a channel: its name is made free, and its metadata written beside it. */
    method Ingest(dir: Path, name: string, ext: string, digest: string) returns (dest: Path)
      modifies this
      ensures dest == FreshPath(old(View()), dir, name, ext)
      ensures View() == Put(old(View()), dest, digest, Meta(Some(digest), None, None))
    {
      var unused := DedupeName(NamesIn(View(), dir), name, ext);
      dest := dir + [unused];
      files := files[dest := digest];
      metas := metas[dest := Meta(Some(digest), None, None)];
    }
  }

  // --- nothing is lost -------------------------------------------------------------------------------

  /** A chosen target is free, or holds the bytes that the arriving file records. */
  lemma TargetSafe(t: Tree, dir: Path, names: set<string>, name: string, sha: Option<string>)
    requires Honest(t) && NamesIn(t, dir) <= names
    ensures var p := dir + [FreeName(names, Recorded(t, dir), name, sha)];
            p in t.files ==> sha.Some? && t.files[p] == sha.value && p == dir + [name]
  {
    var free := FreeName(names, Recorded(t, dir), name, sha);
    if dir + [free] in t.files {
      assert free in NamesIn(t, dir);
    }
  }

  lemma ValuesAfterPut(files: map<Path, string>, target: Path, digest: string)
    requires target in files ==> files[target] == digest
    ensures files[target := digest].Values == files.Values + {digest}
  {
    var after := files[target := digest];
    assert after[target] == digest && forall p | p in files :: p in after && after[p] == files[p];
  }

  lemma ValuesAfterMove(files: map<Path, string>, source: Path, target: Path)
    requires source in files && source != target && (target in files ==> files[target] == files[source])
    ensures (files - {source})[target := files[source]].Values == files.Values
  {
    var after := (files - {source})[target := files[source]];
    forall d | d in files.Values ensures d in after.Values {
      var p :| p in files && files[p] == d;
      if p == source {
        assert after[target] == d;
      } else {
        assert after[p] == d;
      }
    }
    forall d | d in after.Values ensures d in files.Values {
      var p :| p in after && after[p] == d;
      assert p != target ==> files[p] == d;
    }
  }

  /** Beside itself a file finds another name. */
  lemma OtherName(t: Tree, rel: Path, name: string, sha: Option<string>)
    requires rel in t.files && rel != [] && name != Last(rel)
    ensures Target(t, Parent(rel), name, sha) != rel
  {
    var dir := Parent(rel);
    var names := NamesIn(t, dir);
    Listed(t, rel);
    OtherThan(names, Recorded(t, dir), name, sha, Last(rel));
    LastAppended(dir, FreeName(names, Recorded(t, dir), name, sha));
  }

  lemma Listed(t: Tree, rel: Path)
    requires rel in t.files && rel != []
    ensures Last(rel) in NamesIn(t, Parent(rel))
  {
    assert rel == Parent(rel) + [Last(rel)];
  }

  lemma OtherThan(names: set<string>, recorded: map<string, string>, name: string, sha: Option<string>, last: string)
    requires last in names && name != last
    ensures FreeName(names, recorded, name, sha) != last
  {
  }

  lemma LastAppended(dir: Path, name: string)
    ensures Last(dir + [name]) == name
  {
  }

  lemma OutsideWiki(rel: Path, p: Path)
    requires AreaOf(rel).Some? && AreaOf(rel) != Some(Wiki) && |p| >= 3 && p[0] == "wiki" && p[1] == ATTACHMENTS
    ensures p != rel
  {
  }

  /** A file that moves does not land on itself. */
  lemma MovesAway(t: Tree, rel: Path, meta: Meta, autoSave: bool, member: bool, month: (string, string))
    requires Moves(t, rel, meta, autoSave, member)
    ensures Filed(t, rel, meta, autoSave, member, month).0 != rel
  {
    if ToWiki(rel, autoSave, member) {
      OutsideWiki(rel, Filed(t, rel, meta, autoSave, member, month).0);
    } else {
      OtherName(t, rel, StoredName(Last(rel), meta.slug.value, meta.sha), meta.sha);
    }
  }

  lemma MoveKeeps(t: Tree, rel: Path, p: Path, m: Meta)
    requires Honest(t) && rel in t.files && p != rel && (p in t.files ==> t.files[p] == t.files[rel])
    requires m.sha.Some? ==> m.sha.value == t.files[rel]
    ensures var after := Put(Taken(t, rel), p, t.files[rel], m);
            && Digests(after) == Digests(t) && Honest(after)
            && (forall q | q in t.files && q != rel :: q in after.files && after.files[q] == t.files[q])
            && (forall q | q in after.files && q != p :: q in t.files)
  {
    ValuesAfterMove(t.files, rel, p);
  }

  /**
   Filing keeps the digests: the file arrives under the new path with its bytes, every other file stays
   where it is with the bytes it had, and the metadata stays honest.
   */
  lemma FilingKeepsFiles(t: Tree, rel: Path, meta: Meta, autoSave: bool, member: bool, month: (string, string))
    requires Honest(t) && (meta.sha.Some? && rel in t.files ==> meta.sha.value == t.files[rel])
    ensures var (p, m, after) := Filed(t, rel, meta, autoSave, member, month);
            && Digests(after) == Digests(t) && Honest(after)
            && (rel in t.files ==> p in after.files && after.files[p] == t.files[rel])
            && (forall q | q in t.files && q != rel :: q in after.files && after.files[q] == t.files[q])
            && (forall q | q in after.files && q != p :: q in t.files)
            && (p != rel ==> rel !in after.files)
  {
    if Moves(t, rel, meta, autoSave, member) {
      var p := Filed(t, rel, meta, autoSave, member, month).0;
      MovesAway(t, rel, meta, autoSave, member, month);
      var dir := TargetDir(rel, autoSave, member, month);
      TargetSafe(t, dir, NamesIn(t, dir), StoredName(Last(rel), meta.slug.value, meta.sha), meta.sha);
      MoveKeeps(t, rel, p, Filed(t, rel, meta, autoSave, member, month).1);
    }
  }

  // --- filing twice ------------------------------------------------------------------------------------

  /** A slug as the describer gives it: no dot in it. */
  predicate IsSlug(s: string) {
    s != "" && '.' !in s
  }

  lemma SameNameAgain(current: string, slug: string, sha: Option<string>)
    requires IsSlug(slug)
    ensures StoredName(StoredName(current, slug, sha), slug, sha) == StoredName(current, slug, sha)
  {
    var tag := DigestTag(sha);
    var stem := if tag != "" then slug + "-" + tag else slug;
    assert '.' !in tag && '.' !in stem;
    SuffixKept(stem, current);
  }

  lemma CounterStays(current: string, slug: string, sha: Option<string>, k: nat)
    requires IsSlug(slug)
    ensures var name := StoredName(current, slug, sha);
            StoredName(Numbered(Stem(name), Suffix(name), k), slug, sha) == name
  {
    var tag := DigestTag(sha);
    var stem := if tag != "" then slug + "-" + tag else slug;
    assert '.' !in tag && '.' !in stem;
    SuffixKept(stem, current);
    var name := StoredName(current, slug, sha);
    assert Suffix(name) == Suffix(current) && Stem(name) == stem;
    var numbered := stem + "-" + Decimal(k);
    DigitsPlain(Decimal(k), 10);
    assert DigitValue('.').None?;
    assert '.' !in numbered;
    SuffixKept(numbered, current);
    assert Numbered(Stem(name), Suffix(name), k) == numbered + Suffix(current);
  }

  /**
   Filing a file that was just filed is a no-op exactly when its name needed no counter. With a counter
   the name still differs from the stored one, so the file moves on.
   */
  lemma FiledAgain(t: Tree, rel: Path, meta: Meta, autoSave: bool, member: bool, month: (string, string))
    requires Moves(t, rel, meta, autoSave, member) && IsSlug(meta.slug.value) && month.0 != ".." && month.1 != ".."
    ensures var (p, m, after) := Filed(t, rel, meta, autoSave, member, month);
            var name := StoredName(Last(rel), meta.slug.value, meta.sha);
            Filed(after, p, m, autoSave, member, month) == (p, m, after) <==> Last(p) == name
  {
    var (p, m, after) := Filed(t, rel, meta, autoSave, member, month);
    var dir := TargetDir(rel, autoSave, member, month);
    var slug := meta.slug.value;
    var name := StoredName(Last(rel), slug, meta.sha);
    var free := FreeName(NamesIn(t, dir), Recorded(t, dir), name, meta.sha);
    StoredStart(Last(rel), slug, meta.sha);
    assert p == dir + [free] && Last(p) == free && Parent(p) == dir;
    FiledArea(rel, autoSave, member, month, free);
    SameNameAgain(Last(rel), slug, meta.sha);
    if free != name {
      CounterStays(Last(rel), slug, meta.sha, FirstFree(NamesIn(t, dir), Stem(name), Suffix(name), 2));
      MovesAway(after, p, m, autoSave, member, month);
    }
  }

  /** A stored name starts like its slug, with a counter or without. */
  lemma StoredStart(current: string, slug: string, sha: Option<string>)
    requires IsSlug(slug)
    ensures var name := StoredName(current, slug, sha);
            name != ".." && Stem(name) != "" && forall k: nat :: Numbered(Stem(name), Suffix(name), k) != ".."
  {
    var tag := DigestTag(sha);
    var stem := if tag != "" then slug + "-" + tag else slug;
    assert '.' !in tag && '.' !in stem;
    SuffixKept(stem, current);
    var name := StoredName(current, slug, sha);
    assert Suffix(name) == Suffix(current) && Stem(name) == stem;
    assert stem[0] in stem && name[0] == stem[0];
    forall k: nat ensures Numbered(stem, Suffix(name), k) != ".." {
      assert Numbered(stem, Suffix(name), k)[0] == stem[0];
    }
  }

  /** A filed path is in the wiki or where it was, so a second filing does not carry it to the wiki. */
  lemma FiledArea(rel: Path, autoSave: bool, member: bool, month: (string, string), free: string)
    requires AreaOf(rel).Some? && free != ".." && month.0 != ".." && month.1 != ".."
    ensures var p := TargetDir(rel, autoSave, member, month) + [free];
            AreaOf(p).Some? && !ToWiki(p, autoSave, member)
  {
    var dir := TargetDir(rel, autoSave, member, month);
    var p := dir + [free];
    assert ".." !in dir;
    assert |p| >= 3 && p[0] == dir[0] && p[1] == dir[1];
    assert "wiki"[0] != "people"[0] && "wiki"[0] != "shared"[0] && "people"[0] != "shared"[0];
    if !ToWiki(rel, autoSave, member) {
      assert |p| == |rel| && forall i :: 0 <= i < |rel| - 1 ==> p[i] == rel[i];
    }
  }

  const BESIDE: Tree := Tree(map[["shared", ATTACHMENTS, "a"] := "0", ["shared", ATTACHMENTS, "s"] := "1"], map[])
  const NAMED: Meta := Meta(None, Some("s"), None)

  lemma SameSlugNames()
    ensures StoredName("a", "s", None) == "s" && Stem("s") == "s" && Suffix("s") == ""
    ensures Numbered("s", "", 2) == "s-2" && IsSlug("s")
  {
    assert Suffix("a") == "" && Decimal(2) == "2";
  }

  lemma BesideNames()
    ensures NamesIn(BESIDE, ["shared", ATTACHMENTS]) == {"a", "s"}
  {
    var dir := ["shared", ATTACHMENTS];
    assert dir + ["a"] == ["shared", ATTACHMENTS, "a"] && dir + ["s"] == ["shared", ATTACHMENTS, "s"];
    assert dir + ["a"] in BESIDE.files && dir + ["s"] in BESIDE.files;
  }

  lemma BesideFree()
    ensures Target(BESIDE, ["shared", ATTACHMENTS], "s", None) == ["shared", ATTACHMENTS, "s-2"]
  {
    hide NamesIn, Recorded;
    SameSlugNames();
    BesideNames();
    assert FirstFree({"a", "s"}, "s", "", 2) == 2;
    assert ["shared", ATTACHMENTS] + ["s-2"] == ["shared", ATTACHMENTS, "s-2"];
  }

  lemma CounterTaken()
    ensures Moves(BESIDE, ["shared", ATTACHMENTS, "a"], NAMED, false, false)
    ensures Filed(BESIDE, ["shared", ATTACHMENTS, "a"], NAMED, false, false, ("", "")).0 == ["shared", ATTACHMENTS, "s-2"]
  {
    hide StoredName, Target;
    var rel := ["shared", ATTACHMENTS, "a"];
    SameSlugNames();
    assert ".." !in rel && rel[0] == "shared" && AreaOf(rel) == Some(SharedArea);
    assert rel in BESIDE.files;
    assert Parent(rel) == ["shared", ATTACHMENTS] && Last(rel) == "a";
    BesideFree();
  }

  /**
   A file takes a counter when another file has its name and no digest is recorded for it. Filed
   again, it moves on.
   */
  lemma CounterMovesOn()
    ensures var rel := ["shared", ATTACHMENTS, "a"];
            var (p, m, after) := Filed(BESIDE, rel, NAMED, false, false, ("", ""));
            && Honest(BESIDE) && Moves(BESIDE, rel, NAMED, false, false) && p == ["shared", ATTACHMENTS, "s-2"]
            && Filed(after, p, m, false, false, ("", "")) != (p, m, after)
  {
    hide Filed, Moves, StoredName;
    SameSlugNames();
    CounterTaken();
    FiledAgain(BESIDE, ["shared", ATTACHMENTS, "a"], NAMED, false, false, ("", ""));
  }

  // --- whole runs ----------------------------------------------------------------------------------------

  /** A file that a channel takes in, or a stored file that is described and filed. */
  datatype Event =
    | Arrived(dir: Path, name: string, ext: string, digest: string)
    | Described(rel: Path, slug: string, autoSave: bool, member: bool, month: (string, string))

  /** What the metadata on disk says of a file, with the new description. */
  function WithSlug(t: Tree, rel: Path, slug: string): Meta {
    (if rel in t.metas then t.metas[rel] else Meta(None, None, None)).(slug := Some(slug))
  }

  function After(t: Tree, e: Event): Tree {
    match e
    case Arrived(dir, name, ext, digest) => Put(t, FreshPath(t, dir, name, ext), digest, Meta(Some(digest), None, None))
    case Described(rel, slug, autoSave, member, month) =>
      Filed(t, rel, WithSlug(t, rel, slug), autoSave, member, month).2
  }

  function AfterAll(t: Tree, events: seq<Event>): Tree {
    if events == [] then t else After(AfterAll(t, events[..|events| - 1]), events[|events| - 1])
  }

  function Arrivals(events: seq<Event>): set<string> {
    set e | e in events && e.Arrived? :: e.digest
  }

  lemma ArrivalsSnoc(events: seq<Event>, e: Event)
    ensures Arrivals(events + [e]) == Arrivals(events) + if e.Arrived? then {e.digest} else {}
  {
    assert forall x :: x in events + [e] <==> x in events || x == e;
  }

  lemma EventAdds(t: Tree, e: Event)
    requires Honest(t)
    ensures Honest(After(t, e)) && Digests(After(t, e)) == Digests(t) + if e.Arrived? then {e.digest} else {}
  {
    match e
    case Arrived(dir, name, ext, digest) => ValuesAfterPut(t.files, FreshPath(t, dir, name, ext), digest);
    case Described(rel, slug, autoSave, member, month) =>
      FilingKeepsFiles(t, rel, WithSlug(t, rel, slug), autoSave, member, month);
  }

  /** After any run of arrivals and filings the store holds exactly the digests it held before and those that arrived. */
  lemma {:induction false} NoDigestIsLost(t: Tree, events: seq<Event>)
    requires Honest(t)
    ensures Honest(AfterAll(t, events)) && Digests(AfterAll(t, events)) == Digests(t) + Arrivals(events)
    decreases |events|
  {
    hide After, Honest, Digests;
    if events != [] {
      var n := |events| - 1;
      NoDigestIsLost(t, events[..n]);
      EventAdds(AfterAll(t, events[..n]), events[n]);
      ArrivalsSnoc(events[..n], events[n]);
      assert events == events[..n] + [events[n]];
    }
  }
}
