/**
 Moving an older data volume onto the one wiki. A volume is a finite map of file paths to contents
 and a set of directories; a path is the list of its parts below the data root.
 */
module Layout {
  import opened Wrappers
  import opened Text
  import opened FrontMatter

  type Path = seq<string>

  datatype Volume = Volume(files: map<Path, string>, dirs: set<Path>)

  datatype Counts = Counts(journalMoved: nat, journalLegacy: nat, profilesMoved: nat, sharedProfileMoved: nat,
                           skipped: nat, readmesRemoved: nat, docsRenamed: nat, docsRemoved: nat)

  const NOTHING := Counts(0, 0, 0, 0, 0, 0, 0, 0)

  /** The shipped templates, which the migration may replace while nobody has edited them. */
  datatype Templates = Templates(profile: string, sharedProfile: string)

  predicate Exists(v: Volume, p: Path) {
    p in v.files || p in v.dirs
  }

  predicate Under(p: Path, dir: Path) {
    |dir| < |p| && p[..|dir|] == dir
  }

  /** Every directory above `p`. */
  function Parents(p: Path): set<Path> {
    set i | 0 < i < |p| :: p[..i]
  }

  // --- paths ----------------------------------------------------------------------

  const PEOPLE := "people"
  const SHARED := "shared"
  const WIKI := "wiki"
  const EVERYONE := "everyone"

  function BlogDir(pid: string): Path { [PEOPLE, pid, "blog"] }
  function BlogFile(pid: string, name: string): Path { [PEOPLE, pid, "blog", name] }
  function OldProfile(pid: string): Path { [PEOPLE, pid, "profile.md"] }
  function ProfilePage(pid: string): Path { [WIKI, "people", pid + ".md"] }

  const OLD_SHARED_PROFILE: Path := [SHARED, "profile.md"]
  const SHARED_PROFILE_PAGE: Path := [WIKI, "people", EVERYONE + ".md"]
  const SHARED_README: Path := [SHARED, "README.md"]
  const WIKI_README: Path := [WIKI, "README.md"]
  const OLD_DOCS: Path := [WIKI, "joshua"]
  const DOCS: Path := [WIKI, "joshua-docs"]
  const JOURNAL: Path := [WIKI, "journal"]

  // --- blog names -------------------------------------------------------------------

  predicate Digits(s: string) {
    AllDigits(s, 10)
  }

  /** The name starts with `YYYY-MM-DD`. */
  predicate Dated(name: string) {
    && |name| >= 10
    && Digits(name[..4]) && name[4] == '-' && Digits(name[5..7]) && name[7] == '-' && Digits(name[8..10])
  }

  predicate EndsWithMd(name: string) {
    |name| >= 3 && name[|name| - 3..] == ".md"
  }

  /** `YYYY-MM-DD.md` */
  predicate IsDigest(name: string) {
    |name| == 13 && Dated(name) && EndsWithMd(name)
  }

  /** `YYYY-MM-DD-HHMM-<slug>.md` */
  predicate IsEntry(name: string) {
    && |name| > 19 && Dated(name) && name[10] == '-' && Digits(name[11..15]) && name[15] == '-'
    && EndsWithMd(name) && '\n' !in name[16..|name| - 3]
  }

  function DayDir(name: string): Path
    requires Dated(name)
  {
    JOURNAL + [name[..4], name[5..7], name[8..10]]
  }

  function Slug(name: string): string
    requires IsEntry(name)
  {
    name[16..|name| - 3]
  }

  /** Where one blog file goes, given what exists already. */
  function BlogTarget(v: Volume, pid: string, name: string): Path {
    if IsDigest(name) then DayDir(name) + [pid + ".md"]
    else if IsEntry(name) then
      var first := DayDir(name) + [pid + "-" + Slug(name) + ".md"];
      if Exists(v, first) then DayDir(name) + [pid + "-" + Slug(name) + "-" + name[11..15] + ".md"] else first
    else JOURNAL + ["legacy", pid, name]
  }

  /** `read_text` turns every line ending into one `\n`. */
  function Universal(s: string): string {
    if s == "" then ""
    else if s[0] == '\r' then
      if |s| > 1 && s[1] == '\n' then ['\n'] + Universal(s[2..]) else ['\n'] + Universal(s[1..])
    else [s[0]] + Universal(s[1..])
  }

  /** What the moved file holds. */
  function Carried(pid: string, name: string, content: string): string {
    if IsDigest(name) || IsEntry(name) then AddKeys(Universal(content), pid, name[..10]) else content
  }

  /** The text after the first line, or None for a text of one line. */
  function AfterFirstLine(s: string): Option<string> {
    var i := Find(s, '\n');
    if i == |s| then None else Some(s[i + 1..])
  }

  predicate IsUnedited(content: string, template: string) {
    AfterFirstLine(Universal(content)) == AfterFirstLine(template)
  }

  // --- steps --------------------------------------------------------------------------

  function Transfer(v: Volume, src: Path, dst: Path, content: string): Volume {
    Volume((v.files - {src})[dst := content], v.dirs + Parents(dst))
  }

  datatype Step =
    | MoveBlog(pid: string, name: string)
    | TidyBlog(pid: string)
    | MoveProfile(pid: string)
    | MoveSharedProfile
    | RemoveReadmes
    | MoveDocs

  predicate HasChild(v: Volume, dir: Path) {
    (exists p :: p in v.files && Under(p, dir)) || (exists p :: p in v.dirs && Under(p, dir))
  }

  /** The target of a profile is free, or holds the template as it was shipped. */
  predicate MayReplace(v: Volume, dst: Path, template: string) {
    !Exists(v, dst) || (dst in v.files && IsUnedited(v.files[dst], template))
  }

  function Renamed(p: Path): Path
    requires Under(p, OLD_DOCS)
  {
    DOCS + p[2..]
  }

  function Apply(v: Volume, t: Templates, step: Step): Volume {
    match step
    case MoveBlog(pid, name) =>
      var src := BlogFile(pid, name);
      if src !in v.files || Exists(v, BlogTarget(v, pid, name)) then v
      else Transfer(v, src, BlogTarget(v, pid, name), Carried(pid, name, v.files[src]))
    case TidyBlog(pid) =>
      if BlogDir(pid) in v.dirs && !HasChild(v, BlogDir(pid)) then v.(dirs := v.dirs - {BlogDir(pid)}) else v
    case MoveProfile(pid) =>
      if OldProfile(pid) !in v.files || !MayReplace(v, ProfilePage(pid), t.profile) then v
      else Transfer(v, OldProfile(pid), ProfilePage(pid), v.files[OldProfile(pid)])
    case MoveSharedProfile =>
      if OLD_SHARED_PROFILE !in v.files || !MayReplace(v, SHARED_PROFILE_PAGE, t.sharedProfile) then v
      else Transfer(v, OLD_SHARED_PROFILE, SHARED_PROFILE_PAGE, v.files[OLD_SHARED_PROFILE])
    case RemoveReadmes => v.(files := v.files - {SHARED_README, WIKI_README})
    case MoveDocs =>
      if OLD_DOCS !in v.dirs then v
      else if Exists(v, DOCS) then
        Volume(map p | p in v.files && !Under(p, OLD_DOCS) :: v.files[p],
               set p | p in v.dirs && !Under(p, OLD_DOCS) && p != OLD_DOCS)
      else Rename(v)
  }

  /** The counters after `step` ran in `v`. */
  function Count(c: Counts, v: Volume, t: Templates, step: Step): Counts {
    match step
    case MoveBlog(pid, name) =>
      if BlogFile(pid, name) !in v.files then c
      else if Exists(v, BlogTarget(v, pid, name)) then c.(skipped := c.skipped + 1)
      else if IsDigest(name) || IsEntry(name) then c.(journalMoved := c.journalMoved + 1)
      else c.(journalLegacy := c.journalLegacy + 1)
    case TidyBlog(pid) => c
    case MoveProfile(pid) =>
      if OldProfile(pid) !in v.files then c
      else if !MayReplace(v, ProfilePage(pid), t.profile) then c.(skipped := c.skipped + 1)
      else c.(profilesMoved := c.profilesMoved + 1)
    case MoveSharedProfile =>
      if OLD_SHARED_PROFILE !in v.files then c
      else if !MayReplace(v, SHARED_PROFILE_PAGE, t.sharedProfile) then c.(skipped := c.skipped + 1)
      else c.(sharedProfileMoved := c.sharedProfileMoved + 1)
    case RemoveReadmes =>
      c.(readmesRemoved := c.readmesRemoved + (if SHARED_README in v.files then 1 else 0)
                                            + (if WIKI_README in v.files then 1 else 0))
    case MoveDocs =>
      if OLD_DOCS !in v.dirs then c
      else if Exists(v, DOCS) then c.(docsRemoved := c.docsRemoved + 1)
      else c.(docsRenamed := c.docsRenamed + 1)
  }

  /** Where a path was before the rename. */
  function Before(p: Path): Path
    requires Under(p, DOCS)
  {
    OLD_DOCS + p[2..]
  }

  /** `wiki/joshua` becomes `wiki/joshua-docs`, with everything in it. */
  function Rename(v: Volume): Volume {
    Volume(map p | p in AfterRename(v.files.Keys) ::
             if Under(p, DOCS) && Before(p) in v.files then v.files[Before(p)] else v.files[p],
           AfterRename(v.dirs) - {OLD_DOCS} + {DOCS})
  }

  /** The paths of a tree once `wiki/joshua` is called `wiki/joshua-docs`. */
  function AfterRename(paths: set<Path>): (r: set<Path>)
    ensures forall p | p in r :: p in paths || (Under(p, DOCS) && Before(p) in paths)
    ensures forall p | p in paths && !Under(p, OLD_DOCS) :: p in r
    ensures forall p | p in paths && Under(p, OLD_DOCS) :: Renamed(p) in r
    ensures forall p | p in r :: !Under(p, OLD_DOCS)
  {
    DocsNames();
    forall p | p in paths && Under(p, OLD_DOCS)
      ensures Under(Renamed(p), DOCS) && Before(Renamed(p)) == p && !Under(Renamed(p), OLD_DOCS)
    {
      assert Renamed(p)[..2] == DOCS && Renamed(p)[2..] == p[2..];
      assert p == OLD_DOCS + p[2..];
    }
    set p | p in paths :: if Under(p, OLD_DOCS) then Renamed(p) else p
  }

  lemma DocsNames()
    ensures OLD_DOCS != DOCS && |OLD_DOCS| == |DOCS| == 2
  {
    assert |OLD_DOCS[1]| == 6 && |DOCS[1]| == 11;
  }
}
