/** The migration loses nothing and overwrites nothing but an unedited template. */
module LayoutKeeps {
  import opened Wrappers
  import opened Text
  import opened FrontMatter
  import opened Layout

  /** Files that belong to the software: the readmes and the documentation folders. */
  predicate Shipped(p: Path) {
    p == SHARED_README || p == WIKI_README || Under(p, OLD_DOCS) || Under(p, DOCS)
  }

  predicate IsBlogFile(p: Path) {
    |p| == 4 && p[0] == PEOPLE && p[2] == "blog"
  }

  predicate IsOldProfile(p: Path) {
    |p| == 3 && p[0] == PEOPLE && p[2] == "profile.md" && p[1] != EVERYONE
  }

  /** `q` is a place the migration may move `p` to. */
  predicate Legit(p: Path, q: Path) {
    || (IsBlogFile(p) && Under(q, JOURNAL))
    || (IsOldProfile(p) && q == ProfilePage(p[1]))
    || (p == OLD_SHARED_PROFILE && q == SHARED_PROFILE_PAGE)
  }

  /** What a moved file holds at its new place. */
  function Arrived(p: Path, content: string): string {
    if IsBlogFile(p) then Carried(p[1], p[3], content) else content
  }

  predicate IsTemplate(t: Templates, q: Path, content: string) {
    || IsUnedited(content, t.profile)
    || (q == SHARED_PROFILE_PAGE && IsUnedited(content, t.sharedProfile))
  }

  /** Every moved file is gone from its source and stands at its target with the text it carries. */
  ghost predicate Delivered(a: Volume, b: Volume, moved: map<Path, Path>) {
    forall p | p in moved ::
      && p in a.files && p !in b.files && Legit(p, moved[p])
      && moved[p] in b.files && b.files[moved[p]] == Arrived(p, a.files[p])
  }

  ghost predicate OneToOne(moved: map<Path, Path>) {
    forall p, q | p in moved && q in moved && moved[p] == moved[q] :: p == q
  }

  /** Only an unedited template was written over. */
  ghost predicate OnlyTemplatesLost(t: Templates, a: Volume, moved: map<Path, Path>) {
    forall p | p in moved && moved[p] in a.files ::
      Under(moved[p], [WIKI, "people"]) && IsTemplate(t, moved[p], a.files[moved[p]])
  }

  /** Nothing else left, changed or appeared, but for what the software ships. */
  ghost predicate RestKept(a: Volume, b: Volume, moved: map<Path, Path>) {
    && (forall p | p in a.files && p !in moved && p !in moved.Values && !Shipped(p) ::
          p in b.files && b.files[p] == a.files[p])
    && (forall p | p in b.files && !Shipped(p) :: p in a.files || p in moved.Values)
  }

  /** `b` is `a` with the files of `moved` carried to their targets. */
  ghost predicate Conserved(t: Templates, a: Volume, b: Volume, moved: map<Path, Path>) {
    Delivered(a, b, moved) && OneToOne(moved) && OnlyTemplatesLost(t, a, moved) && RestKept(a, b, moved)
  }

  lemma Names()
    ensures PEOPLE != WIKI && SHARED != WIKI && PEOPLE != SHARED
    ensures "journal" != "people" && "journal" != "joshua" && "journal" != "joshua-docs"
    ensures "people" != "joshua" && "people" != "joshua-docs" && "blog" != "profile.md"
    ensures "README.md" != "profile.md"
  {
    assert PEOPLE[0] == 'p' && SHARED[0] == 's' && WIKI[0] == 'w';
    assert |"joshua"| == 6 && |"people"| == 6 && |"journal"| == 7 && |"joshua-docs"| == 11 && |"blog"| == 4;
    assert "joshua"[0] == 'j' && "people"[0] == 'p' && |"profile.md"| == 10 && |"README.md"| == 9;
  }

  lemma JournalPath(q: Path)
    requires Under(q, JOURNAL)
    ensures q[0] == WIKI && q[1] == "journal" && |q| >= 3
    ensures !Under(q, [WIKI, "people"]) && !Shipped(q)
  {
    Names();
    assert q[..2][0] == WIKI && q[..2][1] == "journal";
    assert |q| > 2 ==> q[..2] != OLD_DOCS && q[..2] != DOCS && q[..2] != [WIKI, "people"];
  }

  lemma PagePath(page: string)
    ensures Under([WIKI, "people", page], [WIKI, "people"]) && !Shipped([WIKI, "people", page])
    ensures !Under([WIKI, "people", page], JOURNAL)
  {
    Names();
    var q := [WIKI, "people", page];
    assert q[..2] == [WIKI, "people"];
    assert q[..2][1] != OLD_DOCS[1] && q[..2][1] != DOCS[1] && q[..2][1] != JOURNAL[1];
  }

  /** Sources and targets never meet, and a page has one possible source. */
  lemma LegitPaths(p: Path, q: Path)
    requires Legit(p, q)
    ensures p[0] != WIKI && q[0] == WIKI && !Shipped(q) && !Shipped(p)
    ensures Under(q, JOURNAL) <==> IsBlogFile(p)
    ensures !IsBlogFile(p) ==> Under(q, [WIKI, "people"])
  {
    Names();
    if IsBlogFile(p) {
      JournalPath(q);
    } else {
      PagePath(q[2]);
    }
    assert |p| >= 2 ==> p[..2][0] == p[0];
  }

  lemma PageSource(p: Path, pid: string)
    requires Legit(p, ProfilePage(pid)) && pid != EVERYONE
    ensures p == OldProfile(pid)
  {
    LegitPaths(p, ProfilePage(pid));
    PagePath(pid + ".md");
    if p == OLD_SHARED_PROFILE {
      assert pid + ".md" == EVERYONE + ".md";
      SameStem(pid, EVERYONE);
    } else {
      assert p[1] + ".md" == pid + ".md";
      SameStem(p[1], pid);
    }
  }

  lemma SharedPageSource(p: Path)
    requires Legit(p, SHARED_PROFILE_PAGE)
    ensures p == OLD_SHARED_PROFILE
  {
    LegitPaths(p, SHARED_PROFILE_PAGE);
    PagePath(EVERYONE + ".md");
    if p != OLD_SHARED_PROFILE {
      assert p[1] + ".md" == EVERYONE + ".md";
      SameStem(p[1], EVERYONE);
    }
  }

  lemma SameStem(a: string, b: string)
    requires a + ".md" == b + ".md"
    ensures a == b
  {
    var s := a + ".md";
    assert |a| == |b| && s[..|a|] == a && s[..|b|] == b;
  }

  // --- one step -----------------------------------------------------------------------

  /** A file that can still be moved has not moved yet, and nothing was moved onto it. */
  lemma StillThere(t: Templates, a: Volume, b: Volume, moved: map<Path, Path>, src: Path, dst: Path)
    requires Conserved(t, a, b, moved) && src in b.files && Legit(src, dst)
    ensures src in a.files && src !in moved && src !in moved.Values && dst !in moved
    ensures b.files[src] == a.files[src] && src != dst && !Shipped(dst) && !Shipped(src)
  {
    LegitPaths(src, dst);
    forall p | p in moved ensures moved[p] != src && p != dst {
      LegitPaths(p, moved[p]);
    }
  }

  lemma InsertedValues(moved: map<Path, Path>, src: Path, dst: Path)
    requires src !in moved
    ensures moved[src := dst].Values == moved.Values + {dst}
  {
    var next := moved[src := dst];
    assert next[src] == dst && forall p | p in moved :: next[p] == moved[p];
  }

  lemma InsertedSize(moved: map<Path, Path>, src: Path, dst: Path)
    requires src !in moved
    ensures |moved[src := dst]| == |moved| + 1
  {
  }

  lemma TransferDelivers(a: Volume, b: Volume, moved: map<Path, Path>, src: Path, dst: Path)
    requires Delivered(a, b, moved) && OneToOne(moved) && src in b.files && src in a.files && b.files[src] == a.files[src]
    requires Legit(src, dst) && src != dst && src !in moved && src !in moved.Values && dst !in moved && dst !in moved.Values
    ensures Delivered(a, Transfer(b, src, dst, Arrived(src, b.files[src])), moved[src := dst])
    ensures OneToOne(moved[src := dst])
  {
  }

  lemma TransferRest(a: Volume, b: Volume, moved: map<Path, Path>, src: Path, dst: Path, content: string)
    requires RestKept(a, b, moved) && src in b.files && src in a.files && src !in moved && src != dst
    ensures RestKept(a, Transfer(b, src, dst, content), moved[src := dst])
  {
    InsertedValues(moved, src, dst);
  }

  /** Carrying `src` to a free place, or over an unedited template, conserves everything else. */
  lemma TransferKeeps(t: Templates, a: Volume, b: Volume, moved: map<Path, Path>, src: Path, dst: Path)
    requires Conserved(t, a, b, moved) && src in b.files && Legit(src, dst)
    requires dst !in moved.Values
    requires dst in b.files ==> Under(dst, [WIKI, "people"]) && IsTemplate(t, dst, b.files[dst])
    ensures src !in moved
    ensures Conserved(t, a, Transfer(b, src, dst, Arrived(src, b.files[src])), moved[src := dst])
  {
    StillThere(t, a, b, moved, src, dst);
    TransferDelivers(a, b, moved, src, dst);
    TransferRest(a, b, moved, src, dst, Arrived(src, b.files[src]));
    if dst in a.files {
      assert dst in b.files && b.files[dst] == a.files[dst];
    }
  }

  /** How many files the counters say were moved. */
  function Moves(c: Counts): nat {
    c.journalMoved + c.journalLegacy + c.profilesMoved + c.sharedProfileMoved
  }

  /** How many files `step` moves. */
  function MovesOf(v: Volume, t: Templates, step: Step): nat {
    match step
    case MoveBlog(pid, name) => if BlogFile(pid, name) in v.files && !Exists(v, BlogTarget(v, pid, name)) then 1 else 0
    case MoveProfile(pid) => if OldProfile(pid) in v.files && MayReplace(v, ProfilePage(pid), t.profile) then 1 else 0
    case MoveSharedProfile =>
      if OLD_SHARED_PROFILE in v.files && MayReplace(v, SHARED_PROFILE_PAGE, t.sharedProfile) then 1 else 0
    case _ => 0
  }

  lemma CountMoves(v: Volume, t: Templates, step: Step, c: Counts)
    ensures Moves(Count(c, v, t, step)) == Moves(c) + MovesOf(v, t, step)
  {
  }

  lemma BlogStepKeeps(t: Templates, a: Volume, b: Volume, moved: map<Path, Path>, pid: string, name: string)
    returns (next: map<Path, Path>)
    requires Conserved(t, a, b, moved)
    ensures Conserved(t, a, Apply(b, t, MoveBlog(pid, name)), next)
    ensures |next| == |moved| + MovesOf(b, t, MoveBlog(pid, name))
  {
    var src, dst := BlogFile(pid, name), BlogTarget(b, pid, name);
    next := moved;
    if src in b.files && !Exists(b, dst) {
      BlogTargetInJournal(b, pid, name);
      assert IsBlogFile(src);
      assert forall p | p in moved :: moved[p] in b.files;
      TransferKeeps(t, a, b, moved, src, dst);
      InsertedSize(moved, src, dst);
      next := moved[src := dst];
    }
  }

  lemma BlogTargetInJournal(v: Volume, pid: string, name: string)
    ensures Under(BlogTarget(v, pid, name), JOURNAL)
  {
    assert BlogTarget(v, pid, name)[..2] == JOURNAL;
  }

  lemma ProfileStepKeeps(t: Templates, a: Volume, b: Volume, moved: map<Path, Path>, pid: string)
    returns (next: map<Path, Path>)
    requires Conserved(t, a, b, moved) && pid != EVERYONE
    ensures Conserved(t, a, Apply(b, t, MoveProfile(pid)), next)
    ensures |next| == |moved| + MovesOf(b, t, MoveProfile(pid))
  {
    var src, dst := OldProfile(pid), ProfilePage(pid);
    next := moved;
    if src in b.files && MayReplace(b, dst, t.profile) {
      PagePath(pid + ".md");
      assert IsOldProfile(src) && !IsBlogFile(src);
      if dst in moved.Values {
        var p :| p in moved && moved[p] == dst;
        PageSource(p, pid);
        assert false;
      }
      TransferKeeps(t, a, b, moved, src, dst);
      InsertedSize(moved, src, dst);
      next := moved[src := dst];
    }
  }

  lemma SharedStepKeeps(t: Templates, a: Volume, b: Volume, moved: map<Path, Path>)
    returns (next: map<Path, Path>)
    requires Conserved(t, a, b, moved)
    ensures Conserved(t, a, Apply(b, t, MoveSharedProfile), next)
    ensures |next| == |moved| + MovesOf(b, t, MoveSharedProfile)
  {
    var src, dst := OLD_SHARED_PROFILE, SHARED_PROFILE_PAGE;
    next := moved;
    if src in b.files && MayReplace(b, dst, t.sharedProfile) {
      PagePath(EVERYONE + ".md");
      if dst in moved.Values {
        var p :| p in moved && moved[p] == dst;
        SharedPageSource(p);
        assert false;
      }
      TransferKeeps(t, a, b, moved, src, dst);
      InsertedSize(moved, src, dst);
      next := moved[src := dst];
    }
  }

  /** A change of shipped files only conserves the rest. */
  lemma ShippedStepKeeps(t: Templates, a: Volume, b: Volume, c: Volume, moved: map<Path, Path>)
    requires Conserved(t, a, b, moved)
    requires forall p | !Shipped(p) :: (p in b.files <==> p in c.files) && (p in b.files ==> c.files[p] == b.files[p])
    ensures Conserved(t, a, c, moved)
  {
    forall p | p in moved
      ensures p !in c.files && moved[p] in c.files && c.files[moved[p]] == Arrived(p, a.files[p])
    {
      LegitPaths(p, moved[p]);
    }
  }

  lemma DocsStepOnlyShipped(t: Templates, b: Volume, p: Path)
    requires !Shipped(p)
    ensures var c := Apply(b, t, MoveDocs);
            (p in b.files <==> p in c.files) && (p in b.files ==> c.files[p] == b.files[p])
  {
  }

  predicate Proper(step: Step) {
    step.MoveProfile? ==> step.pid != EVERYONE
  }

  lemma StepKeeps(t: Templates, a: Volume, b: Volume, moved: map<Path, Path>, step: Step)
    returns (next: map<Path, Path>)
    requires Conserved(t, a, b, moved) && Proper(step)
    ensures Conserved(t, a, Apply(b, t, step), next)
    ensures |next| == |moved| + MovesOf(b, t, step)
  {
    next := moved;
    match step
    case MoveBlog(pid, name) => next := BlogStepKeeps(t, a, b, moved, pid, name);
    case TidyBlog(pid) => ShippedStepKeeps(t, a, b, Apply(b, t, step), moved);
    case MoveProfile(pid) => next := ProfileStepKeeps(t, a, b, moved, pid);
    case MoveSharedProfile => next := SharedStepKeeps(t, a, b, moved);
    case RemoveReadmes => ShippedStepKeeps(t, a, b, Apply(b, t, step), moved);
    case MoveDocs =>
      forall p | !Shipped(p)
        ensures var c := Apply(b, t, MoveDocs);
                (p in b.files <==> p in c.files) && (p in b.files ==> c.files[p] == b.files[p])
      {
        DocsStepOnlyShipped(t, b, p);
      }
      ShippedStepKeeps(t, a, b, Apply(b, t, step), moved);
  }

  // --- whole runs -------------------------------------------------------------------------

  function ApplyAll(v: Volume, t: Templates, steps: seq<Step>): Volume {
    if steps == [] then v else Apply(ApplyAll(v, t, steps[..|steps| - 1]), t, steps[|steps| - 1])
  }

  function CountAll(v: Volume, t: Templates, steps: seq<Step>): Counts {
    if steps == [] then NOTHING
    else
      var n := |steps| - 1;
      Count(CountAll(v, t, steps[..n]), ApplyAll(v, t, steps[..n]), t, steps[n])
  }

  /**
   Whatever steps run and in whatever order, every blog file and profile is afterwards untouched at
   its source or at exactly one target, and nothing is overwritten but an unedited template. The
   counters say how many files moved.
   */
  lemma {:induction false} MigrationConserves(t: Templates, a: Volume, steps: seq<Step>) returns (moved: map<Path, Path>)
    requires forall s | s in steps :: Proper(s)
    ensures Conserved(t, a, ApplyAll(a, t, steps), moved)
    ensures |moved| == Moves(CountAll(a, t, steps))
    decreases steps
  {
    if steps == [] {
      moved := map[];
    } else {
      var n := |steps| - 1;
      var before := MigrationConserves(t, a, steps[..n]);
      assert steps[n] in steps;
      moved := StepKeeps(t, a, ApplyAll(a, t, steps[..n]), before, steps[n]);
      CountMoves(ApplyAll(a, t, steps[..n]), t, steps[n], CountAll(a, t, steps[..n]));
    }
  }

  /** Files without carriage returns pass through `read_text` as they are. */
  lemma {:induction false} UniversalPlain(s: string)
    ensures Universal(s) == s <==> '\r' !in s
  {
    if s != "" && s[0] != '\r' {
      UniversalPlain(s[1..]);
      assert s == [s[0]] + s[1..];
    } else if s != "" {
      assert Universal(s)[0] == '\n';
    }
  }

  /** `read_text` leaves no carriage return. */
  lemma {:induction false} UniversalHasNoReturn(text: string)
    ensures '\r' !in Universal(text)
    decreases |text|
  {
    if text != "" {
      if text[0] == '\r' && |text| > 1 && text[1] == '\n' {
        UniversalHasNoReturn(text[2..]);
      } else {
        UniversalHasNoReturn(text[1..]);
      }
    }
  }
}
