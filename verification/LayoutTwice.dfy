/** A second migration finds nothing left to do. */
module LayoutTwice {
  import opened Wrappers
  import opened Text
  import opened Layout
  import opened LayoutKeeps

  /** `step` has nothing to do in `v`. */
  ghost predicate Quiet(v: Volume, t: Templates, step: Step) {
    match step
    case MoveBlog(pid, name) => BlogFile(pid, name) !in v.files || Exists(v, BlogTarget(v, pid, name))
    case TidyBlog(pid) => BlogDir(pid) !in v.dirs || HasChild(v, BlogDir(pid))
    case MoveProfile(pid) => OldProfile(pid) !in v.files || !MayReplace(v, ProfilePage(pid), t.profile)
    case MoveSharedProfile =>
      OLD_SHARED_PROFILE !in v.files || !MayReplace(v, SHARED_PROFILE_PAGE, t.sharedProfile)
    case RemoveReadmes => SHARED_README !in v.files && WIKI_README !in v.files
    case MoveDocs => OLD_DOCS !in v.dirs
  }

  lemma QuietDoesNothing(v: Volume, t: Templates, step: Step)
    requires Quiet(v, t, step)
    ensures Apply(v, t, step) == v
  {
    if step.RemoveReadmes? {
      assert v.files - {SHARED_README, WIKI_README} == v.files;
    }
  }

  // --- what one step can change ---------------------------------------------------------

  predicate InPeople(p: Path) {
    |p| >= 1 && p[0] == PEOPLE
  }

  /** A page of `wiki/people`. */
  predicate IsPage(p: Path) {
    |p| == 3 && p[0] == WIKI && p[1] == "people"
  }

  predicate SameAt(v: Volume, w: Volume, p: Path) {
    (p in w.files <==> p in v.files) && (p in w.dirs <==> p in v.dirs) && (p in v.files ==> w.files[p] == v.files[p])
  }

  lemma ParentsOf(dst: Path, p: Path)
    requires p in Parents(dst)
    ensures 0 < |p| < |dst| && p == dst[..|p|] && p[0] == dst[0] && (|p| >= 2 ==> p[1] == dst[1])
  {
    var i :| 0 < i < |dst| && p == dst[..i];
  }

  lemma TransferFrame(v: Volume, src: Path, dst: Path, content: string, p: Path)
    requires src in v.files && Legit(src, dst)
    ensures var w := Transfer(v, src, dst, content);
            && (InPeople(p) ==> (p in w.files ==> p in v.files) && (p in w.dirs <==> p in v.dirs))
            && (Under(p, JOURNAL) && Exists(v, p) ==> Exists(w, p))
            && (p == OLD_DOCS ==> (p in w.dirs <==> p in v.dirs))
            && (Shipped(p) ==> (p in w.files <==> p in v.files))
            && (IsPage(p) && p != dst ==> SameAt(v, w, p))
  {
    Names();
    LegitPaths(src, dst);
    if p in Parents(dst) {
      ParentsOf(dst, p);
    }
    if Under(dst, JOURNAL) {
      JournalPath(dst);
    }
    if Under(p, JOURNAL) {
      JournalPath(p);
    }
    if IsPage(p) {
      PagePath(p[2]);
      assert p == [WIKI, "people", p[2]];
    }
  }

  lemma DocsFrame(v: Volume, t: Templates, p: Path)
    requires InPeople(p) || Under(p, JOURNAL) || IsPage(p) || p == SHARED_README || p == WIKI_README
             || p == OLD_SHARED_PROFILE
    ensures SameAt(v, Apply(v, t, MoveDocs), p)
  {
    Names();
    DocsNames();
    if Under(p, JOURNAL) {
      JournalPath(p);
      assert p[..2] == JOURNAL;
    }
    if IsPage(p) {
      PagePath(p[2]);
      assert p == [WIKI, "people", p[2]];
    }
    assert |p| >= 2 ==> p[..2][0] == p[0] && p[..2][1] == p[1];
  }

  /** Places the migration empties stay empty, and journal pages and profile pages stay put. */
  ghost predicate Frame(v: Volume, w: Volume, keep: Path) {
    && (InPeople(keep) ==> (keep in w.files ==> keep in v.files) && (keep in w.dirs ==> keep in v.dirs))
    && (keep == OLD_SHARED_PROFILE || keep == SHARED_README || keep == WIKI_README ==> (keep in w.files ==> keep in v.files))
    && (Under(keep, JOURNAL) && Exists(v, keep) ==> Exists(w, keep))
    && (keep == OLD_DOCS ==> (keep in w.dirs ==> keep in v.dirs))
  }

  lemma StepFrame(v: Volume, t: Templates, step: Step, p: Path)
    requires Proper(step)
    ensures Frame(v, Apply(v, t, step), p)
  {
    Names();
    match step
    case MoveBlog(pid, name) =>
      BlogTargetInJournal(v, pid, name);
      if BlogFile(pid, name) in v.files {
        TransferFrame(v, BlogFile(pid, name), BlogTarget(v, pid, name), Carried(pid, name, v.files[BlogFile(pid, name)]), p);
        LegitPaths(BlogFile(pid, name), BlogTarget(v, pid, name));
      }
    case TidyBlog(pid) =>
      if Under(p, JOURNAL) {
        JournalPath(p);
      }
    case MoveProfile(pid) =>
      if OldProfile(pid) in v.files {
        TransferFrame(v, OldProfile(pid), ProfilePage(pid), v.files[OldProfile(pid)], p);
        LegitPaths(OldProfile(pid), ProfilePage(pid));
      }
    case MoveSharedProfile =>
      if OLD_SHARED_PROFILE in v.files {
        TransferFrame(v, OLD_SHARED_PROFILE, SHARED_PROFILE_PAGE, v.files[OLD_SHARED_PROFILE], p);
        LegitPaths(OLD_SHARED_PROFILE, SHARED_PROFILE_PAGE);
      }
    case RemoveReadmes =>
      if Under(p, JOURNAL) {
        JournalPath(p);
      }
    case MoveDocs =>
      if p != OLD_DOCS && (InPeople(p) || Under(p, JOURNAL) || p == SHARED_README || p == WIKI_README || p == OLD_SHARED_PROFILE) {
        DocsFrame(v, t, p);
      }
  }

  /** An edited page, once there, stays as it is. */
  lemma PageStays(v: Volume, t: Templates, step: Step, page: Path, template: string)
    requires Proper(step) && IsPage(page)
    requires Exists(v, page) && !MayReplace(v, page, template)
    requires match step
             case MoveProfile(pid) => page == ProfilePage(pid) ==> template == t.profile
             case MoveSharedProfile => page == SHARED_PROFILE_PAGE ==> template == t.sharedProfile
             case _ => true
    ensures !MayReplace(Apply(v, t, step), page, template)
  {
    Names();
    match step
    case MoveBlog(pid, name) =>
      BlogTargetInJournal(v, pid, name);
      if BlogFile(pid, name) in v.files {
        TransferFrame(v, BlogFile(pid, name), BlogTarget(v, pid, name), Carried(pid, name, v.files[BlogFile(pid, name)]), page);
        JournalPath(BlogTarget(v, pid, name));
      }
    case MoveProfile(pid) =>
      if OldProfile(pid) in v.files && page != ProfilePage(pid) {
        TransferFrame(v, OldProfile(pid), ProfilePage(pid), v.files[OldProfile(pid)], page);
      }
    case MoveSharedProfile =>
      if OLD_SHARED_PROFILE in v.files && page != SHARED_PROFILE_PAGE {
        TransferFrame(v, OLD_SHARED_PROFILE, SHARED_PROFILE_PAGE, v.files[OLD_SHARED_PROFILE], page);
      }
    case MoveDocs => DocsFrame(v, t, page);
    case _ =>
  }

  // --- quiet steps stay quiet -------------------------------------------------------------

  lemma BlogStaysQuiet(v: Volume, t: Templates, step: Step, pid: string, name: string)
    requires Proper(step) && Quiet(v, t, MoveBlog(pid, name))
    ensures Quiet(Apply(v, t, step), t, MoveBlog(pid, name))
  {
    var w := Apply(v, t, step);
    StepFrame(v, t, step, BlogFile(pid, name));
    BlogTargetInJournal(v, pid, name);
    StepFrame(v, t, step, BlogTarget(v, pid, name));
    if IsEntry(name) && !IsDigest(name) {
      var first := DayDir(name) + [pid + "-" + Slug(name) + ".md"];
      assert first[..2] == JOURNAL;
      StepFrame(v, t, step, first);
    }
  }

  lemma ProfileStaysQuiet(v: Volume, t: Templates, step: Step, pid: string)
    requires Proper(step) && pid != EVERYONE && Quiet(v, t, MoveProfile(pid))
    ensures Quiet(Apply(v, t, step), t, MoveProfile(pid))
  {
    StepFrame(v, t, step, OldProfile(pid));
    if !MayReplace(v, ProfilePage(pid), t.profile) {
      if ProfilePage(pid) == SHARED_PROFILE_PAGE {
        SameStem(pid, EVERYONE);
      }
      PageStays(v, t, step, ProfilePage(pid), t.profile);
    }
  }

  lemma SharedStaysQuiet(v: Volume, t: Templates, step: Step)
    requires Proper(step) && Quiet(v, t, MoveSharedProfile)
    ensures Quiet(Apply(v, t, step), t, MoveSharedProfile)
  {
    StepFrame(v, t, step, OLD_SHARED_PROFILE);
    if !MayReplace(v, SHARED_PROFILE_PAGE, t.sharedProfile) {
      if step.MoveProfile? && ProfilePage(step.pid) == SHARED_PROFILE_PAGE {
        SameStem(step.pid, EVERYONE);
      }
      PageStays(v, t, step, SHARED_PROFILE_PAGE, t.sharedProfile);
    }
  }

  lemma StaysQuiet(v: Volume, t: Templates, step: Step, done: Step)
    requires Proper(step) && Proper(done) && !done.TidyBlog? && Quiet(v, t, done)
    ensures Quiet(Apply(v, t, step), t, done)
  {
    match done
    case MoveBlog(pid, name) => BlogStaysQuiet(v, t, step, pid, name);
    case MoveProfile(pid) => ProfileStaysQuiet(v, t, step, pid);
    case MoveSharedProfile => SharedStaysQuiet(v, t, step);
    case RemoveReadmes =>
      StepFrame(v, t, step, SHARED_README);
      StepFrame(v, t, step, WIKI_README);
    case MoveDocs => StepFrame(v, t, step, OLD_DOCS);
  }

  lemma QuietOnceDone(v: Volume, t: Templates, step: Step)
    requires Proper(step)
    ensures Quiet(Apply(v, t, step), t, step)
  {
    Names();
    DocsNames();
    match step
    case MoveBlog(pid, name) => BlogTargetInJournal(v, pid, name); JournalPath(BlogTarget(v, pid, name));
    case _ =>
  }

  /** Nothing of this person's old blog is left to move or to tidy. */
  ghost predicate BlogSettled(v: Volume, t: Templates, pid: string) {
    && (forall name :: Quiet(v, t, MoveBlog(pid, name)))
    && Quiet(v, t, TidyBlog(pid))
  }

  lemma BlogStaysSettled(v: Volume, t: Templates, step: Step, pid: string)
    requires Proper(step) && BlogSettled(v, t, pid)
    ensures BlogSettled(Apply(v, t, step), t, pid)
  {
    forall name ensures Quiet(Apply(v, t, step), t, MoveBlog(pid, name)) {
      BlogStaysQuiet(v, t, step, pid, name);
    }
    StepFrame(v, t, step, BlogDir(pid));
    if BlogDir(pid) in v.dirs && !(step.MoveBlog? && step.pid == pid) && !(step.TidyBlog? && step.pid == pid) {
      var p :| Exists(v, p) && Under(p, BlogDir(pid));
      ChildStays(v, t, step, pid, p);
    } else if BlogDir(pid) in v.dirs {
      QuietDoesNothing(v, t, step);
    }
  }

  /** Only a person's own blog steps take anything out of the blog folder. */
  lemma ChildStays(v: Volume, t: Templates, step: Step, pid: string, p: Path)
    requires Proper(step) && Exists(v, p) && Under(p, BlogDir(pid))
    requires !(step.MoveBlog? && step.pid == pid)
    ensures Exists(Apply(v, t, step), p)
  {
    var dir := BlogDir(pid);
    assert p[..3] == dir;
    assert p[0] == p[..3][0] && p[1] == p[..3][1];
    Names();
    if step.MoveDocs? {
      DocsFrame(v, t, p);
    }
  }

  // --- whole runs ---------------------------------------------------------------------------

  /** The migration goes through this person's directory. */
  predicate IsPerson(v: Volume, pid: string) {
    [PEOPLE, pid] in v.dirs && pid != EVERYONE
  }

  /** A step that a run started on `v` may take. */
  predicate InScope(v: Volume, step: Step) {
    match step
    case MoveBlog(pid, name) => IsPerson(v, pid) && BlogDir(pid) in v.dirs && BlogFile(pid, name) in v.files
    case TidyBlog(pid) => IsPerson(v, pid) && BlogDir(pid) in v.dirs
    case MoveProfile(pid) => IsPerson(v, pid)
    case _ => true
  }

  /** Every post of `pid` is dealt with, and then the folder. */
  ghost predicate Drains(v: Volume, steps: seq<Step>, pid: string) {
    exists j :: 0 <= j < |steps| && DrainedAt(v, steps, pid, j)
  }

  ghost predicate DrainedAt(v: Volume, steps: seq<Step>, pid: string, j: nat)
    requires j < |steps|
  {
    steps[j] == TidyBlog(pid) && forall name | BlogFile(pid, name) in v.files :: MoveBlog(pid, name) in steps[..j]
  }

  /** The steps of one whole run on `v`, in any order of people and posts. */
  ghost predicate IsRun(v: Volume, steps: seq<Step>) {
    && (forall s | s in steps :: InScope(v, s))
    && (forall pid | IsPerson(v, pid) :: MoveProfile(pid) in steps)
    && (forall pid | IsPerson(v, pid) && BlogDir(pid) in v.dirs :: Drains(v, steps, pid))
    && MoveSharedProfile in steps && RemoveReadmes in steps && MoveDocs in steps
  }

  lemma {:induction false} PeopleShrinks(a: Volume, t: Templates, steps: seq<Step>, p: Path)
    requires InPeople(p) && forall s | s in steps :: Proper(s)
    ensures var b := ApplyAll(a, t, steps); (p in b.files ==> p in a.files) && (p in b.dirs ==> p in a.dirs)
  {
    if steps != [] {
      var n := |steps| - 1;
      assert steps[n] in steps;
      PeopleShrinks(a, t, steps[..n], p);
      StepFrame(ApplyAll(a, t, steps[..n]), t, steps[n], p);
    }
  }

  lemma {:induction false} DoneOnce(a: Volume, t: Templates, steps: seq<Step>, done: Step)
    requires (forall s | s in steps :: Proper(s)) && !done.TidyBlog? && done in steps
    ensures Quiet(ApplyAll(a, t, steps), t, done)
  {
    var n := |steps| - 1;
    var before := ApplyAll(a, t, steps[..n]);
    assert steps[n] in steps;
    if steps[n] == done {
      QuietOnceDone(before, t, done);
    } else {
      DoneOnce(a, t, steps[..n], done);
      StaysQuiet(before, t, steps[n], done);
    }
  }

  lemma {:induction false} BlogDone(a: Volume, t: Templates, steps: seq<Step>, pid: string, j: nat)
    requires (forall s | s in steps :: Proper(s)) && j < |steps| && DrainedAt(a, steps, pid, j)
    ensures BlogSettled(ApplyAll(a, t, steps), t, pid)
    decreases |steps|
  {
    var n := |steps| - 1;
    var before := ApplyAll(a, t, steps[..n]);
    assert steps[n] in steps;
    if j == n {
      forall name ensures Quiet(Apply(before, t, steps[n]), t, MoveBlog(pid, name)) {
        if BlogFile(pid, name) in a.files {
          DoneOnce(a, t, steps[..n], MoveBlog(pid, name));
        } else {
          PeopleShrinks(a, t, steps[..n], BlogFile(pid, name));
        }
        BlogStaysQuiet(before, t, steps[n], pid, name);
      }
      QuietOnceDone(before, t, TidyBlog(pid));
    } else {
      assert steps[..n][..j] == steps[..j];
      BlogDone(a, t, steps[..n], pid, j);
      BlogStaysSettled(before, t, steps[n], pid);
    }
  }

  /** After a whole run nothing that a second run could look at has anything left to do. */
  lemma RunSettles(a: Volume, t: Templates, steps: seq<Step>, next: Step)
    requires IsRun(a, steps) && InScope(ApplyAll(a, t, steps), next)
    ensures Quiet(ApplyAll(a, t, steps), t, next)
  {
    if next.MoveBlog? || next.TidyBlog? || next.MoveProfile? {
      PeopleShrinks(a, t, steps, [PEOPLE, next.pid]);
      PeopleShrinks(a, t, steps, BlogDir(next.pid));
    }
    if next.MoveBlog? || next.TidyBlog? {
      assert Drains(a, steps, next.pid);
      var j :| 0 <= j < |steps| && DrainedAt(a, steps, next.pid, j);
      BlogDone(a, t, steps, next.pid, j);
    } else {
      DoneOnce(a, t, steps, next);
    }
  }

  predicate OnlySkips(c: Counts) {
    c == NOTHING.(skipped := c.skipped)
  }

  lemma QuietCounts(v: Volume, t: Templates, step: Step, c: Counts)
    requires Quiet(v, t, step) && OnlySkips(c)
    ensures OnlySkips(Count(c, v, t, step))
  {
  }

  /** A second run leaves the tree as it is, and counts nothing but what it skipped. */
  lemma {:induction false} SecondRunIdle(a: Volume, t: Templates, steps: seq<Step>, again: seq<Step>)
    requires IsRun(a, steps)
    requires forall s | s in again :: InScope(ApplyAll(a, t, steps), s)
    ensures ApplyAll(ApplyAll(a, t, steps), t, again) == ApplyAll(a, t, steps)
    ensures OnlySkips(CountAll(ApplyAll(a, t, steps), t, again))
    decreases again
  {
    if again != [] {
      var n := |again| - 1;
      var b := ApplyAll(a, t, steps);
      assert again[n] in again;
      SecondRunIdle(a, t, steps, again[..n]);
      RunSettles(a, t, steps, again[n]);
      QuietDoesNothing(b, t, again[n]);
      QuietCounts(b, t, again[n], CountAll(b, t, again[..n]));
    }
  }
}
