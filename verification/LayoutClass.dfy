/** The migration itself: it moves files in place, one post, profile or folder after the other. */
module LayoutClass {
  import opened Wrappers
  import opened FrontMatter
  import opened Layout
  import opened LayoutKeeps
  import opened LayoutTwice

  /** Every directory above an existing path is there. */
  ghost predicate IsTree(v: Volume) {
    forall p | Exists(v, p) :: Parents(p) <= v.dirs
  }

  /** Nothing below `people/` but `people/<pid>` differs. */
  ghost predicate OthersSame(v: Volume, w: Volume, pid: string) {
    forall p | InPeople(p) && |p| >= 2 && p[1] != pid :: SameAt(v, w, p)
  }

  /** A file that leaves `people/` for the wiki is all that changes below `people/`. */
  lemma PeopleKept(v: Volume, src: Path, dst: Path, content: string, p: Path)
    requires |dst| > 0 && dst[0] == WIKI && InPeople(p) && p != src
    ensures SameAt(v, Transfer(v, src, dst, content), p)
  {
    Names();
  }

  /** Moving one post leaves everything else below `people/` alone. */
  lemma PostMoved(v: Volume, t: Templates, pid: string, name: string, p: Path)
    requires InPeople(p) && p != BlogFile(pid, name)
    ensures SameAt(v, Apply(v, t, MoveBlog(pid, name)), p)
  {
    var src, dst := BlogFile(pid, name), BlogTarget(v, pid, name);
    if src in v.files {
      BlogTargetInJournal(v, pid, name);
      JournalPath(dst);
      PeopleKept(v, src, dst, Carried(pid, name, v.files[src]), p);
    }
  }

  lemma PostsMoved(v: Volume, t: Templates, pid: string, name: string)
    ensures OthersSame(v, Apply(v, t, MoveBlog(pid, name)), pid)
    ensures forall other | other != name ::
              SameAt(v, Apply(v, t, MoveBlog(pid, name)), BlogFile(pid, other))
  {
    var w := Apply(v, t, MoveBlog(pid, name));
    forall p | InPeople(p) && |p| >= 2 && p[1] != pid ensures SameAt(v, w, p) {
      PostMoved(v, t, pid, name, p);
    }
    forall other | other != name ensures SameAt(v, w, BlogFile(pid, other)) {
      assert BlogFile(pid, other)[3] == other && BlogFile(pid, name)[3] == name;
      PostMoved(v, t, pid, name, BlogFile(pid, other));
    }
  }

  lemma ProfileMoved(v: Volume, t: Templates, pid: string)
    ensures OthersSame(v, Apply(v, t, MoveProfile(pid)), pid)
  {
    if OldProfile(pid) in v.files {
      forall p | InPeople(p) && |p| >= 2 && p[1] != pid ensures SameAt(v, Apply(v, t, MoveProfile(pid)), p) {
        PeopleKept(v, OldProfile(pid), ProfilePage(pid), v.files[OldProfile(pid)], p);
      }
    }
  }

  /** The names of the files in the old blog. */
  function BlogNames(v: Volume, pid: string): (names: set<string>)
    ensures forall name :: name in names <==> BlogFile(pid, name) in v.files
  {
    assert forall p | p in v.files && |p| == 4 && p[..3] == BlogDir(pid) :: p == BlogFile(pid, p[3]);
    assert forall name :: BlogFile(pid, name)[..3] == BlogDir(pid) && BlogFile(pid, name)[3] == name;
    set p | p in v.files && |p| == 4 && p[..3] == BlogDir(pid) :: p[3]
  }

  /** The steps so far are moves of listed posts, and cover all but `todo`. */
  ghost predicate PostsLogged(before: seq<Step>, log: seq<Step>, pid: string, names: set<string>, todo: set<string>) {
    && before <= log
    && (forall s | s in log[|before|..] :: s.MoveBlog? && s.pid == pid && s.name in names)
    && (forall name | name in names - todo :: MoveBlog(pid, name) in log)
  }

  /** Part way through a blog: `todo` is what is left of the listing taken at the start. */
  ghost predicate Underway(v: Volume, now: Volume, before: seq<Step>, log: seq<Step>, pid: string, todo: set<string>) {
    && (forall name | name in todo :: BlogFile(pid, name) in now.files)
    && PostsLogged(before, log, pid, BlogNames(v, pid), todo)
    && OthersSame(v, now, pid)
  }

  lemma OneMoreLogged(before: seq<Step>, log: seq<Step>, pid: string, names: set<string>, todo: set<string>, name: string)
    requires PostsLogged(before, log, pid, names, todo) && name in todo && todo <= names
    ensures PostsLogged(before, log + [MoveBlog(pid, name)], pid, names, todo - {name})
  {
    var longer := log + [MoveBlog(pid, name)];
    assert longer[|before|..] == log[|before|..] + [MoveBlog(pid, name)];
  }

  lemma OneMorePost(v: Volume, now: Volume, before: seq<Step>, log: seq<Step>, pid: string, todo: set<string>,
                    name: string, t: Templates)
    requires Underway(v, now, before, log, pid, todo) && name in todo && todo <= BlogNames(v, pid)
    ensures Underway(v, Apply(now, t, MoveBlog(pid, name)), before, log + [MoveBlog(pid, name)], pid, todo - {name})
  {
    var next := Apply(now, t, MoveBlog(pid, name));
    PostsMoved(now, t, pid, name);
    OneMoreLogged(before, log, pid, BlogNames(v, pid), todo, name);
    forall p | InPeople(p) && |p| >= 2 && p[1] != pid ensures SameAt(v, next, p) {
      assert SameAt(v, now, p) && SameAt(now, next, p);
    }
    forall other | other in todo - {name} ensures BlogFile(pid, other) in next.files {
      assert SameAt(now, next, BlogFile(pid, other));
    }
  }

  /** The people the run goes through. */
  function People(v: Volume): (pids: set<string>)
    ensures forall pid :: pid in pids <==> IsPerson(v, pid)
  {
    assert forall p | p in v.dirs && |p| == 2 && p[0] == PEOPLE :: p == [PEOPLE, p[1]];
    assert forall pid: string :: [PEOPLE, pid][1] == pid;
    set p | p in v.dirs && |p| == 2 && p[0] == PEOPLE && p[1] != EVERYONE :: p[1]
  }

  /** `after` extends `log` by steps on the blog of `pid`, which empty it as far as can be. */
  ghost predicate BlogSteps(v: Volume, log: seq<Step>, after: seq<Step>, pid: string) {
    && log <= after
    && (forall s | s in after[|log|..] :: (s.MoveBlog? || s.TidyBlog?) && s.pid == pid && InScope(v, s))
    && (BlogDir(pid) in v.dirs ==> |after| > |log| && DrainedAt(v, after, pid, |after| - 1))
  }

  /** What the blog steps did counts for the run as a whole when the person's files were untouched. */
  lemma BlogPart(start: Volume, v: Volume, log: seq<Step>, after: seq<Step>, pid: string)
    requires forall p | InPeople(p) && |p| >= 2 && p[1] == pid :: SameAt(start, v, p)
    requires BlogSteps(v, log, after, pid) && forall s | s in log :: InScope(start, s)
    ensures forall s | s in after :: InScope(start, s)
    ensures BlogDir(pid) in start.dirs ==> Drains(start, after, pid)
  {
    assert SameAt(start, v, [PEOPLE, pid]) && SameAt(start, v, BlogDir(pid));
    assert forall name :: SameAt(start, v, BlogFile(pid, name));
    forall s | s in after ensures InScope(start, s) {
      assert after == log + after[|log|..];
      if s !in log {
        assert s in after[|log|..];
      }
    }
    if BlogDir(pid) in start.dirs {
      assert DrainedAt(start, after, pid, |after| - 1);
    }
  }

  lemma Tidied(v: Volume, now: Volume, end: Volume, before: seq<Step>, log: seq<Step>, pid: string)
    requires Underway(v, now, before, log, pid, {}) && BlogDir(pid) in v.dirs && IsPerson(v, pid)
    requires end.files == now.files && (end.dirs == now.dirs || end.dirs == now.dirs - {BlogDir(pid)})
    ensures BlogSteps(v, before, log + [TidyBlog(pid)], pid) && OthersSame(v, end, pid)
  {
    var after := log + [TidyBlog(pid)];
    assert after[|before|..] == log[|before|..] + [TidyBlog(pid)];
    assert after[..|after| - 1] == log;
    forall p | InPeople(p) && |p| >= 2 && p[1] != pid ensures SameAt(v, end, p) {
      assert SameAt(v, now, p);
    }
  }

  lemma DrainsLonger(v: Volume, steps: seq<Step>, more: seq<Step>, pid: string)
    requires Drains(v, steps, pid) && steps <= more
    ensures Drains(v, more, pid)
  {
    var j :| 0 <= j < |steps| && DrainedAt(v, steps, pid, j);
    assert more[..j] == steps[..j];
    assert DrainedAt(v, more, pid, j);
  }

  /** Part way through the people: `todo` is who is left. */
  ghost predicate Through(start: Volume, now: Volume, log: seq<Step>, todo: set<string>) {
    && (forall s | s in log :: InScope(start, s))
    && (forall pid | IsPerson(start, pid) && pid !in todo :: PersonDone(start, log, pid))
    && (forall pid | pid in todo :: IsPerson(start, pid))
    && (forall p | InPeople(p) && |p| >= 2 && p[1] in todo :: SameAt(start, now, p))
  }

  ghost predicate PersonDone(start: Volume, log: seq<Step>, pid: string) {
    MoveProfile(pid) in log && (BlogDir(pid) in start.dirs ==> Drains(start, log, pid))
  }

  lemma DoneLonger(start: Volume, log: seq<Step>, more: seq<Step>, pid: string)
    requires PersonDone(start, log, pid) && log <= more
    ensures PersonDone(start, more, pid)
  {
    if BlogDir(pid) in start.dirs {
      DrainsLonger(start, log, more, pid);
    }
  }

  lemma OneMorePerson(start: Volume, v0: Volume, v1: Volume, log0: seq<Step>, log1: seq<Step>, todo: set<string>,
                      pid: string, t: Templates)
    requires Through(start, v0, log0, todo) && pid in todo
    requires BlogSteps(v0, log0, log1, pid) && OthersSame(v0, v1, pid)
    ensures Through(start, Apply(v1, t, MoveProfile(pid)), log1 + [MoveProfile(pid)], todo - {pid})
  {
    var v2, log2 := Apply(v1, t, MoveProfile(pid)), log1 + [MoveProfile(pid)];
    BlogPart(start, v0, log0, log1, pid);
    ProfileMoved(v1, t, pid);
    if BlogDir(pid) in start.dirs {
      DrainsLonger(start, log1, log2, pid);
    }
    forall other | IsPerson(start, other) && other !in todo - {pid} ensures PersonDone(start, log2, other) {
      if other != pid {
        DoneLonger(start, log0, log2, other);
      }
    }
    forall p | InPeople(p) && |p| >= 2 && p[1] in todo - {pid} ensures SameAt(start, v2, p) {
      assert SameAt(start, v0, p) && SameAt(v0, v1, p) && SameAt(v1, v2, p);
    }
  }

  lemma WholeRun(start: Volume, log: seq<Step>, after: seq<Step>)
    requires forall s | s in log :: InScope(start, s)
    requires forall pid | IsPerson(start, pid) :: PersonDone(start, log, pid)
    requires after == log + [MoveSharedProfile] + [RemoveReadmes] + [MoveDocs]
    ensures IsRun(start, after)
  {
    forall pid | IsPerson(start, pid) ensures PersonDone(start, after, pid) {
      DoneLonger(start, log, after, pid);
    }
  }

  class Migration {
    var files: map<Path, string>
    var dirs: set<Path>
    var counts: Counts
    const templates: Templates
    /** The tree the run started on, and the steps it has taken. */
    ghost var start: Volume
    ghost var log: seq<Step>

    ghost predicate Valid()
      reads this
    {
      View() == ApplyAll(start, templates, log) && counts == CountAll(start, templates, log)
    }

    function View(): Volume
      reads this
    {
      Volume(files, dirs)
    }

    constructor (v: Volume, t: Templates)
      ensures Valid() && View() == v && templates == t && log == []
    {
      files, dirs, templates, counts := v.files, v.dirs, t, NOTHING;
      start, log := v, [];
    }

    /** What a logged step does to the tree and the counters. */
    ghost predicate Took(v: Volume, c: Counts, before: seq<Step>, step: Step)
      reads this
    {
      && log == before + [step]
      && View() == Apply(v, templates, step)
      && counts == Count(c, v, templates, step)
    }

    twostate lemma StillValid(step: Step)
      requires old(Valid()) && start == old(start)
      requires Took(old(View()), old(counts), old(log), step)
      ensures Valid()
    {
      assert log[..|log| - 1] == old(log);
    }

    /** Where one post goes. */
    method PostTarget(pid: string, name: string) returns (target: Path)
      ensures target == BlogTarget(View(), pid, name)
    {
      if IsDigest(name) {
        target := DayDir(name) + [pid + ".md"];
      } else if IsEntry(name) {
        target := DayDir(name) + [pid + "-" + Slug(name) + ".md"];
        if Exists(View(), target) {
          target := DayDir(name) + [pid + "-" + Slug(name) + "-" + name[11..15] + ".md"];
        }
      } else {
        target := JOURNAL + ["legacy", pid, name];
      }
    }

    /** One post of the old blog. */
    method MovePost(pid: string, name: string)
      requires Valid() && BlogFile(pid, name) in files
      modifies this`files, this`dirs, this`counts, this`log
      ensures Valid() && Took(old(View()), old(counts), old(log), MoveBlog(pid, name))
    {
      var src := BlogFile(pid, name);
      var target := PostTarget(pid, name);
      if Exists(View(), target) {
        counts := counts.(skipped := counts.skipped + 1);
      } else {
        BlogTargetInJournal(View(), pid, name);
        CarryPost(pid, name, target);
        if !IsDigest(name) && !IsEntry(name) {
          counts := counts.(journalLegacy := counts.journalLegacy + 1);
        } else {
          counts := counts.(journalMoved := counts.journalMoved + 1);
        }
      }
      log := log + [MoveBlog(pid, name)];
      StillValid(MoveBlog(pid, name));
    }

    /** A dated post is written anew with its front matter; any other file is renamed. */
    method CarryPost(pid: string, name: string, target: Path)
      requires BlogFile(pid, name) in files && Under(target, JOURNAL)
      modifies this`files, this`dirs
      ensures View() == Transfer(old(View()), BlogFile(pid, name), target, Carried(pid, name, old(files)[BlogFile(pid, name)]))
    {
      var src := BlogFile(pid, name);
      LegitPaths(src, target);
      dirs := dirs + Parents(target);
      if !IsDigest(name) && !IsEntry(name) {
        files := (files - {src})[target := files[src]];
      } else {
        var text := AddFrontMatterKeys(Universal(files[src]), pid, name[..10]);
        files := files[target := text];
        files := files - {src};
        assert files == (old(files) - {src})[target := text];
      }
    }

    /** The posts of one person, in any order. */
    method MovePosts(pid: string)
      requires Valid()
      modifies this`files, this`dirs, this`counts, this`log
      ensures Valid() && Underway(old(View()), View(), old(log), log, pid, {})
    {
      ghost var names := BlogNames(View(), pid);
      var todo := BlogNames(View(), pid);
      while todo != {}
        invariant todo <= names && Valid() && start == old(start)
        invariant Underway(old(View()), View(), old(log), log, pid, todo)
        decreases todo
      {
        var name :| name in todo;
        OneMorePost(old(View()), View(), old(log), log, pid, todo, name, templates);
        MovePost(pid, name);
        todo := todo - {name};
      }
    }

    /** The posts, and then the folder when nothing is left in it. */
    method MigratePersonBlog(pid: string)
      requires Valid() && IsPerson(View(), pid)
      modifies this`files, this`dirs, this`counts, this`log
      ensures Valid() && OthersSame(old(View()), View(), pid)
      ensures BlogSteps(old(View()), old(log), log, pid)
    {
      if BlogDir(pid) !in dirs {
        return;
      }
      MovePosts(pid);
      label Moved:
      if !HasChild(View(), BlogDir(pid)) {
        dirs := dirs - {BlogDir(pid)};
      }
      log := log + [TidyBlog(pid)];
      StillValid@Moved(TidyBlog(pid));
      Tidied(old(View()), old@Moved(View()), View(), old(log), old@Moved(log), pid);
    }

    method MigratePersonProfile(pid: string)
      requires Valid() && pid != EVERYONE
      modifies this`files, this`dirs, this`counts, this`log
      ensures Valid() && Took(old(View()), old(counts), old(log), MoveProfile(pid))
    {
      var legacy, target := OldProfile(pid), ProfilePage(pid);
      log := log + [MoveProfile(pid)];
      if legacy in files {
        if Exists(View(), target) && !MayReplace(View(), target, templates.profile) {
          counts := counts.(skipped := counts.skipped + 1);
        } else {
          dirs := dirs + Parents(target);
          files := (files - {legacy})[target := files[legacy]];
          counts := counts.(profilesMoved := counts.profilesMoved + 1);
        }
      }
      StillValid(MoveProfile(pid));
    }

    method MigrateSharedProfile()
      requires Valid()
      modifies this`files, this`dirs, this`counts, this`log
      ensures Valid() && Took(old(View()), old(counts), old(log), MoveSharedProfile)
    {
      var legacy, target := OLD_SHARED_PROFILE, SHARED_PROFILE_PAGE;
      log := log + [MoveSharedProfile];
      if legacy in files {
        if Exists(View(), target) && !MayReplace(View(), target, templates.sharedProfile) {
          counts := counts.(skipped := counts.skipped + 1);
        } else {
          dirs := dirs + Parents(target);
          files := (files - {legacy})[target := files[legacy]];
          counts := counts.(sharedProfileMoved := counts.sharedProfileMoved + 1);
        }
      }
      StillValid(MoveSharedProfile);
    }

    method RemoveStaleReadmes()
      requires Valid()
      modifies this`files, this`dirs, this`counts, this`log
      ensures Valid() && Took(old(View()), old(counts), old(log), RemoveReadmes)
    {
      Names();
      log := log + [RemoveReadmes];
      if SHARED_README in files {
        files := files - {SHARED_README};
        counts := counts.(readmesRemoved := counts.readmesRemoved + 1);
      }
      if WIKI_README in files {
        files := files - {WIKI_README};
        counts := counts.(readmesRemoved := counts.readmesRemoved + 1);
      }
      assert files == old(files) - {SHARED_README, WIKI_README};
      StillValid(RemoveReadmes);
    }

    method MigrateDocsFolder()
      requires Valid()
      modifies this`files, this`dirs, this`counts, this`log
      ensures Valid() && Took(old(View()), old(counts), old(log), MoveDocs)
    {
      log := log + [MoveDocs];
      if OLD_DOCS in dirs {
        if Exists(View(), DOCS) {
          files := map p | p in files && !Under(p, OLD_DOCS) :: files[p];
          dirs := set p | p in dirs && !Under(p, OLD_DOCS) && p != OLD_DOCS;
          counts := counts.(docsRemoved := counts.docsRemoved + 1);
        } else {
          var renamed := Rename(View());
          files, dirs := renamed.files, renamed.dirs;
          counts := counts.(docsRenamed := counts.docsRenamed + 1);
        }
      }
      StillValid(MoveDocs);
    }

    /** A whole run: every person's blog and profile, then the shared parts. */
    method MigrateToOneWiki()
      requires IsTree(View())
      modifies this
      ensures Valid() && start == old(View()) && IsRun(start, log)
    {
      start, log := View(), [];
      counts := NOTHING;
      if [PEOPLE] in dirs {
        ghost var people := People(View());
        var todo := People(View());
        while todo != {}
          invariant Valid() && start == old(View()) && todo <= people
          invariant Through(start, View(), log, todo)
          decreases todo
        {
          var pid :| pid in todo;
          ghost var before, log0 := View(), log;
          assert SameAt(start, before, [PEOPLE, pid]);
          MigratePersonBlog(pid);
          ghost var between, log1 := View(), log;
          MigratePersonProfile(pid);
          OneMorePerson(start, before, between, log0, log1, todo, pid, templates);
          todo := todo - {pid};
        }
      } else {
        forall pid ensures !IsPerson(start, pid) {
          var p := [PEOPLE, pid];
          assert p[..1] == [PEOPLE] && p[..1] in Parents(p);
          assert p in dirs ==> Exists(start, p) && Exists(View(), p);
        }
      }
      ghost var log0 := log;
      MigrateSharedProfile();
      RemoveStaleReadmes();
      MigrateDocsFolder();
      WholeRun(start, log0, log);
    }
  }
}
