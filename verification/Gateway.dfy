/** The gateway's app state, changed in place by boot and by `/admin/reload`. */
module Gateway {
  import opened Wrappers
  import opened Catalog
  import opened Reconcile
  import opened ReconcileServer
  import opened ReconcileCatalog
  import ReconcileHistory

  class Gateway {
    var specs: map<string, ServerSpec>
    var upstreams: map<string, Inst>
    var routes: seq<Route>
    var next: nat

    constructor ()
      ensures View() == EMPTY && specs == map[]
    {
      specs, upstreams, routes, next := map[], map[], [], 0;
    }

    function View(): App
      reads this
    {
      App(upstreams, routes, next)
    }

    method RemoveRoute(name: string)
      modifies this`routes
      ensures routes == WithoutRoute(old(routes), name)
    {
      var kept: seq<Route> := [];
      ghost var all := routes;
      for i := 0 to |routes|
        invariant routes == all && kept + WithoutRoute(all[i..], name) == WithoutRoute(all, name)
      {
        assert all[i..] == [all[i]] + all[i + 1..];
        if routes[i].name != name {
          kept := kept + [routes[i]];
        }
      }
      routes := kept;
    }

    /** `up.stop()` and removal for every instance of one server. */
    method StopServer(name: string)
      modifies this`upstreams
      ensures upstreams == map k | k in old(upstreams) && old(upstreams)[k].server != name :: old(upstreams)[k]
    {
      var doomed := set k | k in upstreams && upstreams[k].server == name;
      while doomed != {}
        invariant forall k | k in upstreams :: k in old(upstreams) && upstreams[k] == old(upstreams)[k]
        invariant forall k | k in old(upstreams) :: k in upstreams <==> old(upstreams)[k].server != name || k in doomed
        invariant forall k | k in doomed :: k in upstreams && upstreams[k].server == name
        decreases doomed
      {
        var k :| k in doomed;
        upstreams := upstreams - {k};
        doomed := doomed - {k};
      }
    }

    /** The coroutine of one person of one server. */
    method OneInstance(name: string, person: Option<string>, wanted: map<Option<string>, ServerSpec>, targeted: bool)
      modifies this`upstreams, this`next
      ensures View() == Reconcile.OneInstance(old(View()), name, person, wanted, targeted)
    {
      var key := InstanceName(name, person);
      if person !in wanted {
        upstreams := upstreams - {key};
        return;
      }
      var want := wanted[person];
      if key !in upstreams {
        upstreams := upstreams[key := Inst(next, name, person, want, [Start])];
        next := next + 1;
        return;
      }
      var up := upstreams[key];
      if targeted || RestartNeeded(up.spec, want) {
        up := up.(spec := want);
        if want.IsDisabled() {
          up := up.(commands := up.commands + [Disable]);
        } else {
          up := up.(commands := up.commands + [Reload]);
        }
      } else {
        up := up.(spec := want);
      }
      upstreams := upstreams[key := up];
    }

    method AddRoute(name: string, spec: ServerSpec)
      modifies this`routes
      ensures routes == old(routes) + [Route(name, TargetOf(View(), name, spec))]
    {
      if spec.HasIdentities() || InstanceName(name, None) !in upstreams {
        routes := routes + [Route(name, Multi)];
      } else {
        routes := routes + [Route(name, Bound(upstreams[InstanceName(name, None)].id))];
      }
    }

    method TakeDown(name: string)
      modifies this`upstreams, this`routes
      ensures View() == Stopped(old(View()), name)
    {
      StopServer(name);
      RemoveRoute(name);
    }

    /** The gathered instance tasks of one server, in any order. */
    method RunInstances(name: string, spec: ServerSpec, current: set<Option<string>>, targeted: bool)
      requires Coherent(View()) && ':' !in name && current == Persons(View(), name)
      modifies this`upstreams, this`next
      ensures Partly(old(View()), View(), name, spec, targeted, {})
    {
      ghost var a := View();
      var wanted := InstanceSpecs(spec);
      var todo := current + wanted.Keys;
      StartPartly(a, name, spec, targeted, todo);
      while todo != {}
        invariant Partly(a, View(), name, spec, targeted, todo)
        decreases todo
      {
        ghost var b := View();
        var p :| p in todo;
        OneInstance(name, p, wanted, targeted);
        PartlyStep(a, b, View(), name, spec, targeted, todo, p);
        todo := todo - {p};
      }
    }

    /** `_reconcile_server`. */
    method ReconcileServer(name: string, entry: Option<ServerSpec>, targeted: bool)
      requires Coherent(View()) && ':' !in name
      modifies this`upstreams, this`routes, this`next
      ensures Coherent(View()) && ServerDone(old(View()), View(), name, entry, targeted)
    {
      hide Coherent, Partly, ServerDone;
      ghost var z := View();
      if entry.None? {
        TakenDown(z, name, targeted);
        TakeDown(name);
        return;
      }
      var spec := entry.value;
      var current := Persons(View(), name);
      if current != {} && (current != {None}) != spec.HasIdentities() {
        StoppedKeeps(z, name);
        TakeDown(name);
        current := {};
      }
      ghost var a := View();
      RunInstances(name, spec, current, targeted);
      ghost var b := View();
      if current == {} {
        AddRoute(name, spec);
      }
      ServerSettled(z, a, b, View(), name, spec, targeted);
    }

    /** `reconcile_catalog`; false where it raises for an unknown target. */
    method ReconcileCatalog(newSpecs: map<string, ServerSpec>, target: Option<string>) returns (found: bool)
      requires Coherent(View()) && GoodNames(newSpecs)
      modifies this
      ensures Coherent(View()) && specs == newSpecs
      ensures found <==> target.None? || target.value in newSpecs || target.value in Servers(old(View()))
      ensures !found ==> View() == old(View())
      ensures ReconcileHistory.Reloaded(old(View()), View(), ReconcileHistory.Reload(newSpecs, target))
      ensures found && target.Some? ==>
                ServerDone(old(View()), View(), target.value, EntryOf(newSpecs, target.value), true)
      ensures target.None? ==>
                exists order :: Covers(order, old(View()), newSpecs) && Chain(old(View()), View(), order, newSpecs)
    {
      specs := newSpecs;
      ghost var a := View();
      var running := Servers(View());
      PlainServers(a);
      if target.Some? {
        if target.value !in newSpecs && target.value !in running {
          return false;
        }
        ReconcileServer(target.value, if target.value in newSpecs then Some(newSpecs[target.value]) else None, true);
        return true;
      }
      ReconcileAll(newSpecs, newSpecs.Keys + running);
      return true;
    }

    /** One coroutine per configured or running server; those of different servers touch nothing in common. */
    method ReconcileAll(newSpecs: map<string, ServerSpec>, names: set<string>)
      requires Coherent(View()) && specs == newSpecs && forall n | n in names :: ':' !in n
      modifies this`upstreams, this`routes, this`next
      ensures Coherent(View())
      ensures exists order :: Lists(order, names) && Chain(old(View()), View(), order, newSpecs)
    {
      var todo := names;
      ghost var order: seq<string>, done: set<string> := [], {};
      while todo != {}
        invariant Coherent(View()) && todo <= names && done == names - todo
        invariant Lists(order, done) && Chain(old(View()), View(), order, newSpecs)
        decreases todo
      {
        var n :| n in todo;
        ghost var b := View();
        ReconcileServer(n, if n in newSpecs then Some(newSpecs[n]) else None, false);
        ChainSnoc(old(View()), b, View(), order, n, newSpecs);
        ListsSnoc(order, done, n);
        order, done, todo := order + [n], done + {n}, todo - {n};
      }
      assert done == names;
    }

    /** `_new_instances`: every wanted instance is registered, and not yet started. */
    method NewInstances(name: string, spec: ServerSpec) returns (made: set<string>, ghost b: App)
      requires Coherent(View()) && ':' !in name && Persons(View(), name) == {}
      modifies this`upstreams, this`next
      ensures Partly(old(View()), b, name, spec, false, {}) && View() == Unstarted(b, made)
      ensures made <= b.upstreams.Keys && forall k | k in made :: b.upstreams[k].commands == [Start]
    {
      hide Partly, Coherent, Unstarted, Reconcile.OneInstance;
      ghost var a := View();
      CoherentRegistered(a);
      var wanted := InstanceSpecs(spec);
      var todo := wanted.Keys;
      made, b := {}, a;
      StartPartly(a, name, spec, false, todo);
      NoneUnstarted(a);
      while todo != {}
        invariant todo <= wanted.Keys && made <= b.upstreams.Keys
        invariant forall k | k in made :: b.upstreams[k].commands == [Start]
        invariant Partly(a, b, name, spec, false, todo) && View() == Unstarted(b, made)
        decreases todo
      {
        var p :| p in todo;
        var key := InstanceName(name, p);
        NotRunning(a, b, name, spec, todo, p);
        ghost var c := Reconcile.OneInstance(b, name, p, wanted, false);
        PartlyStep(a, b, c, name, spec, false, todo, p);
        RegisterStep(b, made, name, p, wanted);
        upstreams := upstreams[key := Inst(next, name, p, wanted[p], [])];
        next := next + 1;
        made, b, todo := made + {key}, c, todo - {p};
      }
    }

    /** `up.start()` for the instances just made. */
    method StartAll(made: set<string>, ghost b: App)
      requires made <= b.upstreams.Keys && View() == Unstarted(b, made)
      requires forall k | k in made :: b.upstreams[k].commands == [Start]
      modifies this`upstreams
      ensures View() == b
    {
      hide Unstarted;
      var todo := made;
      while todo != {}
        invariant todo <= made && View() == Unstarted(b, todo)
        decreases todo
      {
        var k :| k in todo;
        StartStep(b, todo, k);
        upstreams := upstreams[k := upstreams[k].(commands := upstreams[k].commands + [Start])];
        todo := todo - {k};
      }
      NoneUnstarted(b);
    }

    /** `_install_catalog`: the boot, before any route of an upstream exists. */
    method InstallCatalog(newSpecs: map<string, ServerSpec>)
      requires routes == [] && GoodNames(newSpecs)
      modifies this
      ensures Coherent(View()) && Matches(View(), newSpecs) && specs == newSpecs
    {
      hide Coherent, Lists, Chain, Matches, ServerDone, Persons;
      specs := newSpecs;
      upstreams := map[];
      ghost var a := View();
      var todo := newSpecs.Keys;
      ghost var order: seq<string>, done: set<string> := [], {};
      EmptyCoherent(next);
      NothingChained(a, newSpecs);
      while todo != {}
        invariant Coherent(View()) && todo <= newSpecs.Keys && done == newSpecs.Keys - todo
        invariant Lists(order, done) && Chain(a, View(), order, newSpecs)
        invariant specs == newSpecs && forall n | n in todo :: Persons(View(), n) == {}
        decreases todo
      {
        var n :| n in todo;
        ghost var b := View();
        InstallServer(n, newSpecs[n]);
        OthersStayEmpty(b, View(), n, newSpecs[n], todo);
        ChainSnoc(a, b, View(), order, n, newSpecs);
        ListsSnoc(order, done, n);
        order, done, todo := order + [n], done + {n}, todo - {n};
      }
      assert done == newSpecs.Keys && Servers(a) == {} && done == newSpecs.Keys + Servers(a);
      FullReconcileMatches(a, View(), order, newSpecs);
    }

    /** One round of the boot loop. */
    method InstallServer(name: string, spec: ServerSpec)
      requires Coherent(View()) && ':' !in name && Persons(View(), name) == {}
      modifies this`upstreams, this`routes, this`next
      ensures Coherent(View()) && ServerDone(old(View()), View(), name, Some(spec), false)
    {
      ghost var z := View();
      var made;
      ghost var b;
      made, b := NewInstances(name, spec);
      SameTarget(b, made, name, spec);
      AddRoute(name, spec);
      ghost var c := WithRoute(z, b, name, spec);
      StartAll(made, c);
      ServerSettled(z, z, b, c, name, spec, false);
    }
  }

  /** `b` before the instances in `made` are started. */
  ghost function Unstarted(b: App, made: set<string>): App {
    b.(upstreams := map k | k in b.upstreams :: if k in made then b.upstreams[k].(commands := []) else b.upstreams[k])
  }

  /** A route can be made before the start. */
  lemma SameTarget(b: App, made: set<string>, name: string, spec: ServerSpec)
    ensures TargetOf(Unstarted(b, made), name, spec) == TargetOf(b, name, spec)
  {
  }

  /** A round of the boot brings up no other server. */
  lemma OthersStayEmpty(b: App, c: App, name: string, spec: ServerSpec, todo: set<string>)
    requires Coherent(b) && Coherent(c) && ServerDone(b, c, name, Some(spec), false)
    requires forall n | n in todo :: Persons(b, n) == {}
    ensures forall n | n in todo && n != name :: Persons(c, n) == {}
  {
    forall n | n in todo && n != name ensures Persons(c, n) == {} {
      OtherServer(b, c, name, n);
    }
  }

  lemma CoherentRegistered(a: App)
    requires Coherent(a)
    ensures Registered(a)
  {
  }

  lemma NothingChained(a: App, specs: map<string, ServerSpec>)
    requires a.upstreams == map[]
    ensures Lists([], {}) && Chain(a, a, [], specs) && forall n :: Persons(a, n) == {}
  {
  }

  /** Registering an instance without its start. */
  lemma RegisterStep(b: App, made: set<string>, name: string, p: Option<string>, wanted: map<Option<string>, ServerSpec>)
    requires p in wanted && InstanceName(name, p) !in b.upstreams && made <= b.upstreams.Keys
    requires forall k | k in made :: b.upstreams[k].commands == [Start]
    ensures var key, a := InstanceName(name, p), Unstarted(b, made);
            var c := Reconcile.OneInstance(b, name, p, wanted, false);
            && a.(upstreams := a.upstreams[key := Inst(a.next, name, p, wanted[p], [])], next := a.next + 1)
               == Unstarted(c, made + {key})
            && made + {key} <= c.upstreams.Keys && forall k | k in made + {key} :: c.upstreams[k].commands == [Start]
  {
  }

  lemma StartStep(b: App, todo: set<string>, k: string)
    requires k in todo && todo <= b.upstreams.Keys && b.upstreams[k].commands == [Start]
    ensures k in Unstarted(b, todo).upstreams
    ensures var a := Unstarted(b, todo);
            a.(upstreams := a.upstreams[k := a.upstreams[k].(commands := a.upstreams[k].commands + [Start])])
            == Unstarted(b, todo - {k})
  {
    var a := Unstarted(b, todo);
    assert a.upstreams[k].(commands := [] + [Start]) == b.upstreams[k];
  }

  lemma NoneUnstarted(b: App)
    ensures Unstarted(b, {}) == b
  {
  }

  /** A server without instances has none under any of its names. */
  lemma NotRunning(a: App, b: App, name: string, spec: ServerSpec, todo: set<Option<string>>, p: Option<string>)
    requires Coherent(a) && ':' !in name && Persons(a, name) == {} && Partly(a, b, name, spec, false, todo) && p in todo
    ensures InstanceName(name, p) !in b.upstreams
  {
    PersonsAt(a, name, p);
  }

  lemma EmptyCoherent(next: nat)
    ensures Coherent(App(map[], [], next))
  {
  }

  lemma PlainServers(a: App)
    requires Coherent(a)
    ensures forall n | n in Servers(a) :: ':' !in n
  {
  }

  lemma TakenDown(z: App, name: string, targeted: bool)
    requires Coherent(z)
    ensures Coherent(Stopped(z, name)) && ServerDone(z, Stopped(z, name), name, None, targeted)
  {
    StoppedKeeps(z, name);
  }

  /** Before the first task runs, the persons outside `todo` have no instance. */
  lemma StartPartly(a: App, name: string, spec: ServerSpec, targeted: bool, todo: set<Option<string>>)
    requires Coherent(a) && ':' !in name && todo == Persons(a, name) + InstanceSpecs(spec).Keys
    ensures Partly(a, a, name, spec, targeted, todo)
  {
    forall p | p !in todo ensures At(a, name, p).None? {
      PersonsAt(a, name, p);
    }
  }

  lemma ChainSnoc(a: App, b: App, c: App, order: seq<string>, n: string, specs: map<string, ServerSpec>)
    requires Chain(a, b, order, specs) && Coherent(c) && ServerDone(b, c, n, EntryOf(specs, n), false)
    ensures Chain(a, c, order + [n], specs)
  {
    var longer := order + [n];
    assert longer[..|longer| - 1] == order && longer[|longer| - 1] == n;
  }

  lemma ListsSnoc(order: seq<string>, names: set<string>, n: string)
    requires Lists(order, names) && n !in names
    ensures Lists(order + [n], names + {n})
  {
  }
}
