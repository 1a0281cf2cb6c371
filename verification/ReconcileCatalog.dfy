/** A whole reconcile: every server in turn, in whatever order the coroutines run. */
module ReconcileCatalog {
  import opened Wrappers
  import opened Catalog
  import opened Reconcile
  import opened ReconcileServer

  function EntryOf(specs: map<string, ServerSpec>, name: string): Option<ServerSpec> {
    if name in specs then Some(specs[name]) else None
  }

  /** The servers of `order` are reconciled one after the other. */
  ghost predicate Chain(a: App, b: App, order: seq<string>, specs: map<string, ServerSpec>)
    decreases order
  {
    if order == [] then a == b
    else
      var last := order[|order| - 1];
      Coherent(b) && exists m :: Chain(a, m, order[..|order| - 1], specs) && ServerDone(m, b, last, EntryOf(specs, last), false)
  }

  predicate DistinctOrder(order: seq<string>) {
    forall i, j :: 0 <= i < j < |order| ==> order[i] != order[j]
  }

  /** Server `name` runs what its entry wants, and what it kept from `a` is untouched where possible. */
  ghost predicate AsWanted(a: App, b: App, name: string, specs: map<string, ServerSpec>) {
    if name in specs then
      && Persons(b, name) == InstanceSpecs(specs[name]).Keys
      && forall p | p in InstanceSpecs(specs[name]) :: InstanceDone(a, b, name, specs[name], false, p)
    else Persons(b, name) == {}
  }

  ghost predicate SameServer(a: App, b: App, name: string) {
    Persons(a, name) == Persons(b, name) && forall p :: At(a, name, p) == At(b, name, p)
  }

  lemma AsWantedLater(a: App, m: App, b: App, name: string, specs: map<string, ServerSpec>)
    requires SameServer(a, m, name) && a.next <= m.next && AsWanted(m, b, name, specs)
    ensures AsWanted(a, b, name, specs)
  {
    if name in specs {
      forall p | p in InstanceSpecs(specs[name]) ensures InstanceDone(a, b, name, specs[name], false, p) {
        assert InstanceDone(m, b, name, specs[name], false, p);
      }
    }
  }

  lemma AsWantedStill(a: App, m: App, b: App, name: string, specs: map<string, ServerSpec>)
    requires SameServer(m, b, name) && m.next <= b.next && AsWanted(a, m, name, specs)
    ensures AsWanted(a, b, name, specs)
  {
    if name in specs {
      forall p | p in InstanceSpecs(specs[name]) ensures InstanceDone(a, b, name, specs[name], false, p) {
        assert InstanceDone(a, m, name, specs[name], false, p);
      }
    }
  }

  lemma {:induction false} ChainDoes(a: App, b: App, order: seq<string>, specs: map<string, ServerSpec>)
    requires Coherent(a) && Chain(a, b, order, specs) && DistinctOrder(order)
    requires forall n | n in order :: ':' !in n
    ensures Coherent(b) && a.next <= b.next
    ensures forall n | n in order :: AsWanted(a, b, n, specs)
    ensures forall n | n !in order && ':' !in n :: SameServer(a, b, n)
    decreases order
  {
    hide Coherent, ServerDone, AsWanted, SameServer;
    if order == [] {
      NothingMoved(a);
    } else {
      var rest, name := order[..|order| - 1], order[|order| - 1];
      var m :| Chain(a, m, rest, specs) && ServerDone(m, b, name, EntryOf(specs, name), false);
      assert order == rest + [name] && DistinctOrder(rest) && name !in rest;
      ChainDoes(a, m, rest, specs);
      ChainStep(a, m, b, rest, name, specs);
    }
  }

  lemma NothingMoved(a: App)
    ensures forall n :: SameServer(a, a, n)
  {
  }

  lemma ChainStep(a: App, m: App, b: App, rest: seq<string>, name: string, specs: map<string, ServerSpec>)
    requires Coherent(m) && Coherent(b) && a.next <= m.next && name !in rest && ':' !in name
    requires ServerDone(m, b, name, EntryOf(specs, name), false)
    requires forall n | n in rest :: AsWanted(a, m, n, specs) && ':' !in n
    requires forall n | n !in rest && ':' !in n :: SameServer(a, m, n)
    ensures m.next <= b.next
    ensures forall n | n in rest || n == name :: AsWanted(a, b, n, specs)
    ensures forall n | n !in rest && n != name && ':' !in n :: SameServer(a, b, n)
  {
    assert AsWanted(m, b, name, specs);
    forall n | n != name && ':' !in n ensures SameServer(m, b, n) {
      OtherServer(m, b, name, n);
    }
    forall n | n in rest || n == name ensures AsWanted(a, b, n, specs) {
      if n == name {
        AsWantedLater(a, m, b, n, specs);
      } else {
        AsWantedStill(a, m, b, n, specs);
      }
    }
  }

  /** `order` names every one of `names` once. */
  ghost predicate Lists(order: seq<string>, names: set<string>) {
    DistinctOrder(order) && forall n :: n in order <==> n in names
  }

  /** The order visits every configured and every running server. */
  ghost predicate Covers(order: seq<string>, a: App, specs: map<string, ServerSpec>) {
    Lists(order, specs.Keys + Servers(a))
  }

  predicate GoodNames(specs: map<string, ServerSpec>) {
    forall n | n in specs :: ':' !in n
  }

  /** The running instances are exactly the wanted ones, and every server has its one right route. */
  ghost predicate Matches(b: App, specs: map<string, ServerSpec>) {
    && Servers(b) == specs.Keys
    && (forall n | n in specs :: Persons(b, n) == InstanceSpecs(specs[n]).Keys)
    && (forall n, p | n in specs && p in InstanceSpecs(specs[n]) ::
          At(b, n, p).Some? && At(b, n, p).value.spec == InstanceSpecs(specs[n])[p])
    && DistinctNames(b.routes)
    && (forall n | n in specs :: HasRoute(b.routes, n))
    && (forall r | r in b.routes :: r.name in specs && RightRoute(b, r.name, r.target)
                                    && (r.target.Multi? <==> specs[r.name].HasIdentities()))
  }

  lemma WantedServers(a: App, b: App, specs: map<string, ServerSpec>)
    requires Coherent(b) && GoodNames(specs)
    requires forall n | n in specs || n in Servers(a) :: AsWanted(a, b, n, specs)
    requires forall n | n !in specs && n !in Servers(a) && ':' !in n :: SameServer(a, b, n)
    ensures Servers(b) == specs.Keys
  {
    forall n ensures n in Servers(b) <==> n in specs {
      ServersPersons(b, n);
      if n in specs {
        assert AsWanted(a, b, n, specs) && InstanceSpecs(specs[n]) != map[];
        assert exists p :: p in InstanceSpecs(specs[n]);
      } else if n in Servers(b) {
        var k :| k in b.upstreams && b.upstreams[k].server == n;
        ServersPersons(a, n);
      }
    }
  }

  /**
   After a full reconcile, from any state that earlier reconciles can leave, the running instances
   are the wanted ones with their wanted specs, and each server has exactly one route of its kind.
   */
  lemma FullReconcileMatches(a: App, b: App, order: seq<string>, specs: map<string, ServerSpec>)
    requires Coherent(a) && GoodNames(specs) && Covers(order, a, specs) && Chain(a, b, order, specs)
    ensures Coherent(b) && Matches(b, specs)
    ensures forall n, p | n in specs && p in InstanceSpecs(specs[n]) :: InstanceDone(a, b, n, specs[n], false, p)
  {
    forall n | n in order ensures ':' !in n {
      if n !in specs {
        var k :| k in a.upstreams && a.upstreams[k].server == n;
      }
    }
    ChainDoes(a, b, order, specs);
    WantedServers(a, b, specs);
    forall n, p | n in specs && p in InstanceSpecs(specs[n])
      ensures InstanceDone(a, b, n, specs[n], false, p)
    {
      assert AsWanted(a, b, n, specs);
    }
    forall n | n in specs ensures Persons(b, n) == InstanceSpecs(specs[n]).Keys && HasRoute(b.routes, n) {
      assert AsWanted(a, b, n, specs);
      assert n in Servers(b);
    }
    forall r | r in b.routes ensures r.target.Multi? <==> specs[r.name].HasIdentities() {
      PersonsAt(b, r.name, None);
    }
  }

  /** An instance with no connect, transport or filter change keeps its object and its session. */
  lemma UnchangedKeepsSession(a: App, b: App, order: seq<string>, specs: map<string, ServerSpec>, n: string, p: Option<string>)
    requires Coherent(a) && GoodNames(specs) && Covers(order, a, specs) && Chain(a, b, order, specs)
    requires n in specs && p in InstanceSpecs(specs[n]) && At(a, n, p).Some?
    requires !RestartNeeded(At(a, n, p).value.spec, InstanceSpecs(specs[n])[p])
    ensures At(b, n, p).Some?
    ensures At(b, n, p).value.id == At(a, n, p).value.id
    ensures At(b, n, p).value.commands == At(a, n, p).value.commands
  {
    FullReconcileMatches(a, b, order, specs);
    assert InstanceDone(a, b, n, specs[n], false, p);
    KeptShape(a, n, specs[n], p);
  }

  lemma KeptShape(a: App, n: string, spec: ServerSpec, p: Option<string>)
    requires Coherent(a) && ':' !in n && p in InstanceSpecs(spec) && At(a, n, p).Some?
    ensures !ShapeChanges(a, n, spec)
  {
    PersonsAt(a, n, p);
    assert forall q | q in Persons(a, n) :: q.None? <==> !spec.HasIdentities();
  }

  // --- a second reconcile ------------------------------------------------------------

  lemma NothingToDo(a: App, m: App, n: string, specs: map<string, ServerSpec>)
    requires Coherent(a) && Coherent(m) && Matches(a, specs) && n in specs && ':' !in n
    requires ServerDone(a, m, n, Some(specs[n]), false)
    ensures m == a
  {
    SameShape(a, n, specs);
    SameInstances(a, m, n, specs);
  }

  lemma SameShape(a: App, n: string, specs: map<string, ServerSpec>)
    requires Matches(a, specs) && n in specs
    ensures Persons(a, n) == InstanceSpecs(specs[n]).Keys != {} && !ShapeChanges(a, n, specs[n])
  {
    assert Persons(a, n) == InstanceSpecs(specs[n]).Keys != {} by {
      assert InstanceSpecs(specs[n]) != map[];
    }
  }

  predicate KeySame(a: App, m: App, k: string) {
    k in a.upstreams || k in m.upstreams ==> k in a.upstreams && k in m.upstreams && m.upstreams[k] == a.upstreams[k]
  }

  lemma SameMap(a: App, m: App)
    requires forall k :: KeySame(a, m, k)
    ensures m.upstreams == a.upstreams
  {
    assert forall k :: KeySame(a, m, k) ==> (k in a.upstreams <==> k in m.upstreams);
  }

  lemma SameInstances(a: App, m: App, n: string, specs: map<string, ServerSpec>)
    requires Coherent(a) && Coherent(m) && Matches(a, specs) && n in specs && ':' !in n
    requires ServerDone(a, m, n, Some(specs[n]), false) && !ShapeChanges(a, n, specs[n])
    ensures m.upstreams == a.upstreams
  {
    forall k ensures KeySame(a, m, k) {
      SameKey(a, m, n, specs, k);
    }
    SameMap(a, m);
  }

  lemma SameKey(a: App, m: App, n: string, specs: map<string, ServerSpec>, k: string)
    requires Coherent(a) && Coherent(m) && Matches(a, specs) && n in specs && ':' !in n
    requires ServerDone(a, m, n, Some(specs[n]), false) && !ShapeChanges(a, n, specs[n])
    ensures KeySame(a, m, k)
  {
    if k in a.upstreams || k in m.upstreams {
      var inst := if k in a.upstreams then a.upstreams[k] else m.upstreams[k];
      if inst.server == n {
        var p := inst.person;
        assert p in Persons(if k in a.upstreams then a else m, n);
        assert p in InstanceSpecs(specs[n]);
        assert InstanceDone(a, m, n, specs[n], false, p);
        assert At(a, n, p).Some? && At(a, n, p).value.spec == InstanceSpecs(specs[n])[p];
        assert k == InstanceName(n, p);
      }
    }
  }

  /** A second reconcile of the same config starts nothing, stops nothing and restarts nothing. */
  lemma {:induction false} SecondReconcileIdle(a: App, b: App, order: seq<string>, specs: map<string, ServerSpec>)
    requires Coherent(a) && GoodNames(specs) && Matches(a, specs) && Chain(a, b, order, specs)
    requires forall n | n in order :: n in specs
    ensures b == a
    decreases order
  {
    if order != [] {
      var rest, name := order[..|order| - 1], order[|order| - 1];
      var m :| Chain(a, m, rest, specs) && ServerDone(m, b, name, EntryOf(specs, name), false);
      assert name in order;
      SecondReconcileIdle(a, m, rest, specs);
      NothingToDo(a, b, name, specs);
    }
  }

  lemma ReconcileTwice(a: App, b: App, c: App, order: seq<string>, again: seq<string>, specs: map<string, ServerSpec>)
    requires Coherent(a) && GoodNames(specs) && Covers(order, a, specs) && Chain(a, b, order, specs)
    requires Covers(again, b, specs) && Chain(b, c, again, specs)
    ensures c == b
  {
    FullReconcileMatches(a, b, order, specs);
    SecondReconcileIdle(b, c, again, specs);
  }
}
