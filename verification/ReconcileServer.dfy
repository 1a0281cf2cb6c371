/** One server's reconcile keeps the gateway coherent and does what its entry wants. */
module ReconcileServer {
  import opened Wrappers
  import opened Catalog
  import opened Reconcile

  /** The instances of the other servers are the same in `a` and `b`. */
  ghost predicate SameOthers(a: App, b: App, name: string) {
    && (forall k | k in a.upstreams && a.upstreams[k].server != name :: k in b.upstreams && b.upstreams[k] == a.upstreams[k])
    && (forall k | k in b.upstreams && b.upstreams[k].server != name :: k in a.upstreams)
  }

  lemma OtherServer(a: App, b: App, name: string, other: string)
    requires Registered(a) && Registered(b) && SameOthers(a, b, name) && other != name
    ensures Persons(b, other) == Persons(a, other)
    ensures ':' !in other ==> forall p :: At(b, other, p) == At(a, other, p)
  {
    forall p ensures p in Persons(b, other) <==> p in Persons(a, other) {
      if p in Persons(b, other) {
        var k :| k in b.upstreams && b.upstreams[k].server == other && b.upstreams[k].person == p;
        assert k in a.upstreams;
        if a.upstreams[k].server == name {
          InstanceNameOfBoth(a, b, k);
        }
        assert a.upstreams[k] == b.upstreams[k];
      }
      if p in Persons(a, other) {
        var k :| k in a.upstreams && a.upstreams[k].server == other && a.upstreams[k].person == p;
        assert k in b.upstreams;
      }
    }
    if ':' !in other {
      forall p ensures At(b, other, p) == At(a, other, p) {
        if At(a, other, p).Some? {
          KeyOwner(a, other, p);
        }
        if At(b, other, p).Some? {
          KeyOwner(b, other, p);
        }
      }
    }
  }

  /** One key belongs to one server in every sound registry. */
  lemma InstanceNameOfBoth(a: App, b: App, k: string)
    requires Registered(a) && Registered(b) && k in a.upstreams && k in b.upstreams
    ensures a.upstreams[k].server == b.upstreams[k].server && a.upstreams[k].person == b.upstreams[k].person
  {
    InstanceNameInjective(a.upstreams[k].server, a.upstreams[k].person, b.upstreams[k].server, b.upstreams[k].person);
  }

  // --- taking a server down ----------------------------------------------------------

  function Stopped(a: App, name: string): App {
    a.(upstreams := map k | k in a.upstreams && a.upstreams[k].server != name :: a.upstreams[k],
       routes := WithoutRoute(a.routes, name))
  }

  lemma StoppedKeeps(a: App, name: string)
    requires Coherent(a)
    ensures Coherent(Stopped(a, name)) && Persons(Stopped(a, name), name) == {}
    ensures SameOthers(a, Stopped(a, name), name) && OthersKept(a, Stopped(a, name), name)
    ensures !HasRoute(Stopped(a, name).routes, name)
  {
    var b := Stopped(a, name);
    WithoutRouteMembers(a.routes, name);
    WithoutRouteDistinct(a.routes, name);
    assert Registered(b);
    forall n ensures Persons(b, n) == if n == name then {} else Persons(a, n) {
      if n != name {
        OtherServer(a, b, name, n);
      }
    }
    forall r | r in b.routes ensures r.name in Servers(b) && RightRoute(b, r.name, r.target) {
      OtherServer(a, b, name, r.name);
      RouteName(a, r);
      ServersPersons(a, r.name);
      ServersPersons(b, r.name);
    }
    forall n | n in Servers(b) ensures HasRoute(b.routes, n) {
      ServersPersons(a, n);
      ServersPersons(b, n);
      var r :| r in a.routes && r.name == n;
      assert r in b.routes;
    }
  }

  /** A routed server has a plain name. */
  lemma RouteName(a: App, r: Route)
    requires Registered(a) && Routed(a) && r in a.routes
    ensures ':' !in r.name
  {
    var k :| k in a.upstreams && a.upstreams[k].server == r.name;
  }

  // --- the new instances in place ------------------------------------------------------

  function TargetOf(b: App, name: string, spec: ServerSpec): Target {
    if spec.HasIdentities() || At(b, name, None).None? then Multi else Bound(At(b, name, None).value.id)
  }

  /** The route table gets a route only for a server that had no instance before. */
  function WithRoute(a: App, b: App, name: string, spec: ServerSpec): App {
    if Persons(a, name) == {} then b.(routes := b.routes + [Route(name, TargetOf(b, name, spec))]) else b
  }

  lemma SettledPersons(a: App, b: App, name: string, spec: ServerSpec, targeted: bool)
    requires Registered(a) && ':' !in name && Partly(a, b, name, spec, targeted, {})
    ensures Persons(b, name) == InstanceSpecs(spec).Keys && Persons(b, name) != {}
  {
    forall p ensures p in Persons(b, name) <==> p in InstanceSpecs(spec) {
      PersonsAt(b, name, p);
      if p in InstanceSpecs(spec) {
        assert InstanceDoneFrom(a, b, name, spec, targeted, p);
      }
    }
    assert InstanceSpecs(spec) != map[];
  }

  lemma SettledShape(a: App, b: App, name: string, spec: ServerSpec, targeted: bool)
    requires Coherent(a) && ':' !in name && Partly(a, b, name, spec, targeted, {})
    ensures OneShape(b)
  {
    SettledPersons(a, b, name, spec, targeted);
    forall n, p, q | p in Persons(b, n) && q in Persons(b, n) ensures p.None? <==> q.None? {
      if n != name {
        OtherServer(a, b, name, n);
      }
    }
  }

  /** The route of the server stays right when its instances keep their shape. */
  lemma KeptRoute(a: App, b: App, name: string, spec: ServerSpec, targeted: bool, target: Target)
    requires Coherent(a) && ':' !in name && Partly(a, b, name, spec, targeted, {})
    requires Persons(a, name) != {} && !ShapeChanges(a, name, spec) && RightRoute(a, name, target)
    ensures RightRoute(b, name, target)
  {
    SettledPersons(a, b, name, spec, targeted);
    PersonsAt(a, name, None);
    if target.Bound? {
      assert Persons(a, name) == {None};
      assert InstanceDoneFrom(a, b, name, spec, targeted, None);
    }
  }

  /** Every route of `a` is still right in `b`. */
  lemma OldRouteRight(a: App, b: App, name: string, spec: ServerSpec, targeted: bool, r: Route)
    requires Coherent(a) && ':' !in name && Partly(a, b, name, spec, targeted, {})
    requires !ShapeChanges(a, name, spec) && r in a.routes
    ensures r.name in Servers(b) && RightRoute(b, r.name, r.target)
  {
    RouteName(a, r);
    ServersPersons(a, r.name);
    ServersPersons(b, r.name);
    if r.name == name {
      SettledPersons(a, b, name, spec, targeted);
      KeptRoute(a, b, name, spec, targeted, r.target);
    } else {
      OtherServer(a, b, name, r.name);
    }
  }

  /** Every server of `b` but `name` had its route in `a`. */
  lemma OldServerRouted(a: App, b: App, name: string, spec: ServerSpec, targeted: bool, n: string)
    requires Coherent(a) && Partly(a, b, name, spec, targeted, {}) && n in Servers(b)
    requires n == name ==> n in Servers(a)
    ensures HasRoute(a.routes, n)
  {
    ServersPersons(a, n);
    ServersPersons(b, n);
    if n != name {
      OtherServer(a, b, name, n);
    }
  }

  lemma SettledRoutes(a: App, b: App, name: string, spec: ServerSpec, targeted: bool)
    requires Coherent(a) && ':' !in name && Partly(a, b, name, spec, targeted, {})
    requires !ShapeChanges(a, name, spec)
    ensures Routed(WithRoute(a, b, name, spec))
  {
    ServersPersons(a, name);
    ServersPersons(b, name);
    SettledPersons(a, b, name, spec, targeted);
    forall r | r in b.routes ensures r.name in Servers(b) && RightRoute(b, r.name, r.target) {
      OldRouteRight(a, b, name, spec, targeted, r);
    }
    forall n | n in Servers(b) && (n == name ==> n in Servers(a)) ensures HasRoute(b.routes, n) {
      OldServerRouted(a, b, name, spec, targeted, n);
    }
    if Persons(a, name) == {} {
      PersonsAt(b, name, None);
      FreshRoute(b, WithRoute(a, b, name, spec), name, TargetOf(b, name, spec));
    }
  }

  /** Adding the missing route of `name` completes the table. */
  lemma FreshRoute(b: App, c: App, name: string, target: Target)
    requires DistinctNames(b.routes) && !HasRoute(b.routes, name)
    requires forall r | r in b.routes :: r.name in Servers(b) && RightRoute(b, r.name, r.target)
    requires forall n | n in Servers(b) && n != name :: HasRoute(b.routes, n)
    requires name in Servers(b) && RightRoute(b, name, target)
    requires c == b.(routes := b.routes + [Route(name, target)])
    ensures Routed(c)
  {
    AppendRouteDistinct(b.routes, Route(name, target));
    assert Servers(c) == Servers(b) && forall n :: Persons(c, n) == Persons(b, n);
    assert c.routes[|b.routes|] == Route(name, target);
    forall n | n in Servers(c) ensures HasRoute(c.routes, n) {
      if n == name {
        assert Route(name, target) in c.routes;
      } else {
        var r :| r in b.routes && r.name == n;
        assert r in c.routes;
      }
    }
  }

  lemma SettledInstances(z: App, a: App, b: App, c: App, name: string, spec: ServerSpec, targeted: bool)
    requires Registered(z) && Registered(a) && ':' !in name
    requires if ShapeChanges(z, name, spec) then Persons(a, name) == {} && a.next == z.next else a == z
    requires Partly(a, b, name, spec, targeted, {}) && c.upstreams == b.upstreams && c.next == b.next
    ensures forall p | p in InstanceSpecs(spec) :: InstanceDone(z, c, name, spec, targeted, p)
  {
    forall p | p in InstanceSpecs(spec) ensures InstanceDone(z, c, name, spec, targeted, p) {
      assert InstanceDoneFrom(a, b, name, spec, targeted, p);
      PersonsAt(a, name, p);
    }
  }

  lemma SettledCoherent(a: App, b: App, c: App, name: string, spec: ServerSpec, targeted: bool)
    requires Coherent(a) && ':' !in name && !ShapeChanges(a, name, spec)
    requires Partly(a, b, name, spec, targeted, {}) && c == WithRoute(a, b, name, spec)
    ensures Coherent(c) && Persons(c, name) == InstanceSpecs(spec).Keys
  {
    SettledPersons(a, b, name, spec, targeted);
    SettledShape(a, b, name, spec, targeted);
    SettledRoutes(a, b, name, spec, targeted);
    assert forall n :: Persons(c, n) == Persons(b, n);
  }

  /** From the state `z` before the call, through an optional take-down, to the state after it. */
  lemma ServerSettled(z: App, a: App, b: App, c: App, name: string, spec: ServerSpec, targeted: bool)
    requires Coherent(z) && ':' !in name
    requires a == if ShapeChanges(z, name, spec) then Stopped(z, name) else z
    requires Partly(a, b, name, spec, targeted, {}) && c == WithRoute(a, b, name, spec)
    ensures Coherent(c) && ServerDone(z, c, name, Some(spec), targeted)
  {
    if ShapeChanges(z, name, spec) {
      StoppedKeeps(z, name);
    }
    SettledCoherent(a, b, c, name, spec, targeted);
    SettledInstances(z, a, b, c, name, spec, targeted);
    SettledOthers(z, a, b, c, name, spec, targeted);
  }

  lemma SettledOthers(z: App, a: App, b: App, c: App, name: string, spec: ServerSpec, targeted: bool)
    requires Coherent(z) && ':' !in name
    requires a == if ShapeChanges(z, name, spec) then Stopped(z, name) else z
    requires Partly(a, b, name, spec, targeted, {}) && c == WithRoute(a, b, name, spec)
    ensures OthersKept(z, c, name)
  {
    if ShapeChanges(z, name, spec) {
      StoppedKeeps(z, name);
    }
    forall k | k in c.upstreams && c.upstreams[k].server != name ensures k in z.upstreams {
      assert k in a.upstreams;
    }
    forall r: Route | r.name != name ensures r in z.routes <==> r in c.routes {
      assert r in z.routes <==> r in a.routes;
    }
  }
}
