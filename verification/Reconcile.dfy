/**
 Applying a new catalog to the running upstreams. A server is reconciled against its entry while
 the other servers keep running; one reconcile is modelled at a time.
 */
module Reconcile {
  import opened Wrappers
  import opened Catalog

  /** What was asked of one instance since it was made. */
  datatype Command = Start | Reload | Disable

  /** A running upstream; `id` is its object identity. */
  datatype Inst = Inst(id: nat, server: string, person: Option<string>, spec: ServerSpec, commands: seq<Command>)

  /** A plain route is bound to one instance object; a multiplexing route looks its instance up. */
  datatype Target = Bound(id: nat) | Multi

  datatype Route = Route(name: string, target: Target)

  datatype App = App(upstreams: map<string, Inst>, routes: seq<Route>, next: nat)

  const EMPTY := App(map[], [], 0)

  function At(a: App, name: string, person: Option<string>): Option<Inst> {
    var key := InstanceName(name, person);
    if key in a.upstreams then Some(a.upstreams[key]) else None
  }

  function Servers(a: App): set<string> {
    set k | k in a.upstreams :: a.upstreams[k].server
  }

  function Persons(a: App, name: string): set<Option<string>> {
    set k | k in a.upstreams && a.upstreams[k].server == name :: a.upstreams[k].person
  }

  // --- routes -------------------------------------------------------------------

  function WithoutRoute(routes: seq<Route>, name: string): seq<Route> {
    if routes == [] then []
    else if routes[0].name == name then WithoutRoute(routes[1..], name)
    else [routes[0]] + WithoutRoute(routes[1..], name)
  }

  predicate HasRoute(routes: seq<Route>, name: string) {
    exists r :: r in routes && r.name == name
  }

  predicate DistinctNames(routes: seq<Route>) {
    routes == [] || (!HasRoute(routes[1..], routes[0].name) && DistinctNames(routes[1..]))
  }

  lemma {:induction false} WithoutRouteMembers(routes: seq<Route>, name: string)
    ensures forall r :: r in WithoutRoute(routes, name) <==> r in routes && r.name != name
  {
    if routes != [] {
      WithoutRouteMembers(routes[1..], name);
      assert routes == [routes[0]] + routes[1..];
    }
  }

  lemma {:induction false} WithoutRouteDistinct(routes: seq<Route>, name: string)
    requires DistinctNames(routes)
    ensures DistinctNames(WithoutRoute(routes, name))
  {
    if routes != [] {
      WithoutRouteDistinct(routes[1..], name);
      WithoutRouteMembers(routes[1..], name);
    }
  }

  lemma {:induction false} AppendRouteDistinct(routes: seq<Route>, r: Route)
    requires DistinctNames(routes) && !HasRoute(routes, r.name)
    ensures DistinctNames(routes + [r])
  {
    if routes == [] {
      assert routes + [r] == [r];
    } else {
      assert forall q | q in routes[1..] :: q in routes;
      AppendRouteDistinct(routes[1..], r);
      assert (routes + [r])[1..] == routes[1..] + [r];
      assert routes[0] in routes;
    }
  }

  // --- what every reconcile keeps -------------------------------------------------

  /** Each instance sits under its own name, with its own identity. */
  ghost predicate Registered(a: App) {
    && (forall k | k in a.upstreams ::
          && k == InstanceName(a.upstreams[k].server, a.upstreams[k].person)
          && ':' !in a.upstreams[k].server && a.upstreams[k].id < a.next)
    && (forall k, l | k in a.upstreams && l in a.upstreams && k != l :: a.upstreams[k].id != a.upstreams[l].id)
  }

  /** A server runs one shared instance or one per person, never both. */
  ghost predicate OneShape(a: App) {
    forall name, p, q :: p in Persons(a, name) && q in Persons(a, name) ==> (p.None? <==> q.None?)
  }

  /** The route that server `name` must have. */
  ghost predicate RightRoute(a: App, name: string, target: Target) {
    match target
    case Bound(id) => At(a, name, None).Some? && At(a, name, None).value.id == id
    case Multi => None !in Persons(a, name) && Persons(a, name) != {}
  }

  /** Exactly the servers with an instance have a route, one each, of the right kind. */
  ghost predicate Routed(a: App) {
    && DistinctNames(a.routes)
    && (forall r | r in a.routes :: r.name in Servers(a) && RightRoute(a, r.name, r.target))
    && (forall name | name in Servers(a) :: HasRoute(a.routes, name))
  }

  ghost predicate Coherent(a: App) {
    Registered(a) && OneShape(a) && Routed(a)
  }

  // --- one server -----------------------------------------------------------------

  /** The instances that survive the check for a change of shape. */
  predicate ShapeChanges(a: App, name: string, spec: ServerSpec) {
    Persons(a, name) != {} && (Persons(a, name) != {None}) != spec.HasIdentities()
  }

  function Applied(have: Inst, want: ServerSpec, targeted: bool): Inst {
    if targeted || RestartNeeded(have.spec, want) then
      have.(spec := want, commands := have.commands + [if want.IsDisabled() then Disable else Reload])
    else have.(spec := want)
  }

  /** Everything outside server `name` is as before. */
  ghost predicate OtherInstancesKept(a: App, b: App, name: string) {
    && (forall k | k in a.upstreams && a.upstreams[k].server != name :: k in b.upstreams && b.upstreams[k] == a.upstreams[k])
    && (forall k | k in b.upstreams && b.upstreams[k].server != name :: k in a.upstreams)
  }

  ghost predicate OthersKept(a: App, b: App, name: string) {
    && OtherInstancesKept(a, b, name)
    && (forall r: Route :: r.name != name ==> (r in a.routes <==> r in b.routes))
    && a.next <= b.next
  }

  /** Instance `person` of the server after the reconcile. */
  ghost predicate InstanceDone(a: App, b: App, name: string, spec: ServerSpec, targeted: bool, person: Option<string>) {
    var want := SpecFor(spec, person);
    && At(b, name, person).Some?
    && var inst := At(b, name, person).value;
       && inst.server == name && inst.person == person && inst.spec == want
       && (if At(a, name, person).Some? && !ShapeChanges(a, name, spec)
           then inst == Applied(At(a, name, person).value, want, targeted)
           else a.next <= inst.id < b.next && inst.commands == [Start])
  }

  /** What `_reconcile_server` makes of server `name`. */
  ghost predicate ServerDone(a: App, b: App, name: string, entry: Option<ServerSpec>, targeted: bool) {
    && OthersKept(a, b, name)
    && match entry
       case None => Persons(b, name) == {} && b.next == a.next
       case Some(spec) =>
         && Persons(b, name) == InstanceSpecs(spec).Keys
         && (forall p | p in InstanceSpecs(spec) :: InstanceDone(a, b, name, spec, targeted, p))
         && (!ShapeChanges(a, name, spec) && Persons(a, name) != {} ==> b.routes == a.routes)
         && (!ShapeChanges(a, name, spec) && InstanceSpecs(spec).Keys <= Persons(a, name) ==> b.next == a.next)
  }

  // --- lemmas about the registry ------------------------------------------------------

  /** Under a sound registry, an instance name leads to the instance of that server and person. */
  lemma KeyOwner(a: App, name: string, person: Option<string>)
    requires Registered(a) && ':' !in name && At(a, name, person).Some?
    ensures At(a, name, person).value.server == name && At(a, name, person).value.person == person
    ensures person in Persons(a, name) && name in Servers(a)
  {
    var inst := At(a, name, person).value;
    InstanceNameInjective(name, person, inst.server, inst.person);
  }

  lemma PersonsAt(a: App, name: string, person: Option<string>)
    requires Registered(a) && ':' !in name
    ensures person in Persons(a, name) <==> At(a, name, person).Some?
  {
    if person in Persons(a, name) {
      var k :| k in a.upstreams && a.upstreams[k].server == name && a.upstreams[k].person == person;
    }
    if At(a, name, person).Some? {
      KeyOwner(a, name, person);
    }
  }

  lemma ServersPersons(a: App, name: string)
    ensures name in Servers(a) <==> Persons(a, name) != {}
  {
    if name in Servers(a) {
      var k :| k in a.upstreams && a.upstreams[k].server == name;
      assert a.upstreams[k].person in Persons(a, name);
    }
    if Persons(a, name) != {} {
      var p :| p in Persons(a, name);
    }
  }

  // --- one instance ------------------------------------------------------------------

  function NewInst(a: App, name: string, person: Option<string>, want: ServerSpec): Inst {
    Inst(a.next, name, person, want, [Start])
  }

  /** `one_instance`, for a person of the server that runs now or is wanted. */
  function OneInstance(a: App, name: string, person: Option<string>, wanted: map<Option<string>, ServerSpec>, targeted: bool): App {
    var key := InstanceName(name, person);
    if person !in wanted then a.(upstreams := a.upstreams - {key})
    else if key !in a.upstreams then
      a.(upstreams := a.upstreams[key := NewInst(a, name, person, wanted[person])], next := a.next + 1)
    else a.(upstreams := a.upstreams[key := Applied(a.upstreams[key], wanted[person], targeted)])
  }

  lemma OneInstanceKeeps(a: App, name: string, person: Option<string>, wanted: map<Option<string>, ServerSpec>, targeted: bool)
    requires Registered(a) && ':' !in name
    ensures var b := OneInstance(a, name, person, wanted, targeted);
            && Registered(b) && b.routes == a.routes && a.next <= b.next
            && (forall k | k in a.upstreams && k != InstanceName(name, person) :: k in b.upstreams && b.upstreams[k] == a.upstreams[k])
            && (forall k | k in b.upstreams && k != InstanceName(name, person) :: k in a.upstreams)
            && (forall q | q != person :: At(b, name, q) == At(a, name, q))
  {
    if At(a, name, person).Some? {
      KeyOwner(a, name, person);
    }
    forall q | q != person ensures InstanceName(name, q) != InstanceName(name, person) {
      if InstanceName(name, q) == InstanceName(name, person) {
        InstanceNameInjective(name, q, name, person);
      }
    }
  }

  /** What the instances of a server look like while the persons in `todo` are still waiting. */
  ghost predicate Partly(a: App, b: App, name: string, spec: ServerSpec, targeted: bool, todo: set<Option<string>>) {
    && Registered(b) && b.routes == a.routes && a.next <= b.next
    && OtherInstancesKept(a, b, name)
    && (forall p | p in todo :: At(b, name, p) == At(a, name, p))
    && (forall p | p !in todo && p !in InstanceSpecs(spec) :: At(b, name, p).None?)
    && (forall p | p !in todo && p in InstanceSpecs(spec) :: InstanceDoneFrom(a, b, name, spec, targeted, p))
    && (InstanceSpecs(spec).Keys <= Persons(a, name) ==> b.next == a.next)
  }

  ghost predicate InstanceDoneFrom(a: App, b: App, name: string, spec: ServerSpec, targeted: bool, person: Option<string>) {
    var want := SpecFor(spec, person);
    && At(b, name, person).Some?
    && var inst := At(b, name, person).value;
       && inst.server == name && inst.person == person && inst.spec == want
       && (if At(a, name, person).Some? then inst == Applied(At(a, name, person).value, want, targeted)
           else a.next <= inst.id < b.next && inst.commands == [Start])
  }

  /** The step for `p` leaves the other servers alone. */
  lemma PartlyOthers(a: App, b: App, name: string, wanted: map<Option<string>, ServerSpec>, targeted: bool, p: Option<string>)
    requires Registered(a) && Registered(b) && ':' !in name && OtherInstancesKept(a, b, name)
    ensures OtherInstancesKept(a, OneInstance(b, name, p, wanted, targeted), name)
  {
    var key := InstanceName(name, p);
    OneInstanceKeeps(b, name, p, wanted, targeted);
    if key in a.upstreams {
      KeyOwner(a, name, p);
    }
    if key in b.upstreams {
      KeyOwner(b, name, p);
    }
  }

  /** The step for `p` does what is wanted of `p`. */
  lemma PartlyDone(a: App, b: App, name: string, spec: ServerSpec, targeted: bool, todo: set<Option<string>>, p: Option<string>)
    requires Registered(a) && ':' !in name && p in todo
    requires Partly(a, b, name, spec, targeted, todo)
    ensures var c := OneInstance(b, name, p, InstanceSpecs(spec), targeted);
            && (p in InstanceSpecs(spec) ==> InstanceDoneFrom(a, c, name, spec, targeted, p))
            && (p !in InstanceSpecs(spec) ==> At(c, name, p).None?)
            && (InstanceSpecs(spec).Keys <= Persons(a, name) ==> c.next == a.next)
  {
    if At(b, name, p).Some? {
      KeyOwner(b, name, p);
    }
    PersonsAt(a, name, p);
  }

  lemma DoneCarries(a: App, b: App, c: App, name: string, spec: ServerSpec, targeted: bool, q: Option<string>)
    requires InstanceDoneFrom(a, b, name, spec, targeted, q)
    requires At(c, name, q) == At(b, name, q) && b.next <= c.next
    ensures InstanceDoneFrom(a, c, name, spec, targeted, q)
  {
  }

  /** `c` is `b` with the business of `p` settled. */
  lemma PartlyNext(a: App, b: App, c: App, name: string, spec: ServerSpec, targeted: bool, todo: set<Option<string>>, p: Option<string>)
    requires Partly(a, b, name, spec, targeted, todo) && p in todo
    requires forall q | q != p :: At(c, name, q) == At(b, name, q)
    requires p in InstanceSpecs(spec) ==> InstanceDoneFrom(a, c, name, spec, targeted, p)
    requires p !in InstanceSpecs(spec) ==> At(c, name, p).None?
    requires b.next <= c.next
    ensures forall q | q in todo - {p} :: At(c, name, q) == At(a, name, q)
    ensures forall q | q !in todo - {p} && q !in InstanceSpecs(spec) :: At(c, name, q).None?
    ensures forall q | q !in todo - {p} && q in InstanceSpecs(spec) :: InstanceDoneFrom(a, c, name, spec, targeted, q)
  {
    forall q | q !in todo - {p} && q in InstanceSpecs(spec)
      ensures InstanceDoneFrom(a, c, name, spec, targeted, q)
    {
      if q != p {
        DoneCarries(a, b, c, name, spec, targeted, q);
      }
    }
  }

  lemma PartlyStep(a: App, b: App, c: App, name: string, spec: ServerSpec, targeted: bool, todo: set<Option<string>>, p: Option<string>)
    requires Registered(a) && ':' !in name && p in todo
    requires Partly(a, b, name, spec, targeted, todo)
    requires c == OneInstance(b, name, p, InstanceSpecs(spec), targeted)
    ensures Partly(a, c, name, spec, targeted, todo - {p})
  {
    OneInstanceKeeps(b, name, p, InstanceSpecs(spec), targeted);
    PartlyOthers(a, b, name, InstanceSpecs(spec), targeted, p);
    PartlyDone(a, b, name, spec, targeted, todo, p);
    PartlyNext(a, b, c, name, spec, targeted, todo, p);
  }
}
