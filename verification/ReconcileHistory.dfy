/** The catalog over the life of one gateway: the boot, and then reloads of any kind with any configs. */
module ReconcileHistory {
  import opened Wrappers
  import opened Catalog
  import opened Reconcile
  import opened ReconcileServer
  import opened ReconcileCatalog

  /** A reload of one server, or of all, with the config it reads. */
  datatype Reload = Reload(specs: map<string, ServerSpec>, target: Option<string>)

  /** What a reload makes of `a`. An unknown target leaves it alone. */
  ghost predicate Reloaded(a: App, b: App, r: Reload) {
    match r.target
    case Some(n) =>
      if n in r.specs || n in Servers(a) then Coherent(b) && ServerDone(a, b, n, EntryOf(r.specs, n), true) else b == a
    case None => exists order :: Covers(order, a, r.specs) && Chain(a, b, order, r.specs)
  }

  /** `states[0]` is what the boot leaves, and each further state what the next reload leaves. */
  ghost predicate History(boot: map<string, ServerSpec>, reloads: seq<Reload>, states: seq<App>) {
    && |states| == |reloads| + 1
    && GoodNames(boot) && Coherent(states[0]) && Matches(states[0], boot)
    && forall i :: 0 <= i < |reloads| ==> GoodNames(reloads[i].specs) && Reloaded(states[i], states[i + 1], reloads[i])
  }

  /** The config of the last reload of server `n`, or of all servers. */
  function Deciding(boot: map<string, ServerSpec>, reloads: seq<Reload>, n: string): map<string, ServerSpec> {
    if reloads == [] then boot
    else
      var r := reloads[|reloads| - 1];
      if r.target.None? || r.target == Some(n) then r.specs else Deciding(boot, reloads[..|reloads| - 1], n)
  }

  /** The instances of server `n` are the wanted ones, with their specs. */
  ghost predicate RunsAs(b: App, n: string, specs: map<string, ServerSpec>) {
    if n in specs then
      && Persons(b, n) == InstanceSpecs(specs[n]).Keys
      && forall p | p in InstanceSpecs(specs[n]) :: At(b, n, p).Some? && At(b, n, p).value.spec == InstanceSpecs(specs[n])[p]
    else Persons(b, n) == {}
  }

  /** Its route is there exactly when the server is configured, and of the right kind. */
  ghost predicate RoutedAs(b: App, n: string, specs: map<string, ServerSpec>) {
    && (HasRoute(b.routes, n) <==> n in specs)
    && forall r | r in b.routes && r.name == n && n in specs :: r.target.Multi? <==> specs[n].HasIdentities()
  }

  lemma RouteFollows(b: App, n: string, specs: map<string, ServerSpec>)
    requires Coherent(b) && RunsAs(b, n, specs)
    ensures RoutedAs(b, n, specs)
  {
    ServersPersons(b, n);
    if n in specs {
      assert InstanceSpecs(specs[n]) != map[];
      assert exists p :: p in InstanceSpecs(specs[n]);
      assert None in Persons(b, n) <==> None in InstanceSpecs(specs[n]);
    }
  }

  lemma MatchRunsAs(b: App, n: string, specs: map<string, ServerSpec>)
    requires Matches(b, specs)
    ensures RunsAs(b, n, specs)
  {
    ServersPersons(b, n);
  }

  /** A targeted reload settles its server. */
  lemma TargetRunsAs(a: App, b: App, n: string, specs: map<string, ServerSpec>)
    requires ServerDone(a, b, n, EntryOf(specs, n), true)
    ensures RunsAs(b, n, specs)
  {
    if n in specs {
      forall p | p in InstanceSpecs(specs[n])
        ensures At(b, n, p).Some? && At(b, n, p).value.spec == InstanceSpecs(specs[n])[p]
      {
        assert InstanceDone(a, b, n, specs[n], true, p);
      }
    }
  }

  /** It leaves the other servers as they were. */
  lemma OtherRunsAs(a: App, b: App, name: string, entry: Option<ServerSpec>, n: string, specs: map<string, ServerSpec>)
    requires Coherent(a) && Coherent(b) && ServerDone(a, b, name, entry, true)
    requires n != name && GoodNames(specs) && RunsAs(a, n, specs)
    ensures RunsAs(b, n, specs)
  {
    OtherServer(a, b, name, n);
  }

  lemma {:induction false} DecidingGood(boot: map<string, ServerSpec>, reloads: seq<Reload>, n: string)
    requires GoodNames(boot) && forall r | r in reloads :: GoodNames(r.specs)
    ensures GoodNames(Deciding(boot, reloads, n))
  {
    if reloads != [] {
      DecidingGood(boot, reloads[..|reloads| - 1], n);
    }
  }

  lemma ReloadRunsAs(a: App, b: App, r: Reload, n: string, before: map<string, ServerSpec>)
    requires Coherent(a) && GoodNames(r.specs) && GoodNames(before) && Reloaded(a, b, r) && RunsAs(a, n, before)
    ensures Coherent(b) && RunsAs(b, n, if r.target.None? || r.target == Some(n) then r.specs else before)
    ensures r.target.None? ==> Matches(b, r.specs)
  {
    hide Coherent, ServerDone, RunsAs, Chain, Matches, GoodNames;
    if r.target.None? {
      var order :| Covers(order, a, r.specs) && Chain(a, b, order, r.specs);
      FullReconcileMatches(a, b, order, r.specs);
      MatchRunsAs(b, n, r.specs);
    } else {
      var name := r.target.value;
      if name !in r.specs && name !in Servers(a) {
        NothingRuns(a, name, r.specs);
      } else {
        TargetRunsAs(a, b, name, r.specs);
        if n != name {
          OtherRunsAs(a, b, name, EntryOf(r.specs, name), n, before);
        }
      }
    }
  }

  lemma NothingRuns(a: App, n: string, specs: map<string, ServerSpec>)
    requires n !in specs && n !in Servers(a)
    ensures RunsAs(a, n, specs)
  {
    ServersPersons(a, n);
  }

  lemma Shorter(boot: map<string, ServerSpec>, reloads: seq<Reload>, states: seq<App>, k: nat)
    requires History(boot, reloads, states) && k <= |reloads|
    ensures History(boot, reloads[..k], states[..k + 1])
  {
  }

  /**
   At any point of any history every server runs what the last reload that dealt with it wanted: its
   own, or one of all servers, or the boot. Reloads of other servers and reloads of unknown names,
   with whatever configs, make no difference. Its route is of the right kind.
   */
  lemma {:induction false} EachServerAsLastReloaded(boot: map<string, ServerSpec>, reloads: seq<Reload>, states: seq<App>, n: string)
    requires History(boot, reloads, states)
    ensures var last := states[|reloads|]; var specs := Deciding(boot, reloads, n);
            Coherent(last) && RunsAs(last, n, specs) && RoutedAs(last, n, specs)
    decreases |reloads|
  {
    hide Coherent, RunsAs, RoutedAs, Reloaded, Matches, GoodNames;
    if reloads == [] {
      MatchRunsAs(states[0], n, boot);
    } else {
      var k := |reloads| - 1;
      Shorter(boot, reloads, states, k);
      EachServerAsLastReloaded(boot, reloads[..k], states[..k + 1], n);
      DecidingGood(boot, reloads[..k], n);
      ReloadRunsAs(states[k], states[k + 1], reloads[k], n, Deciding(boot, reloads[..k], n));
    }
    RouteFollows(states[|reloads|], n, Deciding(boot, reloads, n));
  }

  /** After every reload of all servers the gateway matches its config, whatever reloads came before. */
  lemma FullReloadMatches(boot: map<string, ServerSpec>, reloads: seq<Reload>, states: seq<App>, i: nat)
    requires History(boot, reloads, states) && i < |reloads| && reloads[i].target.None?
    ensures Coherent(states[i + 1]) && Matches(states[i + 1], reloads[i].specs)
  {
    hide Coherent, RunsAs, RoutedAs, Matches, Chain;
    Shorter(boot, reloads, states, i);
    EachServerAsLastReloaded(boot, reloads[..i], states[..i + 1], "");
    var order :| Covers(order, states[i], reloads[i].specs) && Chain(states[i], states[i + 1], order, reloads[i].specs);
    FullReconcileMatches(states[i], states[i + 1], order, reloads[i].specs);
  }
}
