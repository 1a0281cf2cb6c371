/**
 The two access gates: core decides which servers to open, the gateway decides which requests to
 let in. Both read the same validated config.
 */
module Gates {
  import opened Wrappers
  import opened Text
  import opened Catalog
  import opened Reconcile
  import opened ReconcileCatalog

  datatype AllowField = AllowAll | AllowList(ids: seq<string>)

  datatype McpServer = McpServer(transport: Option<string>, connect: Connect, filter: ToolFilter,
                                 toolClasses: map<string, string>, urlArgs: string,
                                 allow: AllowField, identities: map<string, Connect>)

  datatype Group = Group(id: string, members: seq<string>)

  /** The parts of a config the gates read; `mcp` is in config order. */
  datatype Config = Config(people: seq<string>, groups: seq<Group>, mcp: seq<(string, McpServer)>)

  // --- validation -----------------------------------------------------------------

  predicate IdChar(c: char) {
    'a' <= c <= 'z' || '0' <= c <= '9'
  }

  /** `^[a-z0-9][a-z0-9-]{0,31}\Z` */
  predicate IsPersonId(id: string) {
    1 <= |id| <= 32 && IdChar(id[0]) && forall i :: 1 <= i < |id| ==> IdChar(id[i]) || id[i] == '-'
  }

  /** `^[a-z][a-z0-9-]{0,31}$`; the dollar also matches before one final line break. */
  predicate IsServerName(name: string) {
    var n := if name != "" && name[|name| - 1] == '\n' then name[..|name| - 1] else name;
    IsPersonId(n) && 'a' <= n[0] <= 'z'
  }

  function GroupIds(cfg: Config): set<string> {
    set g | g in cfg.groups :: g.id
  }

  predicate GroupTrusted(cfg: Config, id: string) {
    && IsPersonId(id)
    && (forall i, j :: 0 <= i < j < |cfg.groups| ==> !(cfg.groups[i].id == id && cfg.groups[j].id == id))
    && (forall g | g in cfg.groups && g.id == id :: g.members != [])
  }

  /** `_check_mcp` accepts the entry `name`. */
  predicate EntryValid(cfg: Config, name: string, server: McpServer) {
    && IsServerName(name)
    && (server.allow.AllowList? ==> forall id | id in server.allow.ids ::
          && !(id in cfg.people && id in GroupIds(cfg))
          && (if id in GroupIds(cfg) then GroupTrusted(cfg, id) else id in cfg.people))
    && (forall id | id in server.identities ::
          || (id in GroupIds(cfg) && server.allow.AllowList? && id in server.allow.ids)
          || id in cfg.people)
    && (server.identities != map[] ==>
          && server.allow.AllowList?
          && forall id | id in server.allow.ids :: id in server.identities)
  }

  /** What the validators guarantee of every loaded config. */
  predicate Valid(cfg: Config) {
    && (forall p | p in cfg.people :: IsPersonId(p))
    && (forall e | e in cfg.mcp :: EntryValid(cfg, e.0, e.1))
    && (forall i, j :: 0 <= i < j < |cfg.mcp| ==> cfg.mcp[i].0 != cfg.mcp[j].0)
  }

  // --- core's side ------------------------------------------------------------------

  predicate CorePermits(server: McpServer, person: Option<string>, group: Option<string>) {
    if server.allow.AllowAll? then true
    else if group.Some? && group.value in server.allow.ids then true
    else if person.None? || person.value == "unknown" then false
    else person.value in server.allow.ids
  }

  /** `allowed_gateway_servers`. */
  function AllowedServers(mcp: seq<(string, McpServer)>, person: Option<string>, group: Option<string>): seq<string> {
    if mcp == [] then []
    else (if CorePermits(mcp[0].1, person, group) then [mcp[0].0] else []) + AllowedServers(mcp[1..], person, group)
  }

  /** The person header core sends: `person_id or "unknown"`. */
  function PersonHeader(person: Option<string>): string {
    if person.None? || person.value == "" then "unknown" else person.value
  }

  // --- the gateway's side -------------------------------------------------------------

  function BuildSpec(name: string, server: McpServer): ServerSpec {
    ServerSpec(name, server.transport, server.connect, server.filter, server.toolClasses, server.urlArgs,
               if server.allow.AllowAll? then All else Only(set id | id in server.allow.ids),
               server.identities)
  }

  /** `build_catalog`. */
  function BuildCatalog(mcp: seq<(string, McpServer)>): map<string, ServerSpec> {
    if mcp == [] then map[]
    else BuildCatalog(mcp[1..])[mcp[0].0 := BuildSpec(mcp[0].0, mcp[0].1)]
  }

  datatype Attribution = Attribution(person: Option<string>, group: Option<string>)

  /** The trusted headers, stripped; empty counts as absent. None is a 400. */
  function Resolve(cfg: Config, personHeader: string, groupHeader: Option<string>): Option<Attribution> {
    var person := if Strip(personHeader) == "" then None else Some(Strip(personHeader));
    var group := if groupHeader.None? || Strip(groupHeader.value) == "" then None else Some(Strip(groupHeader.value));
    if person.Some? && person.value != "unknown" && !(IsPersonId(person.value) && person.value in cfg.people) then None
    else if group.Some? && group.value !in GroupIds(cfg) then None
    else Some(Attribution(person, group))
  }

  /** How the gateway answers a request of core on the route of `spec`. */
  datatype Admission = BadRequest | Forbidden | Admitted(key: Option<string>)

  function Admit(cfg: Config, spec: ServerSpec, personHeader: string, groupHeader: Option<string>): Admission {
    match Resolve(cfg, personHeader, groupHeader)
    case None => BadRequest
    case Some(attr) =>
      if spec.HasIdentities() then
        if attr.person.None? || !spec.PermitsPerson(attr.person, attr.group) then Forbidden
        else
          var key := spec.InstanceKey(attr.person, attr.group);
          if key.None? then Forbidden else Admitted(key)
      else if spec.PermitsPerson(attr.person, attr.group) then Admitted(None)
      else Forbidden
  }

  /** A caller core can have: a person of the roster or nobody, in a configured group or none. */
  predicate Caller(cfg: Config, person: Option<string>, group: Option<string>) {
    && (person.Some? ==> person.value in cfg.people || person.value == "unknown")
    && (group.Some? ==> group.value in GroupIds(cfg))
  }

  lemma PersonIdPlain(id: string)
    requires IsPersonId(id)
    ensures Strip(id) == id && id != "" && ':' !in id
  {
    assert forall i :: 0 <= i < |id| ==> IdChar(id[i]) || id[i] == '-';
    StripNoSpace(id);
  }

  /** The group that the gateway reads from the header: a blank one counts as none. */
  function Seen(group: Option<string>): Option<string> {
    if group.None? || Strip(group.value) == "" then None else Some(Strip(group.value))
  }

  /** The gateway strips the group header, and what is left names no group. */
  predicate GroupLost(cfg: Config, group: Option<string>) {
    Seen(group).Some? && Seen(group).value !in GroupIds(cfg)
  }

  /** Headers carry the person over; nobody becomes `unknown`, and a group arrives without its outer white space. */
  lemma HeadersArrive(cfg: Config, person: Option<string>, group: Option<string>)
    requires Valid(cfg) && Caller(cfg, person, group)
    ensures Resolve(cfg, PersonHeader(person), group) ==
            if GroupLost(cfg, group) then None else Some(Attribution(Some(PersonHeader(person)), Seen(group)))
  {
    StripNoSpace("unknown");
    if person.Some? && person.value in cfg.people {
      PersonIdPlain(person.value);
    }
  }

  /** The server is open to the person by name, or to everybody. */
  predicate OpenToPerson(server: McpServer, person: Option<string>) {
    server.allow.AllowAll? || (person.Some? && person.value != "unknown" && person.value in server.allow.ids)
  }

  /** A group that an allow list names arrives as it is. */
  lemma ListedGroupArrives(cfg: Config, name: string, server: McpServer, group: string)
    requires Valid(cfg) && EntryValid(cfg, name, server) && server.allow.AllowList? && group in server.allow.ids
    ensures Seen(Some(group)) == Some(group)
  {
    if group in GroupIds(cfg) {
      assert GroupTrusted(cfg, group);
    }
    PersonIdPlain(group);
  }

  /** What core permits, and what the gateway permits with the group as it sees it. */
  lemma PermissionsMeet(cfg: Config, name: string, server: McpServer, person: Option<string>, group: Option<string>)
    requires Valid(cfg) && EntryValid(cfg, name, server) && Caller(cfg, person, group)
    ensures CorePermits(server, person, group) <==>
              OpenToPerson(server, person) || (group.Some? && group.value in server.allow.ids)
    ensures BuildSpec(name, server).PermitsPerson(Some(PersonHeader(person)), Seen(group)) <==>
              OpenToPerson(server, person) || (Seen(group).Some? && Seen(group).value in server.allow.ids)
  {
    if person.Some? && person.value in cfg.people {
      PersonIdPlain(person.value);
    }
  }

  /**
   The group id has white space around it, and that decides: without it the id names no group, and
   the server is open to the person anyway; or it names a group that the server admits, and the
   server is not open to the person.
   */
  predicate Misled(cfg: Config, server: McpServer, person: Option<string>, group: Option<string>) {
    && Seen(group).Some? && Seen(group) != group
    && if Seen(group).value in GroupIds(cfg) then
         !OpenToPerson(server, person) && Seen(group).value in server.allow.ids
       else OpenToPerson(server, person)
  }

  /** On the group as the gateway sees it, a permitted caller of core is one of the gateway too, unless misled. */
  lemma SamePermission(cfg: Config, name: string, server: McpServer, person: Option<string>, group: Option<string>)
    requires Valid(cfg) && EntryValid(cfg, name, server) && Caller(cfg, person, group)
    ensures (CorePermits(server, person, group) <==>
             !GroupLost(cfg, group) && BuildSpec(name, server).PermitsPerson(Some(PersonHeader(person)), Seen(group)))
            <==> !Misled(cfg, server, person, group)
  {
    PermissionsMeet(cfg, name, server, person, group);
    if server.allow.AllowList? && group.Some? && group.value in server.allow.ids {
      ListedGroupArrives(cfg, name, server, group.value);
    }
  }

  /** A permitted request on an identity server always has an identity to run under. */
  lemma KeyExists(cfg: Config, name: string, server: McpServer, person: string, group: Option<string>)
    requires EntryValid(cfg, name, server) && server.identities != map[]
    requires BuildSpec(name, server).PermitsPerson(Some(person), group)
    ensures var key := BuildSpec(name, server).InstanceKey(Some(person), group);
            key.Some? && key.value in server.identities
  {
  }

  /** What the gateway answers: a 400 for a lost group, else what it permits, with a key on identity servers. */
  lemma AdmitAnswers(cfg: Config, name: string, server: McpServer, person: Option<string>, group: Option<string>)
    requires Valid(cfg) && EntryValid(cfg, name, server) && Caller(cfg, person, group)
    ensures var answer := Admit(cfg, BuildSpec(name, server), PersonHeader(person), group);
            && (answer.BadRequest? <==> GroupLost(cfg, group))
            && (answer.Admitted? <==>
                  !GroupLost(cfg, group) && BuildSpec(name, server).PermitsPerson(Some(PersonHeader(person)), Seen(group)))
            && (answer.Admitted? ==> (answer.key.Some? <==> server.identities != map[]))
            && (answer.Admitted? && answer.key.Some? ==> answer.key.value in server.identities)
  {
    HeadersArrive(cfg, person, group);
    if server.identities != map[] && BuildSpec(name, server).PermitsPerson(Some(PersonHeader(person)), Seen(group)) {
      KeyExists(cfg, name, server, PersonHeader(person), Seen(group));
    }
  }

  /**
   The gateway answers core with a 400 exactly when the group id, without the white space around it,
   is not blank and names no group. It admits exactly what core permits, unless the white space
   misleads it. A request it admits on an identity server has an identity to run under.
   */
  lemma GatesAgree(cfg: Config, name: string, server: McpServer, person: Option<string>, group: Option<string>)
    requires Valid(cfg) && EntryValid(cfg, name, server) && Caller(cfg, person, group)
    ensures var answer := Admit(cfg, BuildSpec(name, server), PersonHeader(person), group);
            && (answer.BadRequest? <==> group.Some? && Strip(group.value) != "" && Strip(group.value) !in GroupIds(cfg))
            && ((answer.Admitted? <==> CorePermits(server, person, group)) <==> !Misled(cfg, server, person, group))
            && (answer.Admitted? ==> (answer.key.Some? <==> server.identities != map[]))
            && (answer.Admitted? && answer.key.Some? ==> answer.key.value in server.identities)
  {
    AdmitAnswers(cfg, name, server, person, group);
    SamePermission(cfg, name, server, person, group);
  }

  // --- a group id with white space around it ----------------------------------------------

  const OPEN_SERVER := McpServer(None, map[], ToolFilter([], []), map[], "", AllowAll, map[])
  const GROUP_SERVER := McpServer(None, map[], ToolFilter([], []), map[], "", AllowList(["g"]), map[])

  lemma SpacedStrip()
    ensures Strip(" g") == "g" && " g" != "g"
  {
    assert " g"[1..] == "g";
    StripNoSpace("g");
    assert StripLeft(" g") == StripLeft("g") == "g";
  }

  /** A valid config on which core opens a server to everybody and the gateway answers 400. */
  lemma SpacedGroupIsRefused()
    ensures var cfg := Config(["alex"], [Group(" g", ["x"])], [("notes", OPEN_SERVER)]);
            && Valid(cfg) && Caller(cfg, Some("alex"), Some(" g"))
            && "notes" in AllowedServers(cfg.mcp, Some("alex"), Some(" g"))
            && Admit(cfg, BuildSpec("notes", OPEN_SERVER), PersonHeader(Some("alex")), Some(" g")) == BadRequest
  {
    var cfg := Config(["alex"], [Group(" g", ["x"])], [("notes", OPEN_SERVER)]);
    assert Group(" g", ["x"]) in cfg.groups;
    SpacedStrip();
    assert cfg.mcp[0].0 == "notes" && |cfg.mcp| == 1;
    assert EntryValid(cfg, "notes", OPEN_SERVER);
    HeadersArrive(cfg, Some("alex"), Some(" g"));
  }

  /** A valid config on which the gateway takes one group for another and admits what core does not open. */
  lemma SpacedGroupIsMistaken()
    ensures var cfg := Config([], [Group(" g", ["x"]), Group("g", ["y"])], [("notes", GROUP_SERVER)]);
            && Valid(cfg) && Caller(cfg, None, Some(" g"))
            && "notes" !in AllowedServers(cfg.mcp, None, Some(" g"))
            && Admit(cfg, BuildSpec("notes", GROUP_SERVER), PersonHeader(None), Some(" g")) == Admitted(None)
  {
    var cfg := Config([], [Group(" g", ["x"]), Group("g", ["y"])], [("notes", GROUP_SERVER)]);
    SpacedStrip();
    assert cfg.groups[0].id == " g" && cfg.groups[1].id == "g";
    assert Group(" g", ["x"]) in cfg.groups && Group("g", ["y"]) in cfg.groups;
    assert EntryValid(cfg, "notes", GROUP_SERVER);
    HeadersArrive(cfg, None, Some(" g"));
    assert "g" in GROUP_SERVER.allow.ids;
  }

  // --- whole configs ------------------------------------------------------------------

  lemma {:induction false} AllowedMembers(mcp: seq<(string, McpServer)>, person: Option<string>, group: Option<string>, name: string)
    ensures name in AllowedServers(mcp, person, group) <==>
            exists i :: 0 <= i < |mcp| && mcp[i].0 == name && CorePermits(mcp[i].1, person, group)
  {
    if mcp != [] {
      AllowedMembers(mcp[1..], person, group, name);
      assert forall i :: 0 <= i < |mcp| - 1 ==> mcp[1..][i] == mcp[i + 1];
      if i :| 0 <= i < |mcp| && mcp[i].0 == name && CorePermits(mcp[i].1, person, group) {
        assert i > 0 ==> mcp[1..][i - 1] == mcp[i];
      }
    }
  }

  lemma {:induction false} CatalogHolds(mcp: seq<(string, McpServer)>, i: nat)
    requires i < |mcp| && forall j, k :: 0 <= j < k < |mcp| ==> mcp[j].0 != mcp[k].0
    ensures mcp[i].0 in BuildCatalog(mcp) && BuildCatalog(mcp)[mcp[i].0] == BuildSpec(mcp[i].0, mcp[i].1)
  {
    if i > 0 {
      assert forall j :: 0 <= j < |mcp| - 1 ==> mcp[1..][j] == mcp[j + 1];
      CatalogHolds(mcp[1..], i - 1);
      assert mcp[0].0 != mcp[i].0;
    }
  }

  lemma {:induction false} CatalogNames(mcp: seq<(string, McpServer)>, name: string)
    ensures name in BuildCatalog(mcp) <==> exists i :: 0 <= i < |mcp| && mcp[i].0 == name
  {
    if mcp != [] {
      CatalogNames(mcp[1..], name);
      assert forall j :: 0 <= j < |mcp| - 1 ==> mcp[1..][j] == mcp[j + 1];
      if i :| 0 <= i < |mcp| && mcp[i].0 == name {
        assert i > 0 ==> mcp[1..][i - 1] == mcp[i];
      }
    }
  }

  /** Core's list and the gateway's gate say the same of one server of the catalog. */
  predicate AgreeOn(cfg: Config, person: Option<string>, group: Option<string>, name: string) {
    name in AllowedServers(cfg.mcp, person, group) <==>
      name in BuildCatalog(cfg.mcp) && Admit(cfg, BuildCatalog(cfg.mcp)[name], PersonHeader(person), group).Admitted?
  }

  lemma AgreeOnEntry(cfg: Config, person: Option<string>, group: Option<string>, i: nat)
    requires Valid(cfg) && Caller(cfg, person, group) && i < |cfg.mcp|
    ensures AgreeOn(cfg, person, group, cfg.mcp[i].0) <==> !Misled(cfg, cfg.mcp[i].1, person, group)
  {
    var (name, server) := cfg.mcp[i];
    assert cfg.mcp[i] in cfg.mcp;
    AllowedMembers(cfg.mcp, person, group, name);
    CatalogHolds(cfg.mcp, i);
    GatesAgree(cfg, name, server, person, group);
  }

  /**
   The servers core opens for a caller are exactly those whose gate lets that caller in, if and only
   if no configured server is misled by white space around the group id.
   */
  lemma OpenedServersAreAdmitted(cfg: Config, person: Option<string>, group: Option<string>)
    requires Valid(cfg) && Caller(cfg, person, group)
    ensures (forall name :: AgreeOn(cfg, person, group, name)) <==>
            forall e | e in cfg.mcp :: !Misled(cfg, e.1, person, group)
  {
    if forall name :: AgreeOn(cfg, person, group, name) {
      forall e | e in cfg.mcp ensures !Misled(cfg, e.1, person, group) {
        var i :| 0 <= i < |cfg.mcp| && cfg.mcp[i] == e;
        AgreeOnEntry(cfg, person, group, i);
        assert AgreeOn(cfg, person, group, e.0);
      }
    }
    if forall e | e in cfg.mcp :: !Misled(cfg, e.1, person, group) {
      forall name ensures AgreeOn(cfg, person, group, name) {
        AllowedMembers(cfg.mcp, person, group, name);
        CatalogNames(cfg.mcp, name);
        if i :| 0 <= i < |cfg.mcp| && cfg.mcp[i].0 == name {
          assert cfg.mcp[i] in cfg.mcp;
          AgreeOnEntry(cfg, person, group, i);
        }
      }
    }
  }

  /** An id without white space around it misleads no server. */
  lemma PlainGroupNeverMisleads(cfg: Config, server: McpServer, person: Option<string>, group: Option<string>)
    requires group.Some? ==> Strip(group.value) == group.value || Strip(group.value) == ""
    ensures !Misled(cfg, server, person, group)
  {
  }

  /** Once reconciled, the instance that the gateway picks for an admitted caller is running. */
  lemma AdmittedInstanceRuns(cfg: Config, person: Option<string>, group: Option<string>, name: string, b: App)
    requires Valid(cfg) && Caller(cfg, person, group) && Matches(b, BuildCatalog(cfg.mcp)) && name in BuildCatalog(cfg.mcp)
    ensures var answer := Admit(cfg, BuildCatalog(cfg.mcp)[name], PersonHeader(person), group);
            answer.Admitted? ==> At(b, name, answer.key).Some?
  {
    CatalogNames(cfg.mcp, name);
    var i :| 0 <= i < |cfg.mcp| && cfg.mcp[i].0 == name;
    assert cfg.mcp[i] in cfg.mcp;
    var server := cfg.mcp[i].1;
    CatalogHolds(cfg.mcp, i);
    AdmitAnswers(cfg, name, server, person, group);
    var answer := Admit(cfg, BuildSpec(name, server), PersonHeader(person), group);
    if answer.Admitted? {
      assert answer.key in InstanceSpecs(BuildSpec(name, server));
    }
  }

  lemma ServerNamePlain(name: string)
    requires IsServerName(name)
    ensures ':' !in name
  {
    var n := if name[|name| - 1] == '\n' then name[..|name| - 1] else name;
    PersonIdPlain(n);
    assert name == n || name == n + "\n";
  }

  /** A valid config gives the catalog names that reconciliation needs. */
  lemma CatalogNamesAreGood(cfg: Config)
    requires Valid(cfg)
    ensures GoodNames(BuildCatalog(cfg.mcp))
  {
    forall n | n in BuildCatalog(cfg.mcp) ensures ':' !in n {
      CatalogNames(cfg.mcp, n);
      var i :| 0 <= i < |cfg.mcp| && cfg.mcp[i].0 == n;
      assert cfg.mcp[i] in cfg.mcp;
      ServerNamePlain(n);
    }
  }
}
