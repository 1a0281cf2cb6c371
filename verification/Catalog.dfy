/** Catalog entries: who may reach a server, and the upstream instances one entry stands for. */
module Catalog {
  import opened Wrappers
  import opened Text

  /** A value of a connect config: text, a list, or a table such as `env` and `headers`. */
  datatype Value = Plain(text: string) | Items(items: seq<string>) | Table(table: map<string, string>)

  type Connect = map<string, Value>

  datatype ToolFilter = ToolFilter(allow: seq<string>, deny: seq<string>)

  /** Who may reach a server: everybody (`allow: all`), or the named persons and groups. */
  datatype Allow = All | Only(names: set<string>)

  datatype ServerSpec = ServerSpec(
    name: string,
    transport: Option<string>,
    connect: Connect,
    filter: ToolFilter,
    toolClasses: map<string, string>,
    urlArgs: string,
    allow: Allow,
    identities: map<string, Connect>)
  {
    predicate HasIdentities() { identities != map[] }

    predicate PermitsPerson(person: Option<string>, group: Option<string>) {
      if allow.All? then true
      else if group.Some? && group.value in allow.names then true
      else if person.None? || person.value == "unknown" then false
      else person.value in allow.names
    }

    function InstanceKey(person: Option<string>, group: Option<string>): Option<string> {
      if person.Some? && person.value in identities && (allow.Only? && person.value in allow.names) then person
      else if group.Some? && group.value in identities && (allow.Only? && group.value in allow.names) then group
      else None
    }

    /** `disabled_reason is not None`: some credential expanded to nothing. */
    predicate IsDisabled() { BlankCredential(connect) }
  }

  // --- blank credentials ------------------------------------------------------

  const AUTH_SCHEMES := {"bearer", "basic", "token", "apikey"}

  predicate BlankHeader(value: string) {
    Strip(value) == "" || Lower(Strip(value)) in AUTH_SCHEMES
  }

  predicate BlankIn(connect: Connect, table: string, blank: string -> bool) {
    && table in connect && connect[table].Table?
    && exists k :: k in connect[table].table && blank(connect[table].table[k])
  }

  predicate BlankCredential(connect: Connect) {
    BlankIn(connect, "env", value => Strip(value) == "") || BlankIn(connect, "headers", BlankHeader)
  }

  // --- connect overrides --------------------------------------------------------

  /** One key of the merge: two tables merge, anything else is replaced. */
  function MergeValue(base: Connect, key: string, value: Value): Value {
    if value.Table? && key in base && base[key].Table? then Table(base[key].table + value.table) else value
  }

  function MergeConnect(base: Connect, overrides: Connect): (merged: Connect)
    ensures merged.Keys == base.Keys + overrides.Keys
  {
    map key | key in base.Keys + overrides.Keys ::
      if key in overrides then MergeValue(base, key, overrides[key]) else base[key]
  }

  /** `_merge_connect`: the overrides are applied one key at a time. */
  method Merge(base: Connect, overrides: Connect) returns (merged: Connect)
    ensures merged == MergeConnect(base, overrides)
  {
    merged := base;
    var todo := overrides.Keys;
    while todo != {}
      invariant todo <= overrides.Keys
      invariant merged.Keys == base.Keys + (overrides.Keys - todo)
      invariant forall key | key in merged ::
                  merged[key] == if key in overrides && key !in todo then MergeValue(base, key, overrides[key])
                                 else base[key]
      decreases todo
    {
      var key :| key in todo;
      var value := overrides[key];
      if value.Table? && key in merged && merged[key].Table? {
        merged := merged[key := Table(merged[key].table + value.table)];
      } else {
        merged := merged[key := value];
      }
      todo := todo - {key};
    }
  }

  /** The text a config finally carries for one entry of one of its tables. */
  function Entry(connect: Connect, table: string, key: string): Option<string> {
    if table in connect && connect[table].Table? && key in connect[table].table then Some(connect[table].table[key])
    else None
  }

  /** An identity's own credential wins; every other credential of the server stays. */
  lemma MergeKeepsCredentials(base: Connect, overrides: Connect, table: string, key: string)
    requires table in overrides ==> overrides[table].Table?
    ensures Entry(MergeConnect(base, overrides), table, key) ==
            (if Entry(overrides, table, key).Some? then Entry(overrides, table, key) else Entry(base, table, key))
  {
  }

  // --- instances ------------------------------------------------------------------

  function InstanceName(name: string, person: Option<string>): string {
    if person.None? then name else name + ":" + person.value
  }

  /** A server name holds no colon, so its instance names never collide. */
  lemma InstanceNameInjective(m: string, p: Option<string>, n: string, q: Option<string>)
    requires ':' !in m && ':' !in n && InstanceName(m, p) == InstanceName(n, q)
    ensures m == n && p == q
  {
    var s := InstanceName(m, p);
    assert s[..|m|] == m && s[..|n|] == n;
    FindUnique(s, ':', |m|);
    FindUnique(s, ':', |n|);
    if p.Some? {
      assert s[|m| + 1..] == p.value;
      assert s[|n| + 1..] == q.value;
    }
  }

  /** The instances one entry wants, keyed by the person each one serves. */
  function InstanceSpecs(spec: ServerSpec): (wanted: map<Option<string>, ServerSpec>)
    ensures wanted != map[]
    ensures spec.HasIdentities() <==> None !in wanted
    ensures !spec.HasIdentities() ==> wanted == map[None := spec]
    ensures spec.HasIdentities() ==> forall p :: Some(p) in wanted <==> p in spec.identities
    ensures forall p | p in wanted :: wanted[p] == SpecFor(spec, p)
  {
    if spec.identities == map[] then
      var shared := map[None := spec];
      assert None in shared;
      shared
    else
      assert exists p :: p in spec.identities;
      var wanted := map p | p in (set i | i in spec.identities :: Some(i)) :: SpecFor(spec, p);
      assert forall i | i in spec.identities :: Some(i) in wanted;
      wanted
  }

  function SpecFor(spec: ServerSpec, person: Option<string>): ServerSpec {
    if person.Some? && person.value in spec.identities then
      spec.(connect := MergeConnect(spec.connect, spec.identities[person.value]))
    else spec
  }

  /** A session must reconnect to apply `want`: a connect, transport or tool filter change. */
  predicate RestartNeeded(have: ServerSpec, want: ServerSpec) {
    want.connect != have.connect || want.transport != have.transport || want.filter != have.filter
  }
}
