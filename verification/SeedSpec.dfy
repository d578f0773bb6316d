/** The tables that cmd/seed/main.go reconciles, and what each of its statements and loops does to
    them when no statement fails by accident. */
module SeedSpec {
  import opened Base

  type Id = Uuid
  type Tenant = Uuid

  /** `Aborted`: the statement failed by accident, or an earlier failure aborted the transaction. */
  datatype Error = NotFound | NotSingular | Duplicate | ForeignKey | NotSeeded | Aborted

  // Rows. Creation and update times are left out.
  datatype PermInfo = PermInfo(name: string, mod: string, action: string, resource: string, desc: string)
  datatype Perm = Perm(code: string, info: PermInfo)
  datatype RoleInfo = RoleInfo(name: string, desc: string, system: bool)
  datatype Role = Role(tenant: Option<Tenant>, code: string, info: RoleInfo)
  datatype LegacyPerm = LegacyPerm(name: string, mod: string, desc: string)
  datatype LegacyRole = LegacyRole(name: string, desc: string, scope: string, system: bool)
  datatype Setting = Setting(value: string, kind: string, desc: string, secret: bool)
  datatype Config = Config(tenant: Option<Tenant>, key: string, setting: Setting)
  datatype SyncEvent = SyncEvent(slug: string, payload: string, status: string, attempts: nat)

  /** A database. `grants` is the role_permissions junction (role id, permission id), `links` the
      legacy role-to-permission junction; both without row ids. */
  datatype Db = Db(
    perms: map<Id, Perm>,
    roles: map<Id, Role>,
    grants: set<(Id, Id)>,
    legacyPerms: map<Id, LegacyPerm>,
    legacyRoles: map<string, LegacyRole>,
    links: set<(string, Id)>,
    configs: seq<Config>,
    events: map<(Tenant, string), SyncEvent>)

  /** The name-based UUIDs, as functions of what they hash. */
  datatype Names = Names(perm: string -> Id, legacyPerm: string -> Id, role: (Tenant, string) -> Id)

  datatype PermSpec = PermSpec(code: string, info: PermInfo)
  datatype RoleSpec = RoleSpec(code: string, info: RoleInfo, perms: seq<string>)
  datatype LegacyPermSpec = LegacyPermSpec(code: string, row: LegacyPerm)
  datatype LegacyRoleSpec = LegacyRoleSpec(code: string, row: LegacyRole)
  datatype ConfigSpec = ConfigSpec(key: string, setting: Setting)

  /** The lists a seeding run works from. `legacyGrants` is a Go map: it is walked in any order. */
  datatype Plan = Plan(
    names: Names,
    retiredPrefix: string,
    retiredModule: string,
    retiredKeys: set<string>,
    destinations: seq<string>,
    legacyPerms: seq<LegacyPermSpec>,
    legacyRoles: seq<LegacyRoleSpec>,
    legacyGrants: map<string, seq<string>>,
    perms: seq<PermSpec>,
    roles: seq<RoleSpec>,
    configs: seq<ConfigSpec>)

  // ---------------------------------------------------------------------------------------
  // Retired features

  predicate Retired(plan: Plan, code: string) { plan.retiredPrefix <= code }

  function RetiredIds(plan: Plan, perms: map<Id, Perm>): set<Id> {
    set id | id in perms && Retired(plan, perms[id].code)
  }

  function RetiredLegacyIds(plan: Plan, perms: map<Id, LegacyPerm>): set<Id> {
    set id | id in perms && perms[id].mod == plan.retiredModule
  }

  function WithoutPerms<K(==)>(junction: set<(K, Id)>, ids: set<Id>): set<(K, Id)> {
    set g | g in junction && g.1 !in ids
  }

  function RetirePerms(plan: Plan, db: Db): Db {
    var ids, legacy := RetiredIds(plan, db.perms), RetiredLegacyIds(plan, db.legacyPerms);
    db.(grants := WithoutPerms(db.grants, ids), perms := db.perms - ids,
        links := WithoutPerms(db.links, legacy), legacyPerms := db.legacyPerms - legacy)
  }

  function KeepConfigs(configs: seq<Config>, gone: set<string>): seq<Config> {
    if configs == [] then []
    else
      KeepConfigs(configs[..|configs| - 1], gone) +
      if configs[|configs| - 1].key in gone then [] else [configs[|configs| - 1]]
  }

  // ---------------------------------------------------------------------------------------
  // Upserts by key

  /** Creates or updates one row of a keyed table: `put` sees the old row, if any. */
  function Upsert<K, S, R>(t: map<K, R>, key: K, s: S, put: (Option<R>, S) -> R): map<K, R> {
    t[key := put(if key in t then Some(t[key]) else None, s)]
  }

  function UpsertAll<K, S, R>(t: map<K, R>, keys: seq<K>, specs: seq<S>, put: (Option<R>, S) -> R): map<K, R>
    requires |keys| == |specs|
  {
    if specs == [] then t
    else
      Upsert(UpsertAll(t, keys[..|keys| - 1], specs[..|specs| - 1], put), keys[|keys| - 1], specs[|specs| - 1], put)
  }

  function PutLegacyPerm(was: Option<LegacyPerm>, s: LegacyPermSpec): LegacyPerm { s.row }

  function PutLegacyRole(was: Option<LegacyRole>, s: LegacyRoleSpec): LegacyRole { s.row }

  /** A sync event that exists only gets the new payload (the slug it carries); its own slug and
      delivery state stay. */
  function PutEvent(slug: string): (Option<SyncEvent>, string) -> SyncEvent {
    (was: Option<SyncEvent>, dest: string) =>
      match was
      case Some(e) => e.(payload := slug)
      case None => SyncEvent(slug, slug, "pending", 0)
  }

  function EventKeys(t: Tenant, destinations: seq<string>): (r: seq<(Tenant, string)>)
    ensures |r| == |destinations|
  {
    seq(|destinations|, k requires 0 <= k < |destinations| => (t, destinations[k]))
  }

  function LegacyPermKeys(plan: Plan): (r: seq<Id>)
    ensures |r| == |plan.legacyPerms|
  {
    seq(|plan.legacyPerms|, k requires 0 <= k < |plan.legacyPerms| => plan.names.legacyPerm(plan.legacyPerms[k].code))
  }

  function LegacyRoleKeys(plan: Plan): (r: seq<string>)
    ensures |r| == |plan.legacyRoles|
  {
    seq(|plan.legacyRoles|, k requires 0 <= k < |plan.legacyRoles| => plan.legacyRoles[k].code)
  }

  // ---------------------------------------------------------------------------------------
  // Platform configs: found by key with no tenant, updated wherever found, else created

  predicate HasPlatformKey(configs: seq<Config>, key: string) {
    exists k :: 0 <= k < |configs| && configs[k].tenant.None? && configs[k].key == key
  }

  function SetPlatform(configs: seq<Config>, s: ConfigSpec): (r: seq<Config>)
    ensures |r| == |configs|
  {
    seq(|configs|, k requires 0 <= k < |configs| =>
      if configs[k].tenant.None? && configs[k].key == s.key then configs[k].(setting := s.setting) else configs[k])
  }

  function UpsertConfig(configs: seq<Config>, s: ConfigSpec): seq<Config> {
    if HasPlatformKey(configs, s.key) then SetPlatform(configs, s) else configs + [Config(None, s.key, s.setting)]
  }

  function UpsertConfigs(configs: seq<Config>, specs: seq<ConfigSpec>): seq<Config> {
    if specs == [] then configs
    else UpsertConfig(UpsertConfigs(configs, specs[..|specs| - 1]), specs[|specs| - 1])
  }

  // ---------------------------------------------------------------------------------------
  // Legacy role links

  /** The ids under which a role's codes were seeded; None when one was not. */
  function LookUp(names: Names, seeded: set<string>, codes: seq<string>): Option<set<Id>> {
    if forall k :: 0 <= k < |codes| ==> codes[k] in seeded
    then Some(set k | 0 <= k < |codes| :: names.legacyPerm(codes[k]))
    else None
  }

  /** UpdateOneID(code).ClearLegacyPermissions().AddLegacyPermissionIDs(ids...). */
  function LinkRole(db: Db, code: string, ids: Option<set<Id>>): Result<Db, Error> {
    if ids.None? then Err(NotSeeded)
    else if code !in db.legacyRoles then Err(NotFound)
    else Ok(db.(links := (set l | l in db.links && l.0 != code) + (set id | id in ids.value :: (code, id))))
  }

  function LegacyCodes(plan: Plan): set<string> { set s | s in plan.legacyPerms :: s.code }

  /** The loop of seedRolePermissions over the map's entries in the order `order`. */
  function LinkInOrder(plan: Plan, db: Db, order: seq<string>): Result<Db, Error>
    requires forall c :: c in order ==> c in plan.legacyGrants
  {
    if order == [] then Ok(db)
    else
      match LinkInOrder(plan, db, order[..|order| - 1])
      case Err(e) => Err(e)
      case Ok(db) =>
        var code := order[|order| - 1];
        LinkRole(db, code, LookUp(plan.names, LegacyCodes(plan), plan.legacyGrants[code]))
  }

  // ---------------------------------------------------------------------------------------
  // Ordering permissions

  predicate CodeTaken(perms: map<Id, Perm>, code: string) {
    exists id :: id in perms && perms[id].code == code
  }

  function SetInfo(perms: map<Id, Perm>, s: PermSpec): map<Id, Perm> {
    map id | id in perms :: if perms[id].code == s.code then perms[id].(info := s.info) else perms[id]
  }

  /** Update where the code exists, else create under the hashed id, which must be free. */
  function UpsertPerm(names: Names, perms: map<Id, Perm>, s: PermSpec): Result<map<Id, Perm>, Error> {
    if CodeTaken(perms, s.code) then Ok(SetInfo(perms, s))
    else if names.perm(s.code) in perms then Err(Duplicate)
    else Ok(perms[names.perm(s.code) := Perm(s.code, s.info)])
  }

  function UpsertPerms(names: Names, perms: map<Id, Perm>, specs: seq<PermSpec>): Result<map<Id, Perm>, Error> {
    if specs == [] then Ok(perms)
    else
      match UpsertPerms(names, perms, specs[..|specs| - 1])
      case Err(e) => Err(e)
      case Ok(p) => UpsertPerm(names, p, specs[|specs| - 1])
  }

  function Codes(specs: seq<PermSpec>): set<string> { set s | s in specs :: s.code }

  // ---------------------------------------------------------------------------------------
  // Ordering roles and their grants

  function RoleIds(roles: map<Id, Role>, t: Tenant, code: string): set<Id> {
    set id | id in roles && roles[id].tenant == Some(t) && roles[id].code == code
  }

  /** Computed ids of the listed codes that were seeded; others are skipped with a warning. */
  function Resolve(names: Names, seeded: set<string>, codes: seq<string>): (ids: seq<Id>)
    ensures forall id :: id in ids <==> exists c :: c in codes && c in seeded && id == names.perm(c)
  {
    if codes == [] then []
    else
      Resolve(names, seeded, codes[..|codes| - 1]) +
      if codes[|codes| - 1] in seeded then [names.perm(codes[|codes| - 1])] else []
  }

  /** One insert per id. The junction's unique index and foreign key can refuse it; a refusal
      aborts the Postgres transaction, even one the code meant to skip. */
  function GrantEach(grants: set<(Id, Id)>, role: Id, ids: seq<Id>, perms: set<Id>): Result<set<(Id, Id)>, Error> {
    if ids == [] then Ok(grants)
    else
      match GrantEach(grants, role, ids[..|ids| - 1], perms)
      case Err(e) => Err(e)
      case Ok(g) =>
        var id := ids[|ids| - 1];
        if (role, id) in g then Err(Duplicate)
        else if id !in perms then Err(ForeignKey)
        else Ok(g + {(role, id)})
  }

  function Revoke(grants: set<(Id, Id)>, role: Id): set<(Id, Id)> {
    set g | g in grants && g.0 != role
  }

  function SetRoleInfo(roles: map<Id, Role>, ids: set<Id>, info: RoleInfo): map<Id, Role> {
    map id | id in roles :: if id in ids then roles[id].(info := info) else roles[id]
  }

  /** Creates the role under its hashed id, or updates it where it is; gives its id. */
  ghost function PlaceRole(names: Names, t: Tenant, roles: map<Id, Role>, s: RoleSpec): Result<(map<Id, Role>, Id),
        Error> {
    var ids := RoleIds(roles, t, s.code);
    if ids == {} then
      if names.role(t, s.code) in roles then Err(Duplicate)
      else Ok((roles[names.role(t, s.code) := Role(Some(t), s.code, s.info)], names.role(t, s.code)))
    else if |ids| > 1 then Err(NotSingular)
    else
      var id :| id in ids;
      Ok((SetRoleInfo(roles, ids, s.info), id))
  }

  ghost function SeedRole(plan: Plan, t: Tenant, db: Db, s: RoleSpec): Result<Db, Error> {
    match PlaceRole(plan.names, t, db.roles, s)
    case Err(e) => Err(e)
    case Ok((roles, id)) =>
      match GrantEach(Revoke(db.grants, id), id, Resolve(plan.names, Codes(plan.perms), s.perms), db.perms.Keys)
      case Err(e) => Err(e)
      case Ok(grants) => Ok(db.(roles := roles, grants := grants))
  }

  ghost function SeedRoles(plan: Plan, t: Tenant, db: Db, specs: seq<RoleSpec>): Result<Db, Error> {
    if specs == [] then Ok(db)
    else
      match SeedRoles(plan, t, db, specs[..|specs| - 1])
      case Err(e) => Err(e)
      case Ok(db) => SeedRole(plan, t, db, specs[|specs| - 1])
  }

  // ---------------------------------------------------------------------------------------
  // The whole run

  /** Up to the legacy roles: steps that cannot be refused. */
  function Prepare(plan: Plan, t: Tenant, slug: string, db: Db): Db {
    var db := db.(events := UpsertAll(db.events, EventKeys(t, plan.destinations), plan.destinations, PutEvent(slug)));
    var db := RetirePerms(plan, db);
    var db := db.(configs := KeepConfigs(db.configs, plan.retiredKeys));
    var db := db.(legacyPerms := UpsertAll(db.legacyPerms, LegacyPermKeys(plan), plan.legacyPerms, PutLegacyPerm));
    db.(legacyRoles := UpsertAll(db.legacyRoles, LegacyRoleKeys(plan), plan.legacyRoles, PutLegacyRole))
  }

  /** From the ordering permissions on. */
  ghost function Finish(plan: Plan, t: Tenant, db: Db): Result<Db, Error> {
    match UpsertPerms(plan.names, db.perms, plan.perms)
    case Err(e) => Err(e)
    case Ok(perms) =>
      match SeedRoles(plan, t, db.(perms := perms), plan.roles)
      case Err(e) => Err(e)
      case Ok(db) => Ok(db.(configs := UpsertConfigs(db.configs, plan.configs)))
  }

  ghost function Seed(plan: Plan, t: Tenant, slug: string, order: seq<string>, db: Db): Result<Db, Error>
    requires forall c :: c in order ==> c in plan.legacyGrants
  {
    match LinkInOrder(plan, Prepare(plan, t, slug, db), order)
    case Err(e) => Err(e)
    case Ok(db) => Finish(plan, t, db)
  }
}
