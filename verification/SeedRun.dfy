/** The whole seeding run: when it succeeds, what it leaves, and that a second run changes nothing. */
module SeedRun {
  import opened Base
  import opened SeedSpec
  import opened SeedTheorems
  import opened SeedRoleTheorems

  /** Lists a maintainer would write: distinct entries, hashes that do not collide, nothing seeded
      that the same run retires. */
  ghost predicate Sound(plan: Plan) {
    && (forall c, d :: plan.names.perm(c) == plan.names.perm(d) ==> c == d)
    && (forall t, u, c, d :: plan.names.role(t, c) == plan.names.role(u, d) ==> t == u && c == d)
    && NoDup(LegacyPermKeys(plan)) && NoDup(LegacyRoleKeys(plan)) && NoDup(plan.destinations)
    && DistinctCodes(plan.perms) && DistinctRoles(plan.roles) && DistinctKeys(plan.configs)
    && (forall s :: s in plan.perms ==> !Retired(plan, s.code))
    && (forall s :: s in plan.legacyPerms ==> s.row.mod != plan.retiredModule)
    && (forall s :: s in plan.configs ==> s.key !in plan.retiredKeys)
  }

  /** No grant or link dangles. */
  ghost predicate NoDangling(db: Db) {
    && (forall g :: g in db.grants ==> g.0 in db.roles && g.1 in db.perms)
    && (forall l :: l in db.links ==> l.0 in db.legacyRoles && l.1 in db.legacyPerms)
  }

  /** The unique indexes and foreign keys of the schema. */
  ghost predicate WellFormed(db: Db) {
    UniqueCodes(db.perms) && UniqueRoles(db.roles) && NoDangling(db)
  }

  lemma PrepareEffect(plan: Plan, t: Tenant, slug: string, db: Db)
    requires Sound(plan) && WellFormed(db)
    ensures var p := Prepare(plan, t, slug, db);
            && p.perms == db.perms - RetiredIds(plan, db.perms) && p.roles == db.roles
            && p.grants == WithoutPerms(db.grants, RetiredIds(plan, db.perms))
            && p.configs == KeepConfigs(db.configs, plan.retiredKeys)
            && WellFormed(p)
    ensures var p := Prepare(plan, t, slug, db);
            && (forall k :: 0 <= k < |plan.legacyPerms| ==>
                  Get(p.legacyPerms, plan.names.legacyPerm(plan.legacyPerms[k].code)) == Some(plan.legacyPerms[k].row))
            && (forall k :: 0 <= k < |plan.legacyRoles| ==>
                  Get(p.legacyRoles, plan.legacyRoles[k].code) == Some(plan.legacyRoles[k].row))
            && (forall id :: id in p.legacyPerms ==> p.legacyPerms[id].mod != plan.retiredModule)
  {
    var p := Prepare(plan, t, slug, db);
    var r := RetirePerms(plan, db);
    UpsertAllEffect(r.legacyPerms, LegacyPermKeys(plan), plan.legacyPerms, PutLegacyPerm);
    UpsertAllEffect(r.legacyRoles, LegacyRoleKeys(plan), plan.legacyRoles, PutLegacyRole);
    forall k | 0 <= k < |plan.legacyPerms|
      ensures Get(p.legacyPerms, plan.names.legacyPerm(plan.legacyPerms[k].code)) == Some(plan.legacyPerms[k].row)
    {
      assert LegacyPermKeys(plan)[k] == plan.names.legacyPerm(plan.legacyPerms[k].code);
    }
    forall k | 0 <= k < |plan.legacyRoles|
      ensures Get(p.legacyRoles, plan.legacyRoles[k].code) == Some(plan.legacyRoles[k].row)
    {
      assert LegacyRoleKeys(plan)[k] == plan.legacyRoles[k].code;
    }
    forall id | id in p.legacyPerms ensures p.legacyPerms[id].mod != plan.retiredModule {
      if id in LegacyPermKeys(plan) {
        var k :| 0 <= k < |plan.legacyPerms| && LegacyPermKeys(plan)[k] == id;
        assert plan.legacyPerms[k] in plan.legacyPerms;
      } else {
        assert Get(p.legacyPerms, id) == Get(r.legacyPerms, id);
      }
    }
    forall l | l in p.links ensures l.0 in p.legacyRoles && l.1 in p.legacyPerms {
      assert Get(r.legacyRoles, l.0).Some? && Get(r.legacyPerms, l.1).Some?;
      if l.0 in LegacyRoleKeys(plan) {
        var k :| 0 <= k < |plan.legacyRoles| && LegacyRoleKeys(plan)[k] == l.0;
      } else {
        assert Get(p.legacyRoles, l.0) == Get(r.legacyRoles, l.0);
      }
      if l.1 in LegacyPermKeys(plan) {
        var k :| 0 <= k < |plan.legacyPerms| && LegacyPermKeys(plan)[k] == l.1;
      } else {
        assert Get(p.legacyPerms, l.1) == Get(r.legacyPerms, l.1);
      }
    }
  }

  /** The states a successful run passes through: after the legacy roles, after the legacy links,
      after the ordering permissions, after the ordering roles, at the end. */
  datatype Trail = Trail(prepared: Db, linked: Db, permitted: Db, seeded: Db, final: Db)

  ghost function TrailOf(plan: Plan, t: Tenant, slug: string, order: seq<string>, db: Db): Trail
    requires forall c :: c in order ==> c in plan.legacyGrants
    requires Seed(plan, t, slug, order, db).Ok?
  {
    var prepared := Prepare(plan, t, slug, db);
    var linked := LinkInOrder(plan, prepared, order).value;
    var permitted := linked.(perms := UpsertPerms(plan.names, linked.perms, plan.perms).value);
    var seeded := SeedRoles(plan, t, permitted, plan.roles).value;
    Trail(prepared, linked, permitted, seeded, Seed(plan, t, slug, order, db).value)
  }

  lemma LinksPoint(plan: Plan, t: Tenant, slug: string, order: seq<string>, db: Db)
    requires Sound(plan) && WellFormed(db) && Walk(plan, order) && Seed(plan, t, slug, order, db).Ok?
    ensures WellFormed(TrailOf(plan, t, slug, order, db).linked)
  {
    var tr := TrailOf(plan, t, slug, order, db);
    PrepareEffect(plan, t, slug, db);
    LinkInOrderExact(plan, tr.prepared, order);
    forall l | l in tr.linked.links ensures l.0 in tr.linked.legacyRoles && l.1 in tr.linked.legacyPerms {
      if l.0 in order {
        assert Linkable(plan, tr.prepared, l.0) && Listed(plan, l.0, l.1);
        var c :| c in plan.legacyGrants[l.0] && l.1 == plan.names.legacyPerm(c);
        var s :| s in plan.legacyPerms && s.code == c;
        var k :| 0 <= k < |plan.legacyPerms| && plan.legacyPerms[k] == s;
        assert Get(tr.prepared.legacyPerms, plan.names.legacyPerm(plan.legacyPerms[k].code)).Some?;
      }
    }
  }

  lemma PermsSeeded(plan: Plan, t: Tenant, slug: string, order: seq<string>, db: Db)
    requires Sound(plan) && WellFormed(db) && Walk(plan, order) && Seed(plan, t, slug, order, db).Ok?
    ensures var tr := TrailOf(plan, t, slug, order, db);
            && WellFormed(tr.permitted) && tr.final.perms == tr.permitted.perms
            && PermsTouched(plan.names, tr.prepared.perms, tr.final.perms, Codes(plan.perms))
            && forall s :: s in plan.perms ==> PermSettled(tr.final.perms, s)
  {
    var tr := TrailOf(plan, t, slug, order, db);
    PrepareEffect(plan, t, slug, db);
    LinksPoint(plan, t, slug, order, db);
    LinkInOrderExact(plan, tr.prepared, order);
    UpsertPermsEffect(plan.names, tr.linked.perms, plan.perms);
    SeedRolesEffect(plan, t, tr.permitted, plan.roles);
  }

  lemma RolesInPlace(plan: Plan, t: Tenant, slug: string, order: seq<string>, db: Db)
    requires Sound(plan) && WellFormed(db) && Walk(plan, order) && Seed(plan, t, slug, order, db).Ok?
    ensures var tr := TrailOf(plan, t, slug, order, db);
            && RolesSeeded(plan, t, tr.permitted, tr.seeded, plan.roles)
            && tr.final == tr.seeded.(configs := tr.final.configs)
            && tr.permitted.roles == db.roles
            && tr.permitted.grants == WithoutPerms(db.grants, RetiredIds(plan, db.perms))
  {
    var tr := TrailOf(plan, t, slug, order, db);
    PrepareEffect(plan, t, slug, db);
    LinkInOrderExact(plan, tr.prepared, order);
    PermsSeeded(plan, t, slug, order, db);
    SeedRolesEffect(plan, t, tr.permitted, plan.roles);
  }

  // ---------------------------------------------------------------------------------------
  // What a successful run leaves

  /** No grant and no link dangles, and the unique indexes hold. */
  lemma StaysWellFormed(plan: Plan, t: Tenant, slug: string, order: seq<string>, db: Db)
    requires Sound(plan) && WellFormed(db) && Walk(plan, order) && Seed(plan, t, slug, order, db).Ok?
    ensures WellFormed(Seed(plan, t, slug, order, db).value)
  {
    var tr := TrailOf(plan, t, slug, order, db);
    PermsSeeded(plan, t, slug, order, db);
    RolesInPlace(plan, t, slug, order, db);
    forall g | g in tr.final.grants ensures g.0 in tr.final.roles && g.1 in tr.final.perms {
      if g.0 in tr.seeded.roles {
        var r := tr.seeded.roles[g.0];
        if Target(t, RoleCodes(plan.roles), r) {
          var s :| s in plan.roles && s.code == r.code;
          assert RoleSettled(plan, t, tr.seeded, s);
          assert g.0 in RoleIds(tr.seeded.roles, t, s.code);
          assert (g.0, g.1) == g;
        } else {
          assert g.0 in tr.permitted.roles;
          assert g in tr.permitted.grants;
        }
      }
    }
  }

  /** Each listed role of the tenant exists and holds exactly its listed permissions, whatever it
      held before: a grant is there if and only if it is for the computed id of a listed, seeded
      code, and that id is a row. */
  lemma GrantsExact(plan: Plan, t: Tenant, slug: string, order: seq<string>, db: Db, s: RoleSpec) returns (id: Id)
    requires Sound(plan) && WellFormed(db) && Walk(plan, order) && Seed(plan, t, slug, order, db).Ok?
    requires s in plan.roles
    ensures var final := Seed(plan, t, slug, order, db).value;
            && RoleIds(final.roles, t, s.code) == {id} && final.roles[id] == Role(Some(t), s.code, s.info)
            && forall p :: (id, p) in final.grants <==> p in final.perms && Granted(plan, s, p)
  {
    var tr := TrailOf(plan, t, slug, order, db);
    RolesInPlace(plan, t, slug, order, db);
    assert RoleSettled(plan, t, tr.seeded, s);
    id :| id in RoleIds(tr.final.roles, t, s.code);
    assert RoleIds(tr.final.roles, t, s.code) == {id};
    var ids := Resolve(plan.names, Codes(plan.perms), s.perms);
    forall p ensures (id, p) in tr.final.grants <==> p in tr.final.perms && Granted(plan, s, p) {
      assert Granted(plan, s, p) <==> p in ids;
    }
  }

  /** The id is the computed one of a listed, seeded code. */
  ghost predicate Granted(plan: Plan, s: RoleSpec, id: Id) {
    exists c :: c in s.perms && c in Codes(plan.perms) && id == plan.names.perm(c)
  }

  /** When permission ids are the hashes of their codes, which seeding preserves, "listed" can be
      read off the granted rows. */
  lemma GrantsExactByCode(plan: Plan, t: Tenant, slug: string, order: seq<string>, db: Db, s: RoleSpec, id: Id, p: Id)
    requires Sound(plan) && WellFormed(db) && Walk(plan, order) && Seed(plan, t, slug, order, db).Ok?
    requires s in plan.roles && HashIds(plan.names, db.perms)
    requires id in RoleIds(Seed(plan, t, slug, order, db).value.roles, t, s.code)
    ensures var final := Seed(plan, t, slug, order, db).value;
            && HashIds(plan.names, final.perms)
            && ((id, p) in final.grants <==>
                 p in final.perms && final.perms[p].code in s.perms && final.perms[p].code in Codes(plan.perms))
  {
    var final := Seed(plan, t, slug, order, db).value;
    PrepareEffect(plan, t, slug, db);
    PermsSeeded(plan, t, slug, order, db);
    var found := GrantsExact(plan, t, slug, order, db, s);
    assert HashIds(plan.names, final.perms);
  }

  /** Every other role, of another tenant or unlisted, keeps its row and its grants, minus the
      grants of retired permissions. */
  lemma OtherRolesKept(plan: Plan, t: Tenant, slug: string, order: seq<string>, db: Db, id: Id)
    requires Sound(plan) && WellFormed(db) && Walk(plan, order) && Seed(plan, t, slug, order, db).Ok?
    requires id in db.roles && (db.roles[id].tenant != Some(t) || forall s :: s in plan.roles ==> s.code != db.roles[id].code)
    ensures var final := Seed(plan, t, slug, order, db).value;
            && id in final.roles && final.roles[id] == db.roles[id]
            && forall p :: (id, p) in final.grants <==> (id, p) in db.grants && !(plan.retiredPrefix <= db.perms[p].code)
  {
    RolesInPlace(plan, t, slug, order, db);
    var tr := TrailOf(plan, t, slug, order, db);
    forall p ensures (id, p) in tr.final.grants <==> (id, p) in db.grants && !Retired(plan, db.perms[p].code) {
      var g := (id, p);
      assert g in tr.final.grants <==> g in tr.permitted.grants;
      if g in db.grants {
        assert p in db.perms;
      }
    }
  }

  /** Role rows: none goes or changes hands, and a new one is a listed role of the tenant under its computed id. */
  lemma RolesKept(plan: Plan, t: Tenant, slug: string, order: seq<string>, db: Db, id: Id)
    requires Sound(plan) && WellFormed(db) && Walk(plan, order) && Seed(plan, t, slug, order, db).Ok?
    ensures var final := Seed(plan, t, slug, order, db).value;
            && (id in db.roles ==>
                  id in final.roles && final.roles[id].tenant == db.roles[id].tenant && final.roles[id].code == db.roles[id].code)
            && (id in final.roles && id !in db.roles ==>
                  exists s ::
                    s in plan.roles && id == plan.names.role(t, s.code) && final.roles[id] == Role(Some(t), s.code, s.info))
  {
    var tr := TrailOf(plan, t, slug, order, db);
    RolesInPlace(plan, t, slug, order, db);
    if id in tr.seeded.roles && id !in db.roles {
      var s :| s in plan.roles && s.code == tr.seeded.roles[id].code;
      assert RoleSettled(plan, t, tr.seeded, s) && id in RoleIds(tr.seeded.roles, t, s.code);
    }
  }

  /** Nothing retired is left. */
  lemma NothingRetiredLeft(plan: Plan, t: Tenant, slug: string, order: seq<string>, db: Db)
    requires Sound(plan) && WellFormed(db) && Walk(plan, order) && Seed(plan, t, slug, order, db).Ok?
    ensures var final := Seed(plan, t, slug, order, db).value;
            && RetiredIds(plan, final.perms) == {} && RetiredLegacyIds(plan, final.legacyPerms) == {}
            && forall k :: 0 <= k < |final.configs| ==> final.configs[k].key !in plan.retiredKeys
  {
    var tr := TrailOf(plan, t, slug, order, db);
    PrepareEffect(plan, t, slug, db);
    LinkInOrderExact(plan, tr.prepared, order);
    PermsSeeded(plan, t, slug, order, db);
    RolesInPlace(plan, t, slug, order, db);
    assert RetiredLegacyIds(plan, tr.final.legacyPerms) == {};
    forall id | id in tr.final.perms ensures !Retired(plan, tr.final.perms[id].code) {
      if tr.final.perms[id].code in Codes(plan.perms) {
        var s :| s in plan.perms && s.code == tr.final.perms[id].code;
      }
    }
    KeepConfigsExact(db.configs, plan.retiredKeys);
    UpsertConfigsEffect(tr.prepared.configs, plan.configs);
    forall k | 0 <= k < |tr.final.configs| ensures tr.final.configs[k].key !in plan.retiredKeys {
      if k < |tr.prepared.configs| {
        assert tr.prepared.configs[k] in tr.prepared.configs;
      }
    }
  }

  /** Legacy permissions: a listed one is as listed, and any other is there, unchanged, exactly when it was there and
      not of the retired module. */
  lemma LegacyPermsKept(plan: Plan, t: Tenant, slug: string, order: seq<string>, db: Db, id: Id)
    requires Sound(plan) && WellFormed(db) && Walk(plan, order) && Seed(plan, t, slug, order, db).Ok?
    ensures var final := Seed(plan, t, slug, order, db).value;
            && (forall s :: s in plan.legacyPerms && id == plan.names.legacyPerm(s.code) ==>
                  id in final.legacyPerms && final.legacyPerms[id] == s.row)
            && ((forall s :: s in plan.legacyPerms ==> id != plan.names.legacyPerm(s.code)) ==>
                  && (id in final.legacyPerms <==> id in db.legacyPerms && db.legacyPerms[id].mod != plan.retiredModule)
                  && (id in final.legacyPerms ==> final.legacyPerms[id] == db.legacyPerms[id]))
  {
    var tr := TrailOf(plan, t, slug, order, db);
    RolesInPlace(plan, t, slug, order, db);
    LinkInOrderExact(plan, tr.prepared, order);
    PrepareEffect(plan, t, slug, db);
    forall s | s in plan.legacyPerms && id == plan.names.legacyPerm(s.code)
      ensures Get(tr.prepared.legacyPerms, id) == Some(s.row)
    {
      var k :| 0 <= k < |plan.legacyPerms| && plan.legacyPerms[k] == s;
    }
    LegacyPermsUnlisted(plan, t, slug, db, id);
  }

  lemma LegacyPermsUnlisted(plan: Plan, t: Tenant, slug: string, db: Db, id: Id)
    requires Sound(plan)
    ensures (forall s :: s in plan.legacyPerms ==> id != plan.names.legacyPerm(s.code)) ==>
              Get(Prepare(plan, t, slug, db).legacyPerms, id) ==
              if id in db.legacyPerms && db.legacyPerms[id].mod != plan.retiredModule then Some(db.legacyPerms[id]) else None
  {
    var r := RetirePerms(plan, db);
    UpsertAllEffect(r.legacyPerms, LegacyPermKeys(plan), plan.legacyPerms, PutLegacyPerm);
    if forall s :: s in plan.legacyPerms ==> id != plan.names.legacyPerm(s.code) {
      forall k | 0 <= k < |plan.legacyPerms| ensures LegacyPermKeys(plan)[k] != id {
        assert plan.legacyPerms[k] in plan.legacyPerms;
      }
    }
  }

  /** Legacy roles: a listed one is as listed, and any other is as it was. */
  lemma LegacyRolesKept(plan: Plan, t: Tenant, slug: string, order: seq<string>, db: Db, code: string)
    requires Sound(plan) && WellFormed(db) && Walk(plan, order) && Seed(plan, t, slug, order, db).Ok?
    ensures var final := Seed(plan, t, slug, order, db).value;
            && (forall s :: s in plan.legacyRoles && code == s.code ==>
                  code in final.legacyRoles && final.legacyRoles[code] == s.row)
            && ((forall s :: s in plan.legacyRoles ==> code != s.code) ==>
                  Get(final.legacyRoles, code) == Get(db.legacyRoles, code))
  {
    var tr := TrailOf(plan, t, slug, order, db);
    RolesInPlace(plan, t, slug, order, db);
    LinkInOrderExact(plan, tr.prepared, order);
    UpsertAllEffect(db.legacyRoles, LegacyRoleKeys(plan), plan.legacyRoles, PutLegacyRole);
    forall s | s in plan.legacyRoles && code == s.code ensures Get(tr.prepared.legacyRoles, code) == Some(s.row) {
      var k :| 0 <= k < |plan.legacyRoles| && plan.legacyRoles[k] == s;
      assert LegacyRoleKeys(plan)[k] == code;
    }
    if forall s :: s in plan.legacyRoles ==> code != s.code {
      forall k | 0 <= k < |plan.legacyRoles| ensures LegacyRoleKeys(plan)[k] != code {
        assert plan.legacyRoles[k] in plan.legacyRoles;
      }
    }
  }

  /** Legacy links: a role of the map has exactly the permissions listed for it; any other role keeps a link exactly
      when its permission was not of the retired module. */
  lemma LinksExact(plan: Plan, t: Tenant, slug: string, order: seq<string>, db: Db, role: string, id: Id)
    requires Sound(plan) && WellFormed(db) && Walk(plan, order) && Seed(plan, t, slug, order, db).Ok?
    ensures (role, id) in Seed(plan, t, slug, order, db).value.links <==>
            if role in plan.legacyGrants then exists c :: c in plan.legacyGrants[role] && id == plan.names.legacyPerm(c)
            else (role, id) in db.links && db.legacyPerms[id].mod != plan.retiredModule
  {
    var tr := TrailOf(plan, t, slug, order, db);
    RolesInPlace(plan, t, slug, order, db);
    LinkInOrderExact(plan, tr.prepared, order);
    assert role in order <==> role in plan.legacyGrants;
    if (role, id) in db.links {
      assert (role, id).0 in db.legacyRoles && (role, id).1 in db.legacyPerms;
    }
    assert (role, id) in tr.prepared.links <==> (role, id) in db.links && db.legacyPerms[id].mod != plan.retiredModule;
  }

  /** Permissions: one of an unlisted code is there, unchanged, exactly when it was there and its code has not the
      retired prefix; one of a listed code is there as listed under the id it had, and under its hash if it is new. */
  lemma PermsKept(plan: Plan, t: Tenant, slug: string, order: seq<string>, db: Db, id: Id)
    requires Sound(plan) && WellFormed(db) && Walk(plan, order) && Seed(plan, t, slug, order, db).Ok?
    ensures var final := Seed(plan, t, slug, order, db).value;
            && (id in db.perms && !(plan.retiredPrefix <= db.perms[id].code) ==>
                  id in final.perms && final.perms[id].code == db.perms[id].code)
            && (id in final.perms && (forall s :: s in plan.perms ==> s.code != final.perms[id].code) ==>
                  id in db.perms && final.perms[id] == db.perms[id] && !(plan.retiredPrefix <= db.perms[id].code))
            && (forall s :: id in final.perms && s in plan.perms && s.code == final.perms[id].code ==>
                  final.perms[id].info == s.info &&
                  if id in db.perms && !(plan.retiredPrefix <= db.perms[id].code) then db.perms[id].code == s.code
                  else id == plan.names.perm(s.code))
  {
    var tr := TrailOf(plan, t, slug, order, db);
    PrepareEffect(plan, t, slug, db);
    PermsSeeded(plan, t, slug, order, db);
    NothingRetiredLeft(plan, t, slug, order, db);
    if id in tr.final.perms {
      assert id !in RetiredIds(plan, tr.final.perms);
    }
  }

  /** Sync events: each destination has one for the tenant with the new payload; an existing one keeps its own slug
      and delivery state, a new one carries the slug and waits, never tried; all other events are as they were. */
  lemma EventsExact(plan: Plan, t: Tenant, slug: string, order: seq<string>, db: Db, u: Tenant, dest: string)
    requires Sound(plan) && WellFormed(db) && Walk(plan, order) && Seed(plan, t, slug, order, db).Ok?
    ensures var final := Seed(plan, t, slug, order, db).value;
            Get(final.events, (u, dest)) ==
            if u != t || dest !in plan.destinations then Get(db.events, (u, dest))
            else if (u, dest) in db.events then
              var was := db.events[(u, dest)];
              Some(SyncEvent(was.slug, slug, was.status, was.attempts))
            else Some(SyncEvent(slug, slug, "pending", 0))
  {
    var tr := TrailOf(plan, t, slug, order, db);
    RolesInPlace(plan, t, slug, order, db);
    LinkInOrderExact(plan, tr.prepared, order);
    var keys := EventKeys(t, plan.destinations);
    UpsertAllEffect(db.events, keys, plan.destinations, PutEvent(slug));
    if u == t && dest in plan.destinations {
      var k :| 0 <= k < |plan.destinations| && plan.destinations[k] == dest;
      assert keys[k] == (u, dest);
    }
  }

  /** Configs: rows of a retired key are gone; of the others, those of a tenant or of an unlisted key are as they were
      and platform values of a listed key are as listed, each in its place; a listed key that had no platform value
      gets one. */
  lemma ConfigsKept(plan: Plan, t: Tenant, slug: string, order: seq<string>, db: Db) returns (at: seq<nat>)
    requires Sound(plan) && WellFormed(db) && Walk(plan, order) && Seed(plan, t, slug, order, db).Ok?
    ensures var final := Seed(plan, t, slug, order, db).value.configs;
            && |at| <= |final|
            && (forall j, k :: 0 <= j < k < |at| ==> at[j] < at[k])
            && (forall k :: 0 <= k < |db.configs| ==> (k in at <==> db.configs[k].key !in plan.retiredKeys))
            && (forall j :: 0 <= j < |at| ==>
                  at[j] < |db.configs| && final[j].tenant == db.configs[at[j]].tenant && final[j].key == db.configs[at[j]].key)
            && (forall j :: 0 <= j < |at| && (final[j].tenant.Some? || forall s :: s in plan.configs ==> s.key != final[j].key) ==>
                  final[j] == db.configs[at[j]])
            && (forall j :: |at| <= j < |final| ==> final[j].tenant.None? && exists s :: s in plan.configs && s.key == final[j].key)
            && (forall s :: s in plan.configs ==>
                  && (exists j :: 0 <= j < |final| && final[j] == Config(None, s.key, s.setting))
                  && (forall j :: 0 <= j < |final| && final[j].tenant.None? && final[j].key == s.key ==> final[j].setting == s.setting))
  {
    var tr := TrailOf(plan, t, slug, order, db);
    RolesInPlace(plan, t, slug, order, db);
    PrepareEffect(plan, t, slug, db);
    LinkInOrderExact(plan, tr.prepared, order);
    PermsSeeded(plan, t, slug, order, db);
    at := KeepConfigsAt(db.configs, plan.retiredKeys);
    UpsertConfigsEffect(tr.prepared.configs, plan.configs);
    forall s | s in plan.configs
      ensures exists j :: 0 <= j < |tr.final.configs| && tr.final.configs[j] == Config(None, s.key, s.setting)
    {
      assert ConfigSettled(tr.final.configs, s);
      var j :| 0 <= j < |tr.final.configs| && tr.final.configs[j].tenant.None? && tr.final.configs[j].key == s.key;
      assert tr.final.configs[j] == Config(None, s.key, s.setting);
    }
  }

  // ---------------------------------------------------------------------------------------
  // A second run

  /** Seeding twice, with the legacy map walked in any order each time, leaves the same as once. */
  lemma SeedTwice(plan: Plan, t: Tenant, slug: string, order: seq<string>, again: seq<string>, db: Db)
    requires Sound(plan) && WellFormed(db) && Walk(plan, order) && Walk(plan, again)
    requires Seed(plan, t, slug, order, db).Ok?
    ensures Seed(plan, t, slug, again, Seed(plan, t, slug, order, db).value) == Seed(plan, t, slug, order, db)
  {
    var final := Seed(plan, t, slug, order, db).value;
    PrepareSettled(plan, t, slug, order, db);
    LinksSettled(plan, t, slug, order, again, db);
    PermsSeeded(plan, t, slug, order, db);
    UpsertPermsSettled(plan.names, final.perms, plan.perms);
    RolesInPlace(plan, t, slug, order, db);
    var tr := TrailOf(plan, t, slug, order, db);
    forall s | s in plan.roles ensures RoleSettled(plan, t, final, s) {
      assert RoleSettled(plan, t, tr.seeded, s);
    }
    SeedRolesSettled(plan, t, final, plan.roles);
    UpsertConfigsEffect(tr.prepared.configs, plan.configs);
    PrepareEffect(plan, t, slug, db);
    LinkInOrderExact(plan, tr.prepared, order);
    UpsertConfigsSettled(final.configs, plan.configs);
  }

  lemma PrepareSettled(plan: Plan, t: Tenant, slug: string, order: seq<string>, db: Db)
    requires Sound(plan) && WellFormed(db) && Walk(plan, order) && Seed(plan, t, slug, order, db).Ok?
    ensures Prepare(plan, t, slug, Seed(plan, t, slug, order, db).value) == Seed(plan, t, slug, order, db).value
  {
    var tr := TrailOf(plan, t, slug, order, db);
    var final := tr.final;
    PrepareEffect(plan, t, slug, db);
    LinkInOrderExact(plan, tr.prepared, order);
    RolesInPlace(plan, t, slug, order, db);
    NothingRetiredLeft(plan, t, slug, order, db);
    EventsSettled(plan, t, slug, db.events);
    assert RetirePerms(plan, final) == final by {
      assert WithoutPerms(final.grants, {}) == final.grants;
      assert WithoutPerms(final.links, {}) == final.links;
      assert final.perms - {} == final.perms;
      assert final.legacyPerms - {} == final.legacyPerms;
    }
    KeepConfigsExact(final.configs, plan.retiredKeys);
    var r := RetirePerms(plan, db);
    UpsertAllTwice(r.legacyPerms, LegacyPermKeys(plan), plan.legacyPerms, PutLegacyPerm);
    UpsertAllTwice(r.legacyRoles, LegacyRoleKeys(plan), plan.legacyRoles, PutLegacyRole);
  }

  lemma EventsSettled(plan: Plan, t: Tenant, slug: string, events: map<(Tenant, string), SyncEvent>)
    requires NoDup(plan.destinations)
    ensures var keys := EventKeys(t, plan.destinations);
            var r := UpsertAll(events, keys, plan.destinations, PutEvent(slug));
            UpsertAll(r, keys, plan.destinations, PutEvent(slug)) == r
  {
    UpsertAllTwice(events, EventKeys(t, plan.destinations), plan.destinations, PutEvent(slug));
  }

  lemma LinksSettled(plan: Plan, t: Tenant, slug: string, order: seq<string>, again: seq<string>, db: Db)
    requires Sound(plan) && WellFormed(db) && Walk(plan, order) && Walk(plan, again) && Seed(plan, t, slug, order, db).Ok?
    ensures var final := Seed(plan, t, slug, order, db).value;
            LinkInOrder(plan, final, again) == Ok(final)
  {
    var tr := TrailOf(plan, t, slug, order, db);
    var final := tr.final;
    RolesInPlace(plan, t, slug, order, db);
    LinkInOrderExact(plan, tr.prepared, order);
    LinkInOrderExact(plan, final, again);
    forall c | c in again ensures Linkable(plan, final, c) {
      assert Linkable(plan, tr.prepared, c);
    }
    var r := LinkInOrder(plan, final, again).value;
    assert r.links == final.links;
  }

  // ---------------------------------------------------------------------------------------
  // When a run succeeds

  /** A permission row that survives the removal of retired ones. */
  predicate Kept(plan: Plan, db: Db, id: Id) { id in db.perms && !Retired(plan, db.perms[id].code) }

  /** Each listed permission exists, or its computed id is free. */
  ghost predicate PermsPossible(plan: Plan, db: Db) {
    forall s :: s in plan.perms ==> CodeTaken(db.perms, s.code) || !Kept(plan, db, plan.names.perm(s.code))
  }

  /** The computed id of this code will be a row: a kept row has it, or the code is yet to be created. */
  ghost predicate IdUsable(plan: Plan, db: Db, code: string) {
    Kept(plan, db, plan.names.perm(code)) || !CodeTaken(db.perms, code)
  }

  ghost predicate RolesPossible(plan: Plan, t: Tenant, db: Db) {
    forall s :: s in plan.roles ==> RoleCan(plan, t, db, s)
  }

  /** A listed role exists or can take its computed id, names no seeded permission twice, and its
      permissions' computed ids will be rows. */
  ghost predicate RoleCan(plan: Plan, t: Tenant, db: Db, s: RoleSpec) {
    && (RoleIds(db.roles, t, s.code) != {} || plan.names.role(t, s.code) !in db.roles)
    && ListedOnce(Codes(plan.perms), s.perms)
    && forall c :: c in s.perms && c in Codes(plan.perms) ==> IdUsable(plan, db, c)
  }

  ghost predicate LinksPossible(plan: Plan, db: Db) {
    forall code :: code in plan.legacyGrants ==>
      && (code in db.legacyRoles || code in LegacyRoleKeys(plan))
      && forall p :: p in plan.legacyGrants[code] ==> p in LegacyCodes(plan)
  }

  /** A run in which no statement fails by accident succeeds exactly when, before it: every legacy
      entry's role and permissions are there or listed; every listed permission exists or can take
      its computed id; and every listed role exists or can take its computed id, names no seeded
      permission twice, and its permissions' computed ids are, or will be, rows. */
  lemma SeedOkIff(plan: Plan, t: Tenant, slug: string, order: seq<string>, db: Db)
    requires Sound(plan) && WellFormed(db) && Walk(plan, order)
    ensures Seed(plan, t, slug, order, db).Ok? <==>
            LinksPossible(plan, db) && PermsPossible(plan, db) && RolesPossible(plan, t, db)
  {
    PrepareEffect(plan, t, slug, db);
    var p := Prepare(plan, t, slug, db);
    LinkInOrderExact(plan, p, order);
    LinkableIff(plan, t, slug, db);
    assert (forall c :: c in order ==> Linkable(plan, p, c)) <==> LinksPossible(plan, db);
    if LinkInOrder(plan, p, order).Ok? {
      var linked := LinkInOrder(plan, p, order).value;
      TakenIff(plan, db);
      UpsertPermsOkIff(plan.names, linked.perms, plan.perms);
      assert UpsertPerms(plan.names, linked.perms, plan.perms).Ok? <==> PermsPossible(plan, db) by {
        forall s | s in plan.perms
          ensures CodeTaken(p.perms, s.code) || plan.names.perm(s.code) !in p.perms <==>
                  CodeTaken(db.perms, s.code) || !Kept(plan, db, plan.names.perm(s.code))
        {
        }
      }
      if UpsertPerms(plan.names, linked.perms, plan.perms).Ok? {
        var permitted := linked.(perms := UpsertPerms(plan.names, linked.perms, plan.perms).value);
        SeedRolesOkIff(plan, t, permitted, plan.roles);
        RolePossibleIff(plan, t, db, permitted);
      }
    }
  }

  lemma LinkableIff(plan: Plan, t: Tenant, slug: string, db: Db)
    requires Sound(plan) && WellFormed(db)
    ensures forall code :: code in plan.legacyGrants ==>
              (Linkable(plan, Prepare(plan, t, slug, db), code) <==>
                (code in db.legacyRoles || code in LegacyRoleKeys(plan)) &&
                forall p :: p in plan.legacyGrants[code] ==> p in LegacyCodes(plan))
  {
    UpsertAllEffect(db.legacyRoles, LegacyRoleKeys(plan), plan.legacyRoles, PutLegacyRole);
    var after := Prepare(plan, t, slug, db).legacyRoles;
    forall code ensures code in after <==> code in db.legacyRoles || code in LegacyRoleKeys(plan) {
      if code in LegacyRoleKeys(plan) {
        var k :| 0 <= k < |plan.legacyRoles| && LegacyRoleKeys(plan)[k] == code;
        assert Get(after, LegacyRoleKeys(plan)[k]).Some?;
      } else {
        assert Get(after, code) == Get(db.legacyRoles, code);
      }
    }
  }

  /** Removing retired rows takes no live code away. */
  lemma TakenIff(plan: Plan, db: Db)
    ensures forall c :: !Retired(plan, c) ==>
              (CodeTaken(db.perms - RetiredIds(plan, db.perms), c) <==> CodeTaken(db.perms, c))
  {
    var kept := db.perms - RetiredIds(plan, db.perms);
    forall c | !Retired(plan, c) && CodeTaken(db.perms, c) ensures CodeTaken(kept, c) {
      var id :| id in db.perms && db.perms[id].code == c;
      assert id in kept && kept[id].code == c;
    }
  }

  /** Which computed permission ids are rows once the permissions are seeded. */
  lemma UsableIff(plan: Plan, db: Db, perms: map<Id, Perm>, code: string)
    requires Sound(plan) && code in Codes(plan.perms)
    requires UpsertPerms(plan.names, db.perms - RetiredIds(plan, db.perms), plan.perms) == Ok(perms)
    ensures plan.names.perm(code) in perms <==> IdUsable(plan, db, code)
  {
    var kept := db.perms - RetiredIds(plan, db.perms);
    UpsertPermsEffect(plan.names, kept, plan.perms);
    var spec :| spec in plan.perms && spec.code == code;
    assert PermSettled(perms, spec);
    var id :| id in perms && perms[id].code == code;
    TakenIff(plan, db);
    if !CodeTaken(db.perms, code) {
      assert id !in kept;
    }
  }

  lemma IdsExist(plan: Plan, db: Db, perms: map<Id, Perm>, codes: seq<string>)
    requires Sound(plan)
    requires UpsertPerms(plan.names, db.perms - RetiredIds(plan, db.perms), plan.perms) == Ok(perms)
    ensures (forall id :: id in Resolve(plan.names, Codes(plan.perms), codes) ==> id in perms) <==>
            (forall c :: c in codes && c in Codes(plan.perms) ==> IdUsable(plan, db, c))
  {
    var ids := Resolve(plan.names, Codes(plan.perms), codes);
    forall c | c in codes && c in Codes(plan.perms)
      ensures plan.names.perm(c) in ids && (plan.names.perm(c) in perms <==> IdUsable(plan, db, c))
    {
      UsableIff(plan, db, perms, c);
    }
    forall id | id in ids ensures exists c :: c in codes && c in Codes(plan.perms) && id == plan.names.perm(c) {
    }
  }

  lemma RolePossibleIff(plan: Plan, t: Tenant, db: Db, permitted: Db)
    requires Sound(plan) && permitted.roles == db.roles
    requires UpsertPerms(plan.names, db.perms - RetiredIds(plan, db.perms), plan.perms) == Ok(permitted.perms)
    ensures (forall s :: s in plan.roles ==> RolePossible(plan, t, permitted, s)) <==> RolesPossible(plan, t, db)
  {
    forall s | s in plan.roles ensures RolePossible(plan, t, permitted, s) <==> RoleCan(plan, t, db, s) {
      ResolveDistinct(plan.names, Codes(plan.perms), s.perms);
      IdsExist(plan, db, permitted.perms, s.perms);
    }
  }

  /** Role ids are hashes too, at least where a listed role is missing. */
  ghost predicate RoleIdsFree(plan: Plan, t: Tenant, db: Db) {
    forall s :: s in plan.roles ==> RoleIds(db.roles, t, s.code) != {} || plan.names.role(t, s.code) !in db.roles
  }

  /** With hashed permission ids the database cannot refuse: only the lists can. */
  lemma HashedIdsSuffice(plan: Plan, t: Tenant, slug: string, order: seq<string>, db: Db)
    requires Sound(plan) && WellFormed(db) && Walk(plan, order)
    requires HashIds(plan.names, db.perms) && RoleIdsFree(plan, t, db)
    ensures Seed(plan, t, slug, order, db).Ok? <==>
            LinksPossible(plan, db) && forall s :: s in plan.roles ==> ListedOnce(Codes(plan.perms), s.perms)
  {
    SeedOkIff(plan, t, slug, order, db);
    forall c | c in Codes(plan.perms)
      ensures IdUsable(plan, db, c) && (CodeTaken(db.perms, c) || !Kept(plan, db, plan.names.perm(c)))
    {
      var s :| s in plan.perms && s.code == c;
      if CodeTaken(db.perms, c) {
        var id :| id in db.perms && db.perms[id].code == c;
        assert Kept(plan, db, id);
      }
    }
    forall s | s in plan.perms ensures CodeTaken(db.perms, s.code) || !Kept(plan, db, plan.names.perm(s.code)) {
      assert s.code in Codes(plan.perms);
    }
  }

  // ---------------------------------------------------------------------------------------
  // When the grants are right by code

  /** The seeded codes that a role lists. */
  function Asked(plan: Plan, s: RoleSpec): set<string> { set c | c in s.perms && c in Codes(plan.perms) }

  /** The role is granted exactly the rows of these codes. */
  ghost predicate GrantedByCode(db: Db, id: Id, codes: set<string>) {
    forall p :: (id, p) in db.grants <==> p in RowsOf(db.perms, codes)
  }

  /** After a successful run the computed id of a listed code is a row: of the code that had it, or of its own. */
  lemma AskedRow(plan: Plan, t: Tenant, slug: string, order: seq<string>, db: Db, s: RoleSpec, c: string)
    requires Sound(plan) && WellFormed(db) && Walk(plan, order) && Seed(plan, t, slug, order, db).Ok?
    requires s in plan.roles && c in Asked(plan, s)
    ensures var final, id := Seed(plan, t, slug, order, db).value, plan.names.perm(c);
            id in final.perms && final.perms[id].code == if Kept(plan, db, id) then db.perms[id].code else c
  {
    var tr := TrailOf(plan, t, slug, order, db);
    PrepareEffect(plan, t, slug, db);
    LinkInOrderExact(plan, tr.prepared, order);
    PermsSeeded(plan, t, slug, order, db);
    SeedOkIff(plan, t, slug, order, db);
    assert RoleCan(plan, t, db, s) && IdUsable(plan, db, c);
    UsableIff(plan, db, tr.final.perms, c);
  }

  function IdsOf(names: Names, codes: set<string>): set<Id> { set c | c in codes :: names.perm(c) }

  function RowsOf(perms: map<Id, Perm>, codes: set<string>): set<Id> { set p | p in perms && perms[p].code in codes }

  lemma {:induction false} IdsOfSize(names: Names, codes: set<string>)
    requires forall c, d :: names.perm(c) == names.perm(d) ==> c == d
    ensures |IdsOf(names, codes)| == |codes|
  {
    if codes != {} {
      var c :| c in codes;
      IdsOfSize(names, codes - {c});
      assert IdsOf(names, codes) == IdsOf(names, codes - {c}) + {names.perm(c)};
    }
  }

  lemma {:induction false} RowsOfSize(perms: map<Id, Perm>, codes: set<string>)
    requires UniqueCodes(perms)
    ensures |RowsOf(perms, codes)| <= |codes|
  {
    if codes == {} {
      assert RowsOf(perms, codes) == {};
    } else {
      var c :| c in codes;
      RowsOfSize(perms, codes - {c});
      var one := RowsOf(perms, {c});
      assert RowsOf(perms, codes) == RowsOf(perms, codes - {c}) + one;
      assert |one| <= 1 by {
        if one != {} {
          var p :| p in one;
          assert one == {p};
        }
      }
    }
  }

  /** Granting the computed ids grants the rows of the codes exactly when each computed id is one of these rows. */
  lemma CodeGrantsIff(names: Names, db: Db, id: Id, codes: set<string>)
    requires forall c, d :: names.perm(c) == names.perm(d) ==> c == d
    requires UniqueCodes(db.perms) && forall p :: (id, p) in db.grants <==> p in IdsOf(names, codes)
    ensures GrantedByCode(db, id, codes) <==> IdsOf(names, codes) <= RowsOf(db.perms, codes)
  {
    var ids, rows := IdsOf(names, codes), RowsOf(db.perms, codes);
    IdsOfSize(names, codes);
    RowsOfSize(db.perms, codes);
    if ids <= rows {
      assert |rows - ids| == |rows| - |ids|;
      assert ids == rows;
    } else {
      var p :| p in ids && p !in rows;
      assert (id, p) in db.grants;
    }
  }

  /** After a successful run a listed role's grants are right by code exactly when, before it, no computed id of a
      code that it lists belonged to a row of a code that it does not. */
  lemma GrantsByCodeIff(plan: Plan, t: Tenant, slug: string, order: seq<string>, db: Db, s: RoleSpec, id: Id)
    requires Sound(plan) && WellFormed(db) && Walk(plan, order) && Seed(plan, t, slug, order, db).Ok?
    requires s in plan.roles && id in RoleIds(Seed(plan, t, slug, order, db).value.roles, t, s.code)
    ensures GrantedByCode(Seed(plan, t, slug, order, db).value, id, Asked(plan, s)) <==>
            forall c :: c in Asked(plan, s) && Kept(plan, db, plan.names.perm(c)) ==>
              db.perms[plan.names.perm(c)].code in Asked(plan, s)
  {
    var final, asked := Seed(plan, t, slug, order, db).value, Asked(plan, s);
    var found := GrantsExact(plan, t, slug, order, db, s);
    StaysWellFormed(plan, t, slug, order, db);
    forall c | c in asked
      ensures var p := plan.names.perm(c);
              p in final.perms && final.perms[p].code == if Kept(plan, db, p) then db.perms[p].code else c
    {
      AskedRow(plan, t, slug, order, db, s, c);
    }
    forall p ensures (id, p) in final.grants <==> p in IdsOf(plan.names, asked) {
      assert Granted(plan, s, p) <==> p in IdsOf(plan.names, asked);
    }
    CodeGrantsIff(plan.names, final, id, asked);
  }

  /** A role that lists one code whose computed id has another row is granted that row, whatever its code. */
  lemma OtherGranted(plan: Plan, t: Tenant, order: seq<string>, db: Db, s: RoleSpec, c: string, id: Id)
    requires Sound(plan) && WellFormed(db) && Walk(plan, order) && Seed(plan, t, "", order, db).Ok?
    requires s in plan.roles && Asked(plan, s) == {c} && Kept(plan, db, plan.names.perm(c))
    requires id in RoleIds(Seed(plan, t, "", order, db).value.roles, t, s.code)
    ensures GrantedByCode(Seed(plan, t, "", order, db).value, id, {db.perms[plan.names.perm(c)].code})
  {
    var found := GrantsExact(plan, t, "", order, db, s);
    AskedRow(plan, t, "", order, db, s, c);
    StaysWellFormed(plan, t, "", order, db);
    var final := Seed(plan, t, "", order, db).value;
    forall p ensures Granted(plan, s, p) <==> p == plan.names.perm(c) {
      if Granted(plan, s, p) {
        var d :| d in s.perms && d in Codes(plan.perms) && p == plan.names.perm(d);
        assert d in Asked(plan, s);
      } else {
        assert c in Asked(plan, s);
      }
    }
  }

  /** Two permissions whose ids are the hashes of each other's code, and a role that lists one of them. */
  lemma CrossedIds(names: Names, t: Tenant, info: PermInfo, staff: RoleSpec) returns (plan: Plan, db: Db)
    requires forall c, d :: names.perm(c) == names.perm(d) ==> c == d
    requires forall t, u, c, d :: names.role(t, c) == names.role(u, d) ==> t == u && c == d
    requires staff.perms == ["view"]
    ensures Sound(plan) && WellFormed(db) && Walk(plan, [])
    ensures plan.names == names && plan.roles == [staff] && Asked(plan, staff) == {"view"}
    ensures LinksPossible(plan, db) && PermsPossible(plan, db) && RolesPossible(plan, t, db)
    ensures Kept(plan, db, names.perm("view")) && db.perms[names.perm("view")].code == "edit"
  {
    plan := Plan(names, "x", "", {}, [], [], [], map[], [PermSpec("view", info)], [staff], []);
    db := Db(map[names.perm("view") := Perm("edit", info), names.perm("edit") := Perm("view", info)], map[], {}, map[],
             map[], {}, [], map[]);
    assert "view"[0] != "edit"[0] && "x"[0] != "view"[0] && "x"[0] != "edit"[0];
    assert Codes(plan.perms) == {"view"};
    assert CodeTaken(db.perms, "view") by {
      assert db.perms[names.perm("edit")].code == "view";
    }
    assert RoleIds(db.roles, t, staff.code) == {};
    assert RoleCan(plan, t, db, staff);
  }

  /** There the run succeeds and grants the role the other permission instead of the one it lists. */
  lemma WrongGrant(names: Names, t: Tenant, info: PermInfo, staff: RoleSpec) returns (plan: Plan, db: Db, id: Id)
    requires forall c, d :: names.perm(c) == names.perm(d) ==> c == d
    requires forall t, u, c, d :: names.role(t, c) == names.role(u, d) ==> t == u && c == d
    requires staff.perms == ["view"]
    ensures Sound(plan) && WellFormed(db) && Walk(plan, []) && plan.roles == [staff] && Asked(plan, staff) == {"view"}
    ensures var run := Seed(plan, t, "", [], db);
            run.Ok? && id in RoleIds(run.value.roles, t, staff.code) && GrantedByCode(run.value, id, {"edit"})
  {
    plan, db := CrossedIds(names, t, info, staff);
    SeedOkIff(plan, t, "", [], db);
    id := GrantsExact(plan, t, "", [], db, staff);
    OtherGranted(plan, t, [], db, staff, "view", id);
  }
}
