/** Roles and grants after a seeding run. */
module SeedRoleTheorems {
  import opened Base
  import opened SeedSpec

  function GrantsOf(role: Id, ids: seq<Id>): set<(Id, Id)> { set id | id in ids :: (role, id) }

  /** From no grants of the role, the inserts go through exactly when the ids are distinct existing
      permissions, and then the role holds exactly them. */
  lemma {:induction false} GrantEachExact(grants: set<(Id, Id)>, role: Id, ids: seq<Id>, perms: set<Id>)
    requires forall g :: g in grants ==> g.0 != role
    ensures var r := GrantEach(grants, role, ids, perms);
            && (r.Ok? <==> NoDup(ids) && forall id :: id in ids ==> id in perms)
            && (r.Ok? ==> r.value == grants + GrantsOf(role, ids))
  {
    if ids != [] {
      var init, last := ids[..|ids| - 1], ids[|ids| - 1];
      assert ids == init + [last];
      GrantEachExact(grants, role, init, perms);
      NoDupAppend(init, last);
      assert GrantsOf(role, ids) == GrantsOf(role, init) + {(role, last)};
    }
  }

  /** No seeded code is listed twice. */
  ghost predicate ListedOnce(seeded: set<string>, codes: seq<string>) {
    forall i, j :: 0 <= i < j < |codes| && codes[i] in seeded ==> codes[i] != codes[j]
  }

  lemma {:induction false} ResolveDistinct(names: Names, seeded: set<string>, codes: seq<string>)
    requires forall c, d :: names.perm(c) == names.perm(d) ==> c == d
    ensures NoDup(Resolve(names, seeded, codes)) <==> ListedOnce(seeded, codes)
  {
    if codes != [] {
      var init, last := codes[..|codes| - 1], codes[|codes| - 1];
      assert codes == init + [last];
      ResolveDistinct(names, seeded, init);
      var ids, all := Resolve(names, seeded, init), Resolve(names, seeded, codes);
      if last in seeded {
        assert all == ids + [names.perm(last)];
        NoDupAppend(ids, names.perm(last));
        assert ListedOnce(seeded, codes) <==> ListedOnce(seeded, init) && last !in init;
      } else {
        assert all == ids;
        assert ListedOnce(seeded, codes) <==> ListedOnce(seeded, init);
      }
    }
  }

  // ---------------------------------------------------------------------------------------

  /** The unique index on (tenant, role code); rows without a tenant escape it. */
  ghost predicate UniqueRoles(roles: map<Id, Role>) {
    forall a, b | a in roles && b in roles && roles[a].tenant.Some? ::
      roles[a].tenant == roles[b].tenant && roles[a].code == roles[b].code ==> a == b
  }

  ghost predicate DistinctRoles(specs: seq<RoleSpec>) {
    forall i, j :: 0 <= i < j < |specs| ==> specs[i].code != specs[j].code
  }

  function RoleCodes(specs: seq<RoleSpec>): set<string> { set s | s in specs :: s.code }

  /** The row is the tenant's role with one of these codes. */
  predicate Target(t: Tenant, codes: set<string>, r: Role) { r.tenant == Some(t) && r.code in codes }

  lemma AtMostOneRole(roles: map<Id, Role>, t: Tenant, code: string)
    requires UniqueRoles(roles)
    ensures |RoleIds(roles, t, code)| <= 1
  {
    var ids := RoleIds(roles, t, code);
    if ids != {} {
      var id :| id in ids;
      assert ids == {id};
    }
  }

  lemma PlaceRoleEffect(names: Names, t: Tenant, roles: map<Id, Role>, s: RoleSpec)
    requires UniqueRoles(roles)
    ensures var r := PlaceRole(names, t, roles, s);
            && (r.Ok? <==> RoleIds(roles, t, s.code) != {} || names.role(t, s.code) !in roles)
            && (r.Ok? ==>
              var (after, id) := r.value;
              && UniqueRoles(after) && after.Keys == roles.Keys + {id}
              && after[id] == Role(Some(t), s.code, s.info)
              && (id in roles ==> roles[id].tenant == Some(t) && roles[id].code == s.code)
              && (forall i :: i in roles && i != id ==> after[i] == roles[i]))
  {
    AtMostOneRole(roles, t, s.code);
  }

  /** Old rows stay, and only the tenant's listed roles change or, under their hashed id, appear. */
  ghost predicate RowsTouched(names: Names, t: Tenant, roles: map<Id, Role>, after: map<Id, Role>, codes: set<string>) {
    && (forall id | id in roles ::
          id in after && after[id].tenant == roles[id].tenant && after[id].code == roles[id].code)
    && (forall id :: id in roles && !Target(t, codes, roles[id]) ==> after[id] == roles[id])
    && (forall id :: id in after && id !in roles ==>
          Target(t, codes, after[id]) && id == names.role(t, after[id].code))
  }

  /** Grants of all other roles stay, and none appears out of nowhere. */
  ghost predicate GrantsTouched(t: Tenant, db: Db, after: Db, codes: set<string>) {
    && (forall g: (Id, Id) :: g.0 in db.roles && !Target(t, codes, db.roles[g.0]) ==> (g in after.grants <==> g in db.grants))
    && (forall g :: g in after.grants && g.0 !in after.roles ==> g in db.grants)
  }

  /** What the role loop leaves behind. */
  ghost predicate RolesSeeded(plan: Plan, t: Tenant, db: Db, after: Db, specs: seq<RoleSpec>) {
    && after == db.(roles := after.roles, grants := after.grants)
    && UniqueRoles(after.roles)
    && RowsTouched(plan.names, t, db.roles, after.roles, RoleCodes(specs))
    && GrantsTouched(t, db, after, RoleCodes(specs))
    && (forall s :: s in specs ==> RoleSettled(plan, t, after, s))
  }

  /** The tenant has the role, as listed, holding exactly the listed permissions. */
  ghost predicate RoleSettled(plan: Plan, t: Tenant, db: Db, s: RoleSpec) {
    var ids := Resolve(plan.names, Codes(plan.perms), s.perms);
    && RoleIds(db.roles, t, s.code) != {}
    && (forall id :: id in RoleIds(db.roles, t, s.code) ==>
          db.roles[id].info == s.info && forall p :: (id, p) in db.grants <==> p in ids)
    && NoDup(ids) && forall p :: p in ids ==> p in db.perms
  }

  /** When one role can be seeded. */
  ghost predicate RolePossible(plan: Plan, t: Tenant, db: Db, s: RoleSpec) {
    && (RoleIds(db.roles, t, s.code) != {} || plan.names.role(t, s.code) !in db.roles)
    && NoDup(Resolve(plan.names, Codes(plan.perms), s.perms))
    && forall p :: p in Resolve(plan.names, Codes(plan.perms), s.perms) ==> p in db.perms
  }

  lemma SeedRoleOkIff(plan: Plan, t: Tenant, db: Db, s: RoleSpec)
    requires UniqueRoles(db.roles)
    ensures SeedRole(plan, t, db, s).Ok? <==> RolePossible(plan, t, db, s)
  {
    PlaceRoleEffect(plan.names, t, db.roles, s);
    var placed := PlaceRole(plan.names, t, db.roles, s);
    if placed.Ok? {
      var (roles, id) := placed.value;
      GrantEachExact(Revoke(db.grants, id), id, Resolve(plan.names, Codes(plan.perms), s.perms), db.perms.Keys);
    }
  }

  lemma SeedRoleEffect(plan: Plan, t: Tenant, db: Db, s: RoleSpec)
    requires UniqueRoles(db.roles) && SeedRole(plan, t, db, s).Ok?
    ensures RolesSeeded(plan, t, db, SeedRole(plan, t, db, s).value, [s])
  {
    PlaceRoleEffect(plan.names, t, db.roles, s);
    var (roles, id) := PlaceRole(plan.names, t, db.roles, s).value;
    var ids := Resolve(plan.names, Codes(plan.perms), s.perms);
    GrantEachExact(Revoke(db.grants, id), id, ids, db.perms.Keys);
    var after := SeedRole(plan, t, db, s).value;
    assert RoleCodes([s]) == {s.code};
    assert id in RoleIds(after.roles, t, s.code);
    assert forall i :: i in RoleIds(after.roles, t, s.code) ==> i == id;
    assert RoleSettled(plan, t, after, s);
  }

  lemma SplitRoles(specs: seq<RoleSpec>)
    requires specs != [] && DistinctRoles(specs)
    ensures var n := |specs| - 1;
            RoleCodes(specs) == RoleCodes(specs[..n]) + {specs[n].code} && specs[n].code !in RoleCodes(specs[..n])
  {
    var init, last := specs[..|specs| - 1], specs[|specs| - 1];
    assert specs == init + [last];
  }

  /** A settled role stays settled while another role is seeded. */
  lemma RoleStaysSettled(plan: Plan, t: Tenant, db: Db, after: Db, s: RoleSpec, other: RoleSpec)
    requires RolesSeeded(plan, t, db, after, [s]) && UniqueRoles(db.roles)
    requires RoleSettled(plan, t, db, other) && other.code != s.code
    ensures RoleSettled(plan, t, after, other)
  {
    assert RoleCodes([s]) == {s.code};
    var id :| id in RoleIds(db.roles, t, other.code);
    assert id in RoleIds(after.roles, t, other.code);
    assert forall i :: i in RoleIds(after.roles, t, other.code) ==> i == id;
  }

  lemma RowsTouchedTwice(names: Names, t: Tenant, roles: map<Id, Role>, mid: map<Id, Role>, after: map<Id, Role>,
        codes: set<string>, more: set<string>)
    requires RowsTouched(names, t, roles, mid, codes) && RowsTouched(names, t, mid, after, more)
    ensures RowsTouched(names, t, roles, after, codes + more)
  {
  }

  lemma GrantsTouchedTwice(names: Names, t: Tenant, db: Db, mid: Db, after: Db, codes: set<string>, more: set<string>)
    requires RowsTouched(names, t, db.roles, mid.roles, codes) && RowsTouched(names, t, mid.roles, after.roles, more)
    requires GrantsTouched(t, db, mid, codes) && GrantsTouched(t, mid, after, more)
    ensures GrantsTouched(t, db, after, codes + more)
  {
  }

  lemma AllSettled(plan: Plan, t: Tenant, db: Db, mid: Db, after: Db, init: seq<RoleSpec>, last: RoleSpec)
    requires RolesSeeded(plan, t, db, mid, init) && RolesSeeded(plan, t, mid, after, [last])
    requires last.code !in RoleCodes(init)
    ensures forall s :: s in init + [last] ==> RoleSettled(plan, t, after, s)
  {
    forall s | s in init + [last] ensures RoleSettled(plan, t, after, s) {
      if s in init {
        assert s.code in RoleCodes(init);
        RoleStaysSettled(plan, t, mid, after, last, s);
      } else {
        assert last in [last];
      }
    }
  }

  lemma SeededTwice(plan: Plan, t: Tenant, db: Db, mid: Db, after: Db, specs: seq<RoleSpec>)
    requires specs != [] && DistinctRoles(specs) && UniqueRoles(db.roles)
    requires RolesSeeded(plan, t, db, mid, specs[..|specs| - 1])
    requires RolesSeeded(plan, t, mid, after, [specs[|specs| - 1]])
    ensures RolesSeeded(plan, t, db, after, specs)
  {
    var init, last := specs[..|specs| - 1], specs[|specs| - 1];
    SplitRoles(specs);
    assert RoleCodes([last]) == {last.code};
    RowsTouchedTwice(plan.names, t, db.roles, mid.roles, after.roles, RoleCodes(init), {last.code});
    GrantsTouchedTwice(plan.names, t, db, mid, after, RoleCodes(init), {last.code});
    assert specs == init + [last];
    AllSettled(plan, t, db, mid, after, init, last);
  }

  lemma {:induction false} SeedRolesEffect(plan: Plan, t: Tenant, db: Db, specs: seq<RoleSpec>)
    requires DistinctRoles(specs) && UniqueRoles(db.roles) && SeedRoles(plan, t, db, specs).Ok?
    ensures RolesSeeded(plan, t, db, SeedRoles(plan, t, db, specs).value, specs)
  {
    if specs != [] {
      var init, last := specs[..|specs| - 1], specs[|specs| - 1];
      SeedRolesEffect(plan, t, db, init);
      var mid := SeedRoles(plan, t, db, init).value;
      SeedRoleEffect(plan, t, mid, last);
      SeededTwice(plan, t, db, mid, SeedRoles(plan, t, db, specs).value, specs);
    }
  }

  /** Seeding other roles neither makes a role possible nor spoils it. */
  lemma PossibleStays(plan: Plan, t: Tenant, db: Db, mid: Db, init: seq<RoleSpec>, s: RoleSpec)
    requires RolesSeeded(plan, t, db, mid, init) && s.code !in RoleCodes(init)
    requires forall c, d :: plan.names.role(t, c) == plan.names.role(t, d) ==> c == d
    ensures RolePossible(plan, t, mid, s) <==> RolePossible(plan, t, db, s)
  {
    forall id ensures id in RoleIds(mid.roles, t, s.code) <==> id in RoleIds(db.roles, t, s.code) {
    }
    assert RoleIds(mid.roles, t, s.code) == RoleIds(db.roles, t, s.code);
  }

  /** The role loop succeeds exactly when each role exists or its computed id is free, no seeded
      permission is listed twice for it, and every computed permission id is a row. */
  lemma {:induction false} SeedRolesOkIff(plan: Plan, t: Tenant, db: Db, specs: seq<RoleSpec>)
    requires DistinctRoles(specs) && UniqueRoles(db.roles)
    requires forall c, d :: plan.names.role(t, c) == plan.names.role(t, d) ==> c == d
    ensures SeedRoles(plan, t, db, specs).Ok? <==> forall s :: s in specs ==> RolePossible(plan, t, db, s)
  {
    if specs != [] {
      var init, last := specs[..|specs| - 1], specs[|specs| - 1];
      assert specs == init + [last];
      SplitRoles(specs);
      SeedRolesOkIff(plan, t, db, init);
      if SeedRoles(plan, t, db, init).Ok? {
        var mid := SeedRoles(plan, t, db, init).value;
        SeedRolesEffect(plan, t, db, init);
        PossibleStays(plan, t, db, mid, init, last);
        SeedRoleOkIff(plan, t, mid, last);
      }
    }
  }

  lemma {:induction false} SeedRolesSettled(plan: Plan, t: Tenant, db: Db, specs: seq<RoleSpec>)
    requires UniqueRoles(db.roles) && forall s :: s in specs ==> RoleSettled(plan, t, db, s)
    ensures SeedRoles(plan, t, db, specs) == Ok(db)
  {
    if specs != [] {
      var last := specs[|specs| - 1];
      SeedRolesSettled(plan, t, db, specs[..|specs| - 1]);
      assert RoleSettled(plan, t, db, last);
      SeedRoleSettled(plan, t, db, last);
    }
  }

  lemma SeedRoleSettled(plan: Plan, t: Tenant, db: Db, s: RoleSpec)
    requires UniqueRoles(db.roles) && RoleSettled(plan, t, db, s)
    ensures SeedRole(plan, t, db, s) == Ok(db)
  {
    SeedRoleOkIff(plan, t, db, s);
    SeedRoleEffect(plan, t, db, s);
    PlaceRoleEffect(plan.names, t, db.roles, s);
    var after := SeedRole(plan, t, db, s).value;
    var (roles, id) := PlaceRole(plan.names, t, db.roles, s).value;
    var ids := Resolve(plan.names, Codes(plan.perms), s.perms);
    assert id in RoleIds(db.roles, t, s.code) by {
      var i :| i in RoleIds(db.roles, t, s.code);
      assert roles[i].code == s.code;
    }
    assert after.roles == db.roles;
    GrantEachExact(Revoke(db.grants, id), id, ids, db.perms.Keys);
    assert after.grants == db.grants;
  }
}
