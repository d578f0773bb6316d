/** The loops of cmd/seed/main.go over one Postgres transaction, statement by statement. */
module SeedTransaction {
  import opened Base
  import opened SeedSpec
  import opened SeedTheorems
  import opened SeedRoleTheorems
  import opened SeedRun

  // A loop that failed part way fails as a whole.

  lemma {:induction false} PermsPrefix(names: Names, perms: map<Id, Perm>, specs: seq<PermSpec>, n: nat)
    requires n <= |specs|
    ensures UpsertPerms(names, perms, specs[..n]).Err? ==> UpsertPerms(names, perms, specs).Err?
  {
    if n < |specs| {
      assert specs[..|specs| - 1][..n] == specs[..n];
      PermsPrefix(names, perms, specs[..|specs| - 1], n);
    } else {
      assert specs[..n] == specs;
    }
  }

  lemma {:induction false} RolesPrefix(plan: Plan, t: Tenant, db: Db, specs: seq<RoleSpec>, n: nat)
    requires n <= |specs|
    ensures SeedRoles(plan, t, db, specs[..n]).Err? ==> SeedRoles(plan, t, db, specs).Err?
  {
    if n < |specs| {
      assert specs[..|specs| - 1][..n] == specs[..n];
      RolesPrefix(plan, t, db, specs[..|specs| - 1], n);
    } else {
      assert specs[..n] == specs;
    }
  }

  lemma {:induction false} GrantsPrefix(plan: Plan, grants: set<(Id, Id)>, role: Id, codes: seq<string>, n: nat,
        perms: set<Id>)
    requires n <= |codes|
    ensures GrantEach(grants, role, Resolve(plan.names, Codes(plan.perms), codes[..n]), perms).Err? ==>
      GrantEach(grants, role, Resolve(plan.names, Codes(plan.perms), codes), perms).Err?
  {
    if n < |codes| {
      var init := codes[..|codes| - 1];
      assert init[..n] == codes[..n];
      var ids, all := Resolve(plan.names, Codes(plan.perms), init), Resolve(plan.names, Codes(plan.perms), codes);
      assert all == ids || all[..|all| - 1] == ids;
      GrantsPrefix(plan, grants, role, init, n, perms);
    } else {
      assert codes[..n] == codes;
    }
  }

  /** The next code adds a grant, is skipped, or ends it. */
  lemma GrantNext(plan: Plan, grants: set<(Id, Id)>, role: Id, codes: seq<string>, j: nat, perms: set<Id>)
    requires j < |codes|
    ensures var before := GrantEach(grants, role, Resolve(plan.names, Codes(plan.perms), codes[..j]), perms);
            var perm := plan.names.perm(codes[j]);
            GrantEach(grants, role, Resolve(plan.names, Codes(plan.perms), codes[..j + 1]), perms) ==
            if codes[j] !in Codes(plan.perms) || before.Err? then before
            else if (role, perm) in before.value then Err(Duplicate)
            else if perm !in perms then Err(ForeignKey)
            else Ok(before.value + {(role, perm)})
  {
    assert codes[..j + 1][..j] == codes[..j];
    var before, now := Resolve(plan.names, Codes(plan.perms), codes[..j]), Resolve(plan.names, Codes(plan.perms), codes[..j + 1]);
    if codes[j] in Codes(plan.perms) {
      assert now == before + [plan.names.perm(codes[j])] && now[..|now| - 1] == before;
    } else {
      assert now == before;
    }
  }

  class Transaction {
    const plan: Plan
    /** Which statements, counted from the first, fail by accident. */
    const faulty: nat -> bool
    var committed: Db
    var db: Db
    var aborted: bool
    var sent: nat
    /** No state that the transaction has been in so far had a grant or a link that dangled. */
    ghost var intact: bool

    constructor (plan: Plan, faulty: nat -> bool, committed: Db)
      ensures this.plan == plan && this.faulty == faulty
      ensures this.committed == committed && db == committed && !aborted && intact
    {
      this.plan, this.faulty := plan, faulty;
      this.committed, db, aborted, sent, intact := committed, committed, false, 0, true;
    }

    ghost predicate Calm() { forall n :: !faulty(n) }

    /** How a step stands that started from `was`: unless the transaction is aborted, success means
        the contents are what the step should give; and without accidents success means that the
        step was possible. */
    ghost predicate Did(was: Db, wasAborted: bool, err: Option<Error>, should: Result<Db, Error>)
      reads this
    {
      && (wasAborted ==> aborted)
      && (err.None? && !aborted ==> should == Ok(db))
      && (Calm() && !wasAborted ==> (should.Ok? <==> err.None? && !aborted))
    }

    ghost predicate Safe() reads this { intact && NoDangling(db) }

    /** The legacy permissions of the plan are rows. */
    ghost predicate Planted() reads this {
      forall c :: c in LegacyCodes(plan) ==> plan.names.legacyPerm(c) in db.legacyPerms
    }

    /** The effect of a statement on the contents. */
    method Write(next: Db)
      modifies this`db, this`intact
      ensures db == next && intact == (old(intact) && NoDangling(next))
    {
      db, intact := next, intact && NoDangling(next);
    }

    /** Sends one statement that the database refuses with `refusal`, if any. A failed statement
        aborts the transaction, and an aborted transaction refuses everything. */
    method Send(refusal: Option<Error>) returns (err: Option<Error>)
      modifies this`aborted, this`sent
      ensures err.None? <==> !aborted
      ensures old(aborted) ==> err == Some(Aborted)
      ensures err.None? ==> refusal.None?
      ensures Calm() && !old(aborted) ==> err == refusal
    {
      sent := sent + 1;
      err := if aborted || faulty(sent) then Some(Aborted) else refusal;
      aborted := err.Some?;
    }

    method EnqueueSyncEvents(t: Tenant, slug: string) returns (err: Option<Error>)
      modifies this`db, this`aborted, this`sent, this`intact
      ensures old(Safe()) ==> Safe()
      ensures Did(old(db), old(aborted), err,
                  Ok(old(db).(events := UpsertAll(old(db).events, EventKeys(t, plan.destinations), plan.destinations, PutEvent(slug)))))
    {
      var keys := EventKeys(t, plan.destinations);
      for i := 0 to |plan.destinations|
        invariant old(Safe()) ==> Safe()
        invariant Did(old(db), old(aborted), None,
                      Ok(old(db).(events := UpsertAll(old(db).events, keys[..i], plan.destinations[..i], PutEvent(slug)))))
      {
        assert keys[..i + 1][..i] == keys[..i] && plan.destinations[..i + 1][..i] == plan.destinations[..i];
        var key := keys[i];
        err := Send(None);
        if err.None? && key in db.events {
          err := Send(None);
          if err.Some? {
            return;
          }
          Write(db.(events := db.events[key := PutEvent(slug)(Some(db.events[key]), plan.destinations[i])]));
        } else {
          err := Send(if key in db.events then Some(Duplicate) else None);
          if err.Some? && err.value != Duplicate {
            return;
          }
          if err.None? {
            Write(db.(events := db.events[key := PutEvent(slug)(None, plan.destinations[i])]));
          }
        }
      }
      assert keys[..|keys|] == keys && plan.destinations[..|plan.destinations|] == plan.destinations;
      err := None;
    }

    /** Unlinks a legacy permission from its roles one by one, then deletes it. */
    method DropLegacyPerm(p: Id) returns (err: Option<Error>)
      modifies this`db, this`aborted, this`sent, this`intact
      ensures old(Safe()) ==> Safe()
      ensures err.None? ==> !aborted
      ensures Did(old(db), old(aborted), err,
                  Ok(old(db).(links := WithoutPerms(old(db).links, {p}), legacyPerms := old(db).legacyPerms - {p})))
    {
      err := Send(None);
      if err.Some? {
        return;
      }
      var roles := set l | l in db.links && l.1 == p :: l.0;
      while roles != {}
        invariant old(Safe()) ==> Safe()
        invariant !aborted && !old(aborted)
        invariant db == old(db).(links := db.links)
        invariant WithoutPerms(db.links, {p}) == WithoutPerms(old(db).links, {p})
        invariant forall l :: l in db.links && l.1 == p ==> l.0 in roles
      {
        var r :| r in roles;
        roles := roles - {r};
        err := Send(None);
        if err.Some? {
          return;
        }
        Write(db.(links := db.links - {(r, p)}));
      }
      err := Send(None);
      if err.Some? {
        return;
      }
      assert db.links == WithoutPerms(old(db).links, {p});
      Write(db.(legacyPerms := db.legacyPerms - {p}));
    }

    /** Grants first, then the permissions. */
    method RemoveRetiredOrdering() returns (err: Option<Error>)
      modifies this`db, this`aborted, this`sent, this`intact
      ensures old(Safe()) ==> Safe()
      ensures err.None? ==> !aborted
      ensures Did(old(db), old(aborted), err,
                  Ok(old(db).(grants := WithoutPerms(old(db).grants, RetiredIds(plan, old(db).perms)),
                              perms := old(db).perms - RetiredIds(plan, old(db).perms))))
    {
      err := Send(None);
      if err.Some? {
        return;
      }
      var ids := RetiredIds(plan, db.perms);
      if ids != {} {
        err := Send(None);
        if err.Some? {
          return;
        }
        Write(db.(grants := WithoutPerms(db.grants, ids)));
        err := Send(if exists g :: g in db.grants && g.1 in ids then Some(ForeignKey) else None);
        if err.Some? {
          return;
        }
        Write(db.(perms := db.perms - ids));
      }
      assert ids == {} ==> WithoutPerms(old(db).grants, ids) == old(db).grants && old(db).perms - ids == old(db).perms;
    }

    method RemoveRetiredLegacy() returns (err: Option<Error>)
      modifies this`db, this`aborted, this`sent, this`intact
      ensures old(Safe()) ==> Safe()
      ensures Did(old(db), old(aborted), err,
                  Ok(old(db).(links := WithoutPerms(old(db).links, RetiredLegacyIds(plan, old(db).legacyPerms)),
                              legacyPerms := old(db).legacyPerms - RetiredLegacyIds(plan, old(db).legacyPerms))))
      ensures err.None? && !aborted ==> OnlyRetiredLegacyGone(old(db), db)
    {
      err := Send(None);
      if err.Some? {
        return;
      }
      ghost var mid := db;
      var legacy := RetiredLegacyIds(plan, db.legacyPerms);
      var todo := legacy;
      while todo != {}
        invariant old(Safe()) ==> Safe()
        invariant err.None? && !aborted && !old(aborted) && todo <= legacy
        invariant db == mid.(links := WithoutPerms(mid.links, legacy - todo), legacyPerms := mid.legacyPerms - (legacy - todo))
      {
        var p :| p in todo;
        ghost var before := db;
        err := DropLegacyPerm(p);
        if err.Some? {
          return;
        }
        todo := todo - {p};
        assert WithoutPerms(before.links, {p}) == WithoutPerms(mid.links, legacy - todo);
        assert before.legacyPerms - {p} == mid.legacyPerms - (legacy - todo);
      }
      assert legacy - todo == legacy;
    }

    /** The legacy permissions of the retired module are gone with the links to them; any other is as it was, and so
        is any other link. */
    ghost predicate OnlyRetiredLegacyGone(was: Db, now: Db) {
      && (forall id :: id in now.legacyPerms <==> id in was.legacyPerms && was.legacyPerms[id].mod != plan.retiredModule)
      && (forall id :: id in now.legacyPerms ==> now.legacyPerms[id] == was.legacyPerms[id])
      && (forall l :: l in now.links <==>
           l in was.links && !(l.1 in was.legacyPerms && was.legacyPerms[l.1].mod == plan.retiredModule))
      && now.legacyRoles == was.legacyRoles
    }

    /** The permissions whose code has the retired prefix are gone with the grants of them; any other is as it was, and
        so is any other grant. */
    ghost predicate OnlyRetiredPermsGone(was: Db, now: Db) {
      && (forall id :: id in now.perms <==> id in was.perms && !(plan.retiredPrefix <= was.perms[id].code))
      && (forall id :: id in now.perms ==> now.perms[id] == was.perms[id])
      && (forall g :: g in now.grants <==>
           g in was.grants && !(g.1 in was.perms && plan.retiredPrefix <= was.perms[g.1].code))
      && now.roles == was.roles
    }

    method RemoveRetiredPermissions() returns (err: Option<Error>)
      modifies this`db, this`aborted, this`sent, this`intact
      ensures old(Safe()) ==> Safe()
      ensures Did(old(db), old(aborted), err, Ok(RetirePerms(plan, old(db))))
      ensures err.None? && !aborted ==> OnlyRetiredLegacyGone(old(db), db) && OnlyRetiredPermsGone(old(db), db)
    {
      err := RemoveRetiredOrdering();
      if err.Some? {
        return;
      }
      err := RemoveRetiredLegacy();
    }

    /** Tenant values of a retired key go with the platform default. */
    method RemoveRetiredServiceConfigs() returns (err: Option<Error>)
      modifies this`db, this`aborted, this`sent, this`intact
      ensures old(Safe()) ==> Safe()
      ensures Did(old(db), old(aborted), err, Ok(old(db).(configs := KeepConfigs(old(db).configs, plan.retiredKeys))))
    {
      err := Send(None);
      if err.None? {
        Write(db.(configs := KeepConfigs(db.configs, plan.retiredKeys)));
      }
    }

    method SeedPermissions() returns (err: Option<Error>)
      modifies this`db, this`aborted, this`sent, this`intact
      ensures old(Safe()) ==> Safe()
      ensures Did(old(db), old(aborted), err,
                  Ok(old(db).(legacyPerms := UpsertAll(old(db).legacyPerms, LegacyPermKeys(plan), plan.legacyPerms, PutLegacyPerm))))
      ensures err.None? ==> Planted()
    {
      var keys := LegacyPermKeys(plan);
      for i := 0 to |plan.legacyPerms|
        invariant old(Safe()) ==> Safe()
        invariant i > 0 ==> !aborted
        invariant forall k :: 0 <= k < i ==> keys[k] in db.legacyPerms
        invariant Did(old(db), old(aborted), None,
                      Ok(old(db).(legacyPerms := UpsertAll(old(db).legacyPerms, keys[..i], plan.legacyPerms[..i], PutLegacyPerm))))
      {
        assert keys[..i + 1][..i] == keys[..i] && plan.legacyPerms[..i + 1][..i] == plan.legacyPerms[..i];
        err := Send(None);
        if err.Some? {
          return;
        }
        var row := PutLegacyPerm(if keys[i] in db.legacyPerms then Some(db.legacyPerms[keys[i]]) else None, plan.legacyPerms[i]);
        err := Send(None);
        if err.Some? {
          return;
        }
        Write(db.(legacyPerms := db.legacyPerms[keys[i] := row]));
      }
      assert keys[..|keys|] == keys && plan.legacyPerms[..|plan.legacyPerms|] == plan.legacyPerms;
      err := None;
      forall c | c in LegacyCodes(plan) ensures plan.names.legacyPerm(c) in db.legacyPerms {
        var k :| 0 <= k < |keys| && plan.legacyPerms[k].code == c;
        assert keys[k] == plan.names.legacyPerm(c);
      }
    }

    method SeedRoleTable() returns (err: Option<Error>)
      modifies this`db, this`aborted, this`sent, this`intact
      ensures old(Safe()) ==> Safe()
      ensures db == old(db).(legacyRoles := db.legacyRoles)
      ensures Did(old(db), old(aborted), err,
                  Ok(old(db).(legacyRoles := UpsertAll(old(db).legacyRoles, LegacyRoleKeys(plan), plan.legacyRoles, PutLegacyRole))))
    {
      var keys := LegacyRoleKeys(plan);
      for i := 0 to |plan.legacyRoles|
        invariant old(Safe()) ==> Safe()
        invariant i > 0 ==> !aborted
        invariant db == old(db).(legacyRoles := db.legacyRoles)
        invariant Did(old(db), old(aborted), None,
                      Ok(old(db).(legacyRoles := UpsertAll(old(db).legacyRoles, keys[..i], plan.legacyRoles[..i], PutLegacyRole))))
      {
        assert keys[..i + 1][..i] == keys[..i] && plan.legacyRoles[..i + 1][..i] == plan.legacyRoles[..i];
        err := Send(None);
        if err.Some? {
          return;
        }
        var row := PutLegacyRole(if keys[i] in db.legacyRoles then Some(db.legacyRoles[keys[i]]) else None, plan.legacyRoles[i]);
        err := Send(None);
        if err.Some? {
          return;
        }
        Write(db.(legacyRoles := db.legacyRoles[keys[i] := row]));
      }
      assert keys[..|keys|] == keys && plan.legacyRoles[..|plan.legacyRoles|] == plan.legacyRoles;
      err := None;
    }

    /** Walks the map in whatever order it comes: on success the outcome is that of every order, and
        without accidents it succeeds exactly when every entry can be linked. */
    method SeedRolePermissions() returns (err: Option<Error>)
      modifies this`db, this`aborted, this`sent, this`intact
      ensures old(Safe() && Planted()) ==> Safe()
      ensures old(aborted) ==> aborted
      ensures err.None? && !aborted ==> forall order | Walk(plan, order) :: LinkInOrder(plan, old(db), order) == Ok(db)
      ensures Calm() && !old(aborted) ==>
                ((forall c :: c in plan.legacyGrants ==> Linkable(plan, old(db), c)) <==> err.None? && !aborted)
    {
      var todo := plan.legacyGrants.Keys;
      ghost var order: seq<string> := [];
      while todo != {}
        invariant old(Safe() && Planted()) ==> Safe()
        invariant NoDup(order) && (forall c :: c in order <==> c in plan.legacyGrants && c !in todo)
        invariant todo <= plan.legacyGrants.Keys
        invariant old(aborted) ==> aborted
        invariant !aborted ==> LinkInOrder(plan, old(db), order) == Ok(db)
        invariant Calm() && !old(aborted) ==> !aborted
        invariant db == old(db).(links := db.links)
      {
        var code :| code in todo;
        todo := todo - {code};
        NoDupAppend(order, code);
        assert (order + [code])[..|order|] == order;
        order := order + [code];
        var codes := plan.legacyGrants[code];
        LookUpExact(plan, code);
        var ids := LookUp(plan.names, LegacyCodes(plan), codes);
        if ids.None? {
          assert !Linkable(plan, old(db), code);
          return Some(NotSeeded);
        }
        err := Send(None);
        if err.Some? {
          return;
        }
        if code !in db.legacyRoles {
          assert !Linkable(plan, old(db), code);
          return Some(NotFound);
        }
        Write(LinkRole(db, code, ids).value);
      }
      err := None;
      if !aborted {
        LinkInOrderExact(plan, old(db), order);
        forall other | Walk(plan, other) ensures LinkInOrder(plan, old(db), other) == Ok(db) {
          LinkOrderIrrelevant(plan, old(db), order, other);
        }
      }
    }

    /** Update where the code exists, else create under the computed id. */
    method SeedOrderingPermission(s: PermSpec) returns (err: Option<Error>)
      modifies this`db, this`aborted, this`sent, this`intact
      ensures old(Safe()) ==> Safe()
      ensures db == old(db).(perms := db.perms)
      ensures err.None? <==> !aborted
      ensures old(aborted) ==> aborted
      ensures err.None? ==> UpsertPerm(plan.names, old(db).perms, s) == Ok(db.perms)
      ensures Calm() && !old(aborted) ==> (UpsertPerm(plan.names, old(db).perms, s).Ok? <==> err.None?)
    {
      err := Send(None);
      if err.Some? {
        return;
      }
      if CodeTaken(db.perms, s.code) {
        err := Send(None);
        if err.Some? {
          return;
        }
        Write(db.(perms := SetInfo(db.perms, s)));
      } else {
        err := Send(if plan.names.perm(s.code) in db.perms then Some(Duplicate) else None);
        if err.Some? {
          return;
        }
        Write(db.(perms := db.perms[plan.names.perm(s.code) := Perm(s.code, s.info)]));
      }
    }

    method SeedOrderingPermissions() returns (err: Option<Error>)
      modifies this`db, this`aborted, this`sent, this`intact
      ensures old(Safe()) ==> Safe()
      ensures old(aborted) ==> aborted
      ensures db == old(db).(perms := db.perms)
      ensures err.None? && !aborted ==> UpsertPerms(plan.names, old(db).perms, plan.perms) == Ok(db.perms)
      ensures Calm() && !old(aborted) ==> (UpsertPerms(plan.names, old(db).perms, plan.perms).Ok? <==> err.None? && !aborted)
    {
      for i := 0 to |plan.perms|
        invariant old(Safe()) ==> Safe()
        invariant old(aborted) ==> aborted
        invariant !aborted ==> UpsertPerms(plan.names, old(db).perms, plan.perms[..i]) == Ok(db.perms)
        invariant db == old(db).(perms := db.perms)
        invariant Calm() && !old(aborted) ==> !aborted
      {
        assert plan.perms[..i + 1][..i] == plan.perms[..i];
        err := SeedOrderingPermission(plan.perms[i]);
        if err.Some? {
          PermsPrefix(plan.names, old(db).perms, plan.perms, i + 1);
          return;
        }
      }
      assert plan.perms[..|plan.perms|] == plan.perms;
      err := None;
    }

    /** Creates the role or updates it and fetches its id. */
    method EnsureRole(t: Tenant, s: RoleSpec) returns (err: Option<Error>, id: Id)
      modifies this`db, this`aborted, this`sent, this`intact
      ensures old(Safe()) ==> Safe()
      ensures err.None? ==> !aborted
      ensures old(aborted) ==> aborted
      ensures err.None? ==> PlaceRole(plan.names, t, old(db).roles, s) == Ok((db.roles, id)) && db == old(db).(roles := db.roles)
      ensures err.None? ==> id in db.roles
      ensures Calm() && !old(aborted) ==> (PlaceRole(plan.names, t, old(db).roles, s).Ok? <==> err.None?)
    {
      id := plan.names.role(t, s.code);
      err := Send(None);
      if err.Some? {
        return;
      }
      var ids := RoleIds(db.roles, t, s.code);
      if ids == {} {
        err := Send(if id in db.roles then Some(Duplicate) else None);
        if err.Some? {
          return;
        }
        Write(db.(roles := db.roles[id := Role(Some(t), s.code, s.info)]));
      } else {
        err := Send(None);
        if err.Some? {
          return;
        }
        Write(db.(roles := SetRoleInfo(db.roles, ids, s.info)));
        err := Send(None);
        if err.Some? {
          return;
        }
        ids := RoleIds(db.roles, t, s.code);
        assert ids == RoleIds(old(db).roles, t, s.code);
        if |ids| > 1 {
          return Some(NotSingular), id;
        }
        id :| id in ids;
        Singleton(ids, id);
      }
    }

    /** The grants of a role, one insert each. A duplicate is passed over, but it aborts the transaction. */
    method GrantAll(role: Id, codes: seq<string>) returns (err: Option<Error>)
      modifies this`db, this`aborted, this`sent, this`intact
      ensures old(Safe() && role in db.roles) ==> Safe()
      ensures db == old(db).(grants := db.grants)
      ensures old(aborted) ==> aborted
      ensures var ids := Resolve(plan.names, Codes(plan.perms), codes);
        && (err.None? && !aborted ==> GrantEach(old(db).grants, role, ids, db.perms.Keys) == Ok(db.grants))
        && (Calm() && !old(aborted) ==> (GrantEach(old(db).grants, role, ids, db.perms.Keys).Ok? <==> err.None? && !aborted))
    {
      for j := 0 to |codes|
        invariant old(Safe() && role in db.roles) ==> Safe()
        invariant db == old(db).(grants := db.grants)
        invariant old(aborted) ==> aborted
        invariant !aborted ==>
          GrantEach(old(db).grants, role, Resolve(plan.names, Codes(plan.perms), codes[..j]), db.perms.Keys) == Ok(db.grants)
        invariant Calm() && !old(aborted) ==>
          (!aborted <==> GrantEach(old(db).grants, role, Resolve(plan.names, Codes(plan.perms), codes[..j]), db.perms.Keys).Ok?)
      {
        var code := codes[j];
        GrantNext(plan, old(db).grants, role, codes, j, db.perms.Keys);
        if code !in Codes(plan.perms) {
          continue;
        }
        var perm := plan.names.perm(code);
        err := Send(if (role, perm) in db.grants then Some(Duplicate) else if perm !in db.perms then Some(ForeignKey) else None);
        if err.Some? {
          if err.value == Duplicate {
            continue;
          }
          GrantsPrefix(plan, old(db).grants, role, codes, j + 1, db.perms.Keys);
          return;
        }
        Write(db.(grants := db.grants + {(role, perm)}));
      }
      assert codes[..|codes|] == codes;
      err := None;
    }

    /** One role: its row, then its grants from scratch. The delete's error is ignored, but it aborts
        the transaction. */
    method SeedOrderingRole(t: Tenant, s: RoleSpec) returns (err: Option<Error>)
      modifies this`db, this`aborted, this`sent, this`intact
      ensures old(Safe()) ==> Safe()
      ensures Did(old(db), old(aborted), err, SeedRole(plan, t, old(db), s))
    {
      var id;
      err, id := EnsureRole(t, s);
      if err.Some? {
        return;
      }
      var ignored := Send(None);
      if ignored.None? {
        Write(db.(grants := Revoke(db.grants, id)));
      }
      err := GrantAll(id, s.perms);
    }

    method SeedOrderingRoles(t: Tenant) returns (err: Option<Error>)
      modifies this`db, this`aborted, this`sent, this`intact
      ensures old(Safe()) ==> Safe()
      ensures Did(old(db), old(aborted), err, SeedRoles(plan, t, old(db), plan.roles))
    {
      for i := 0 to |plan.roles|
        invariant old(Safe()) ==> Safe()
        invariant Did(old(db), old(aborted), None, SeedRoles(plan, t, old(db), plan.roles[..i]))
      {
        assert plan.roles[..i + 1][..i] == plan.roles[..i];
        err := SeedOrderingRole(t, plan.roles[i]);
        if err.Some? {
          RolesPrefix(plan, t, old(db), plan.roles, i + 1);
          return;
        }
      }
      assert plan.roles[..|plan.roles|] == plan.roles;
      err := None;
    }

    method SeedServiceConfigs() returns (err: Option<Error>)
      modifies this`db, this`aborted, this`sent, this`intact
      ensures old(Safe()) ==> Safe()
      ensures Did(old(db), old(aborted), err, Ok(old(db).(configs := UpsertConfigs(old(db).configs, plan.configs))))
    {
      for i := 0 to |plan.configs|
        invariant old(Safe()) ==> Safe()
        invariant Did(old(db), old(aborted), None, Ok(old(db).(configs := UpsertConfigs(old(db).configs, plan.configs[..i]))))
      {
        assert plan.configs[..i + 1][..i] == plan.configs[..i];
        var s := plan.configs[i];
        err := Send(None);
        if err.Some? {
          return;
        }
        if HasPlatformKey(db.configs, s.key) {
          err := Send(None);
          if err.Some? {
            return;
          }
          Write(db.(configs := SetPlatform(db.configs, s)));
        } else {
          err := Send(None);
          if err.Some? {
            return;
          }
          Write(db.(configs := db.configs + [Config(None, s.key, s.setting)]));
        }
      }
      assert plan.configs[..|plan.configs|] == plan.configs;
      err := None;
    }

    method FirstSteps(t: Tenant, slug: string) returns (err: Option<Error>)
      modifies this`db, this`aborted, this`sent, this`intact
      ensures old(Safe()) ==> Safe()
      ensures err.None? ==> Planted()
      ensures Did(old(db), old(aborted), err, Ok(Prepare(plan, t, slug, old(db))))
    {
      err := EnqueueSyncEvents(t, slug);
      if err.Some? {
        return;
      }
      err := RemoveRetiredPermissions();
      if err.Some? {
        return;
      }
      err := RemoveRetiredServiceConfigs();
      if err.Some? {
        return;
      }
      err := SeedPermissions();
      if err.Some? {
        return;
      }
      err := SeedRoleTable();
    }

    method LastSteps(t: Tenant) returns (err: Option<Error>)
      modifies this`db, this`aborted, this`sent, this`intact
      ensures old(Safe()) ==> Safe()
      ensures Did(old(db), old(aborted), err, Finish(plan, t, old(db)))
    {
      err := SeedOrderingPermissions();
      if err.Some? {
        return;
      }
      err := SeedOrderingRoles(t);
      if err.Some? {
        return;
      }
      err := SeedServiceConfigs();
    }

    method Steps(t: Tenant, slug: string) returns (err: Option<Error>)
      modifies this`db, this`aborted, this`sent, this`intact
      ensures old(Safe()) ==> Safe()
      ensures err.None? && !aborted ==> forall order | Walk(plan, order) :: Seed(plan, t, slug, order, old(db)) == Ok(db)
      ensures Calm() && !old(aborted) ==>
                forall order | Walk(plan, order) :: Seed(plan, t, slug, order, old(db)).Ok? <==> err.None? && !aborted
    {
      err := FirstSteps(t, slug);
      if err.Some? {
        return;
      }
      ghost var prepared, lost := db, aborted;
      err := SeedRolePermissions();
      assert Calm() && !lost ==>
          forall order | Walk(plan, order) :: LinkInOrder(plan, prepared, order).Ok? <==> err.None? && !aborted by {
        forall order | Walk(plan, order)
          ensures LinkInOrder(plan, prepared, order).Ok? <==> forall c :: c in plan.legacyGrants ==> Linkable(plan, prepared, c)
        {
          LinkInOrderExact(plan, prepared, order);
        }
      }
      if err.Some? {
        return;
      }
      err := LastSteps(t);
    }

    /** The whole run in one transaction: it commits the seeded contents or leaves the database as
        it was, whichever statements fail; without accidents it commits exactly when seeding is
        possible. */
    method RunSeed(t: Tenant, slug: string) returns (err: Option<Error>)
      requires db == committed && !aborted && intact
      modifies this
      ensures NoDangling(old(committed)) ==> intact && NoDangling(committed)
      ensures err.None? ==> forall order | Walk(plan, order) :: Seed(plan, t, slug, order, old(committed)) == Ok(committed)
      ensures err.Some? ==> committed == old(committed)
      ensures db == committed && !aborted
      ensures Calm() && Sound(plan) && WellFormed(old(committed)) ==>
                (err.None? <==> LinksPossible(plan, old(committed)) && PermsPossible(plan, old(committed)) &&
                                RolesPossible(plan, t, old(committed)))
    {
      err := Steps(t, slug);
      if err.None? {
        err := Send(None);
      }
      ghost var order := SomeWalk(plan, plan.legacyGrants.Keys);
      if Sound(plan) && WellFormed(old(committed)) {
        SeedOkIff(plan, t, slug, order, old(committed));
      }
      if err.None? {
        committed := db;
      } else {
        db := committed;
      }
      aborted := false;
    }
  }

  lemma Singleton(ids: set<Id>, id: Id)
    requires id in ids && |ids| <= 1
    ensures ids == {id}
  {
    assert |ids - {id}| == |ids| - 1;
    assert ids == {id} + (ids - {id});
  }

  lemma SomeWalk(plan: Plan, keys: set<string>) returns (order: seq<string>)
    requires keys <= plan.legacyGrants.Keys
    ensures NoDup(order) && forall c :: c in order <==> c in keys
  {
    order := [];
    if keys != {} {
      var code :| code in keys;
      order := SomeWalk(plan, keys - {code});
      NoDupAppend(order, code);
      order := order + [code];
    }
  }
}
