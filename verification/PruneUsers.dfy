/** Command prune-users (cmd/prune-users/main.go): removes users who never signed in, own nothing
    and belong to a tenant that never used ordering. */
module PruneUsers {
  import opened Base

  datatype User = User(tenant: Uuid, signedIn: bool)
  datatype Order = Order(tenant: Uuid, customer: Option<Uuid>)

  /** The tables the command reads or deletes from, by row id; values are what the row refers to. */
  datatype Db = Db(
    users: map<Uuid, User>,
    outlets: map<Uuid, Uuid>,             // tenant
    orders: map<Uuid, Order>,
    carts: map<Uuid, Option<Uuid>>,       // user, None for guests
    addresses: map<Uuid, Uuid>,           // user
    loyalty: map<Uuid, Uuid>,             // user
    assignments: map<Uuid, Uuid>,         // user
    preferences: map<Uuid, Option<Uuid>>, // user
    profiles: map<Uuid, Option<Uuid>>,    // user
    userRoles: set<(Uuid, string)>)       // removed with their user by the foreign key

  predicate Candidate(db: Db, u: Uuid)
    requires u in db.users
  {
    && !db.users[u].signedIn
    && (forall o :: o in db.orders ==> db.orders[o].customer != Some(u))
    && (forall c :: c in db.carts ==> db.carts[c] != Some(u))
    && (forall a :: a in db.addresses ==> db.addresses[a] != u)
    && (forall l :: l in db.loyalty ==> db.loyalty[l] != u)
  }

  predicate HasOutlet(db: Db, t: Uuid) { exists o :: o in db.outlets && db.outlets[o] == t }

  predicate HasOrder(db: Db, t: Uuid) { exists o :: o in db.orders && db.orders[o].tenant == t }

  predicate Unused(db: Db, t: Uuid) { !HasOutlet(db, t) && !HasOrder(db, t) }

  predicate Removable(db: Db, u: Uuid)
    requires u in db.users
  {
    Candidate(db, u) && Unused(db, db.users[u].tenant)
  }

  function RemovableIds(db: Db): set<Uuid> { set u | u in db.users && Removable(db, u) }

  function Others<K>(rows: map<K, Uuid>, ids: set<Uuid>): map<K, Uuid> {
    map k | k in rows && rows[k] !in ids :: rows[k]
  }

  function OthersOrNone<K>(rows: map<K, Option<Uuid>>, ids: set<Uuid>): map<K, Option<Uuid>> {
    map k | k in rows && (rows[k].None? || rows[k].value !in ids) :: rows[k]
  }

  /** The users are gone with their assignments, preferences, profiles and legacy roles; nothing
      else changes. */
  function Pruned(db: Db, ids: set<Uuid>): Db {
    db.(users := db.users - ids, assignments := Others(db.assignments, ids),
        preferences := OthersOrNone(db.preferences, ids), profiles := OthersOrNone(db.profiles, ids),
        userRoles := set r | r in db.userRoles && r.0 !in ids)
  }

  /** A reference that forbids deleting the user. */
  predicate Referenced(db: Db, ids: set<Uuid>) {
    || (exists a :: a in db.addresses && db.addresses[a] in ids)
    || (exists l :: l in db.loyalty && db.loyalty[l] in ids)
    || (exists a :: a in db.assignments && db.assignments[a] in ids)
  }

  /** What ON DELETE SET NULL does to optional references. */
  function Nulled<K>(rows: map<K, Option<Uuid>>, ids: set<Uuid>): map<K, Option<Uuid>> {
    map k | k in rows :: if rows[k].Some? && rows[k].value in ids then None else rows[k]
  }

  function Orphaned(orders: map<Uuid, Order>, ids: set<Uuid>): map<Uuid, Order> {
    map o | o in orders ::
      if orders[o].customer.Some? && orders[o].customer.value in ids then orders[o].(customer := None) else orders[o]
  }

  /** DELETE FROM users with what its foreign keys set to null or cascade to. */
  function WithoutUsers(db: Db, ids: set<Uuid>): Db {
    db.(users := db.users - ids, orders := Orphaned(db.orders, ids), carts := Nulled(db.carts, ids),
        preferences := Nulled(db.preferences, ids), profiles := Nulled(db.profiles, ids),
        userRoles := set r | r in db.userRoles && r.0 !in ids)
  }

  // ---------------------------------------------------------------------------------------
  // What pruning means

  ghost predicate NoDangling(db: Db) {
    && (forall o :: o in db.orders && db.orders[o].customer.Some? ==> db.orders[o].customer.value in db.users)
    && (forall c :: c in db.carts && db.carts[c].Some? ==> db.carts[c].value in db.users)
    && (forall a :: a in db.addresses ==> db.addresses[a] in db.users)
    && (forall l :: l in db.loyalty ==> db.loyalty[l] in db.users)
    && (forall a :: a in db.assignments ==> db.assignments[a] in db.users)
    && (forall p :: p in db.preferences && db.preferences[p].Some? ==> db.preferences[p].value in db.users)
    && (forall p :: p in db.profiles && db.profiles[p].Some? ==> db.profiles[p].value in db.users)
    && (forall r :: r in db.userRoles ==> r.0 in db.users)
  }

  /** No reference dangles afterwards. */
  lemma PrunedNoDangling(db: Db)
    requires NoDangling(db)
    ensures NoDangling(Pruned(db, RemovableIds(db)))
  {
    var ids := RemovableIds(db);
    forall o | o in db.orders && db.orders[o].customer.Some? ensures db.orders[o].customer.value !in ids {
    }
    forall c | c in db.carts && db.carts[c].Some? ensures db.carts[c].value !in ids {
    }
  }

  /** A second run finds nobody to remove. */
  lemma PruneTwice(db: Db)
    ensures RemovableIds(Pruned(db, RemovableIds(db))) == {}
  {
    var after := Pruned(db, RemovableIds(db));
    forall u | u in after.users ensures !Removable(after, u) {
      assert !Removable(db, u);
      assert Unused(after, db.users[u].tenant) <==> Unused(db, db.users[u].tenant);
      assert Candidate(after, u) <==> Candidate(db, u);
    }
  }

  /** Users are conserved: those counted as kept are exactly those left. */
  lemma KeptCount(db: Db)
    ensures |Pruned(db, RemovableIds(db)).users| == |db.users| - |RemovableIds(db)|
  {
    var ids := RemovableIds(db);
    var after := Pruned(db, ids).users;
    assert after.Keys == db.users.Keys - ids;
    assert ids <= db.users.Keys;
    assert |db.users.Keys - ids| == |db.users.Keys| - |ids|;
    assert |after| == |after.Keys| && |db.users| == |db.users.Keys|;
  }

  /** Read off the tables: a user who never signed in, whom no order, cart, address or loyalty account names, of a
      tenant that neither an outlet nor an order carries. */
  predicate Idle(db: Db, u: Uuid)
    requires u in db.users
  {
    && !db.users[u].signedIn
    && (forall o :: o in db.orders ==> db.orders[o].customer != Some(u) && db.orders[o].tenant != db.users[u].tenant)
    && (forall o :: o in db.outlets ==> db.outlets[o] != db.users[u].tenant)
    && Some(u) !in db.carts.Values && u !in db.addresses.Values && u !in db.loyalty.Values
  }

  function IdleUsers(db: Db): set<Uuid> { set u | u in db.users && Idle(db, u) }

  lemma RemovableAreIdle(db: Db)
    ensures RemovableIds(db) == IdleUsers(db)
  {
  }

  // ---------------------------------------------------------------------------------------
  // Counting per tenant

  function CountIn(db: Db, ids: seq<Uuid>, t: Uuid): nat {
    if ids == [] then 0
    else CountIn(db, ids[..|ids| - 1], t) +
         if ids[|ids| - 1] in db.users && db.users[ids[|ids| - 1]].tenant == t then 1 else 0
  }

  ghost function Total(counts: map<Uuid, nat>): nat {
    if counts == map[] then 0
    else
      var t :| t in counts;
      counts[t] + Total(counts - {t})
  }

  lemma {:induction false} TotalPick(counts: map<Uuid, nat>, t: Uuid)
    requires t in counts
    ensures Total(counts) == counts[t] + Total(counts - {t})
    decreases |counts|
  {
    var first :| first in counts && Total(counts) == counts[first] + Total(counts - {first});
    if first != t {
      TotalPick(counts - {first}, t);
      TotalPick(counts - {t}, first);
      assert counts - {first} - {t} == counts - {t} - {first};
    }
  }

  lemma TotalIncrement(counts: map<Uuid, nat>, t: Uuid)
    ensures Total(counts[t := (if t in counts then counts[t] else 0) + 1]) == Total(counts) + 1
  {
    var n := (if t in counts then counts[t] else 0) + 1;
    var after := counts[t := n];
    TotalPick(after, t);
    assert after - {t} == counts - {t};
    if t in counts {
      TotalPick(counts, t);
    } else {
      assert counts - {t} == counts;
    }
  }

  function Keep(db: Db, candidates: seq<Uuid>): (ids: seq<Uuid>)
    requires forall u :: u in candidates ==> u in db.users
  {
    if candidates == [] then []
    else
      var last := candidates[|candidates| - 1];
      Keep(db, candidates[..|candidates| - 1]) + if Unused(db, db.users[last].tenant) then [last] else []
  }

  lemma {:induction false} KeepExact(db: Db, candidates: seq<Uuid>)
    requires NoDup(candidates) && forall u :: u in candidates ==> u in db.users
    ensures NoDup(Keep(db, candidates))
    ensures forall u :: u in Keep(db, candidates) <==> u in candidates && Unused(db, db.users[u].tenant)
  {
    if candidates != [] {
      var init, last := candidates[..|candidates| - 1], candidates[|candidates| - 1];
      assert candidates == init + [last];
      NoDupAppend(init, last);
      KeepExact(db, init);
      NoDupAppend(Keep(db, init), last);
    }
  }

  /** From one database to another users only go, and with them exactly the assignments, preferences, profiles and
      legacy roles that name them; every other row stays as it was. */
  ghost predicate OthersStay(before: Db, after: Db) {
    var gone := before.users.Keys - after.users.Keys;
    && (forall u :: u in after.users ==> u in before.users && after.users[u] == before.users[u])
    && after.outlets == before.outlets && after.orders == before.orders && after.carts == before.carts
    && after.addresses == before.addresses && after.loyalty == before.loyalty
    && (forall a :: a in after.assignments <==> a in before.assignments && before.assignments[a] !in gone)
    && (forall a :: a in after.assignments ==> after.assignments[a] == before.assignments[a])
    && (forall p :: p in after.preferences <==>
         p in before.preferences && (before.preferences[p].Some? ==> before.preferences[p].value !in gone))
    && (forall p :: p in after.preferences ==> after.preferences[p] == before.preferences[p])
    && (forall p :: p in after.profiles <==>
         p in before.profiles && (before.profiles[p].Some? ==> before.profiles[p].value !in gone))
    && (forall p :: p in after.profiles ==> after.profiles[p] == before.profiles[p])
    && (forall r :: r in after.userRoles <==> r in before.userRoles && r.0 !in gone)
  }

  lemma PrunedOthersStay(db: Db)
    ensures OthersStay(db, Pruned(db, RemovableIds(db)))
  {
    var ids, after := RemovableIds(db), Pruned(db, RemovableIds(db));
    assert db.users.Keys - after.users.Keys == ids;
  }

  // ---------------------------------------------------------------------------------------
  // The command

  datatype Outcome = DryRun(removable: nat) | Deleted(n: nat) | Fatal

  class Command {
    /** Which queries and statements, counted from the first, fail. */
    const faulty: nat -> bool
    var db: Db
    var sent: nat
    var unused: map<Uuid, bool>

    constructor (db: Db, faulty: nat -> bool)
      ensures this.db == db && unused == map[] && this.faulty == faulty
    {
      this.db, this.faulty := db, faulty;
      sent, unused := 0, map[];
    }

    ghost predicate Calm() { forall n :: !faulty(n) }

    /** The cache agrees with the direct check. */
    ghost predicate CacheAgrees() reads this {
      forall t :: t in unused ==> unused[t] == Unused(db, t)
    }

    method Send() returns (ok: bool)
      modifies this`sent
      ensures Calm() ==> ok
    {
      sent := sent + 1;
      ok := !faulty(sent);
    }

    /** isUnused: the cached answer, or two queries and a new cache entry. */
    method IsUnused(t: Uuid) returns (ok: bool, answer: bool)
      requires CacheAgrees()
      modifies this`sent, this`unused
      ensures CacheAgrees() && (Calm() ==> ok)
      ensures ok ==> answer == Unused(db, t)
      ensures old(t in unused) ==> ok && sent == old(sent)
      ensures ok ==> unused == old(unused)[t := answer]
    {
      if t in unused {
        return true, unused[t];
      }
      ok := Send();
      if !ok {
        return false, false;
      }
      var hasOutlet := HasOutlet(db, t);
      ok := Send();
      if !ok {
        return false, false;
      }
      var hasOrder := HasOrder(db, t);
      unused := unused[t := !hasOutlet && !hasOrder];
      return true, unused[t];
    }

    /** The candidate query; rows come in any order. */
    method LoadCandidates() returns (ok: bool, candidates: seq<Uuid>)
      modifies this`sent
      ensures Calm() ==> ok
      ensures ok ==> NoDup(candidates) && forall u :: u in candidates <==> u in db.users && Candidate(db, u)
      ensures ok ==> forall u :: u in candidates <==>
        && u in db.users && !db.users[u].signedIn && (forall o :: o in db.orders ==> db.orders[o].customer != Some(u))
        && Some(u) !in db.carts.Values && u !in db.addresses.Values && u !in db.loyalty.Values
    {
      ok := Send();
      candidates := [];
      var todo := set u | u in db.users && Candidate(db, u);
      ghost var all := todo;
      while todo != {}
        invariant NoDup(candidates) && todo <= all && forall u :: u in candidates <==> u in all - todo
      {
        var u :| u in todo;
        NoDupAppend(candidates, u);
        candidates := candidates + [u];
        todo := todo - {u};
      }
    }

    /** The loop over the candidates: the ids to remove, and per tenant how many, which sum to the
        number of ids. */
    method Collect(candidates: seq<Uuid>) returns (ok: bool, ids: seq<Uuid>, byTenant: map<Uuid, nat>)
      requires CacheAgrees() && forall u :: u in candidates ==> u in db.users
      modifies this`sent, this`unused
      ensures CacheAgrees() && (Calm() ==> ok)
      ensures ok ==> ids == Keep(db, candidates) && Total(byTenant) == |ids|
      ensures ok ==> forall t :: CountIn(db, ids, t) == if t in byTenant then byTenant[t] else 0
    {
      ids, byTenant := [], map[];
      ok := true;
      for i := 0 to |candidates|
        invariant CacheAgrees() && ok
        invariant ids == Keep(db, candidates[..i]) && Total(byTenant) == |ids|
        invariant forall t :: CountIn(db, ids, t) == if t in byTenant then byTenant[t] else 0
      {
        assert candidates[..i + 1][..i] == candidates[..i];
        var t := db.users[candidates[i]].tenant;
        var unused;
        ok, unused := IsUnused(t);
        if !ok {
          return;
        }
        if !unused {
          continue;
        }
        TotalIncrement(byTenant, t);
        byTenant := byTenant[t := (if t in byTenant then byTenant[t] else 0) + 1];
        assert (ids + [candidates[i]])[..|ids|] == ids;
        ids := ids + [candidates[i]];
      }
      assert candidates[..|candidates|] == candidates;
    }

    /** The deletes, in one transaction: all of them or none. Role assignments go before their
        users, so the foreign keys never refuse. */
    method DeleteUsers(ids: seq<Uuid>) returns (outcome: Outcome)
      requires NoDup(ids) && forall u :: u in ids <==> u in RemovableIds(db)
      modifies this`db, this`sent
      ensures Calm() ==> outcome.Deleted?
      ensures outcome.Deleted? ==> outcome.n == |ids| && db == Pruned(old(db), RemovableIds(old(db)))
      ensures !outcome.Deleted? ==> outcome == Fatal && db == old(db)
    {
      var doomed := set u | u in ids;
      assert doomed == RemovableIds(db);
      var tx := db;
      var ok := Send();
      if !ok {
        return Fatal;
      }
      ok := Send();
      if !ok {
        return Fatal;
      }
      tx := tx.(assignments := Others(tx.assignments, doomed));
      ok := Send();
      if !ok {
        return Fatal;
      }
      tx := tx.(preferences := OthersOrNone(tx.preferences, doomed));
      ok := Send();
      if !ok {
        return Fatal;
      }
      tx := tx.(profiles := OthersOrNone(tx.profiles, doomed));
      ok := Send();
      NothingRefers(db, tx);
      if !ok || Referenced(tx, doomed) {
        return Fatal;
      }
      var n := |set u | u in tx.users && u in doomed|;
      assert (set u | u in tx.users && u in doomed) == doomed;
      SizeOf(ids);
      LastDelete(db, tx);
      tx := WithoutUsers(tx, doomed);
      ok := Send();
      if !ok {
        return Fatal;
      }
      db := tx;
      return Deleted(n);
    }

    /** The whole command. Without --apply, or with nobody to remove, nothing changes. Otherwise a user is gone
        exactly when they never signed in, no order, cart, address or loyalty account names them, and their tenant
        has neither an outlet nor an order; their assignments, preferences, profiles and legacy roles go with them,
        and every other row stays as it was. */
    method Run(apply: bool) returns (outcome: Outcome)
      requires unused == map[]
      modifies this
      ensures Calm() ==> outcome != Fatal
      ensures outcome != Fatal && apply ==> old(db.users).Keys - db.users.Keys == IdleUsers(old(db))
      ensures outcome != Fatal ==> OthersStay(old(db), db)
      ensures match outcome
              case Fatal => db == old(db)
              case DryRun(n) => db == old(db) && n == |IdleUsers(db)| && (!apply || n == 0)
              case Deleted(n) => apply && n == |IdleUsers(old(db))| > 0 && db == Pruned(old(db), IdleUsers(old(db)))
    {
      var ok, candidates := LoadCandidates();
      if !ok {
        return Fatal;
      }
      var ids, byTenant;
      ok, ids, byTenant := Collect(candidates);
      if !ok {
        return Fatal;
      }
      KeepExact(db, candidates);
      assert forall u :: u in ids <==> u in RemovableIds(db);
      SizeOf(ids);
      assert (set u | u in ids) == RemovableIds(db);
      RemovableAreIdle(db);
      if !apply || |ids| == 0 {
        return DryRun(|ids|);
      }
      outcome := DeleteUsers(ids);
      PrunedOthersStay(old(db));
    }
  }

  lemma {:induction false} SizeOf(ids: seq<Uuid>)
    requires NoDup(ids)
    ensures |set u | u in ids| == |ids|
  {
    if ids != [] {
      var init, last := ids[..|ids| - 1], ids[|ids| - 1];
      assert ids == init + [last];
      NoDupAppend(init, last);
      SizeOf(init);
      assert (set u | u in ids) == (set u | u in init) + {last};
    }
  }

  lemma NothingRefers(db: Db, tx: Db)
    requires tx == db.(assignments := Others(db.assignments, RemovableIds(db)), preferences := tx.preferences, profiles := tx.profiles)
    ensures !Referenced(tx, RemovableIds(db))
  {
    forall u | u in RemovableIds(db) ensures Candidate(db, u) {
    }
  }

  /** After the first three deletes, deleting the users gives the pruned database. */
  lemma LastDelete(db: Db, tx: Db)
    requires var ids := RemovableIds(db);
             tx == db.(assignments := Others(db.assignments, ids), preferences := OthersOrNone(db.preferences, ids),
                       profiles := OthersOrNone(db.profiles, ids))
    ensures WithoutUsers(tx, RemovableIds(db)) == Pruned(db, RemovableIds(db))
  {
    var ids := RemovableIds(db);
    forall u | u in ids ensures Candidate(db, u) {
    }
    assert Orphaned(db.orders, ids) == db.orders;
    assert Nulled(db.carts, ids) == db.carts;
    assert Nulled(tx.preferences, ids) == tx.preferences;
    assert Nulled(tx.profiles, ids) == tx.profiles;
  }

  /** Deleting the users before their role assignments would be refused exactly when some removable
      user has one. */
  lemma UsersFirstRefusedIff(db: Db)
    ensures Referenced(db, RemovableIds(db)) <==>
            exists a :: a in db.assignments && db.assignments[a] in RemovableIds(db)
  {
    forall u | u in RemovableIds(db) ensures Candidate(db, u) {
    }
  }
}
