/** What a seeding run does to a database, and what a second run then finds. */
module SeedTheorems {
  import opened Base
  import opened SeedSpec

  // ---------------------------------------------------------------------------------------
  // Keyed upserts

  ghost function Get<K, R>(t: map<K, R>, key: K): Option<R> { if key in t then Some(t[key]) else None }

  lemma {:induction false} UpsertAllEffect<K, S, R>(t: map<K, R>, keys: seq<K>, specs: seq<S>, put: (Option<R>, S) -> R)
    requires |keys| == |specs| && NoDup(keys)
    ensures var r := UpsertAll(t, keys, specs, put);
            && (forall k :: 0 <= k < |keys| ==> Get(r, keys[k]) == Some(put(Get(t, keys[k]), specs[k])))
            && (forall key :: key !in keys ==> Get(r, key) == Get(t, key))
  {
    if specs != [] {
      var n := |specs| - 1;
      UpsertAllEffect(t, keys[..n], specs[..n], put);
      var r0 := UpsertAll(t, keys[..n], specs[..n], put);
      var r := UpsertAll(t, keys, specs, put);
      assert keys[n] !in keys[..n];
      forall k | 0 <= k < |keys| ensures Get(r, keys[k]) == Some(put(Get(t, keys[k]), specs[k])) {
        if k < n {
          assert keys[..n][k] == keys[k];
          assert Get(r, keys[k]) == Get(r0, keys[k]);
        } else {
          assert Get(r0, keys[n]) == Get(t, keys[n]);
        }
      }
    }
  }

  /** A table whose listed rows are already as the upsert would leave them stays as it is. */
  lemma {:induction false} UpsertAllSettled<K, S, R>(t: map<K, R>, keys: seq<K>, specs: seq<S>, put: (Option<R>,
        S) -> R)
    requires |keys| == |specs|
    requires forall k :: 0 <= k < |keys| ==> keys[k] in t && put(Some(t[keys[k]]), specs[k]) == t[keys[k]]
    ensures UpsertAll(t, keys, specs, put) == t
  {
    if specs != [] {
      var n := |specs| - 1;
      forall k | 0 <= k < n ensures keys[..n][k] in t && put(Some(t[keys[..n][k]]), specs[..n][k]) == t[keys[..n][k]] {
        assert keys[..n][k] == keys[k] && specs[..n][k] == specs[k];
      }
      UpsertAllSettled(t, keys[..n], specs[..n], put);
    }
  }

  lemma UpsertAllTwice<K, S, R(!new)>(t: map<K, R>, keys: seq<K>, specs: seq<S>, put: (Option<R>, S) -> R)
    requires |keys| == |specs| && NoDup(keys)
    requires forall k, o :: 0 <= k < |specs| ==> put(Some(put(o, specs[k])), specs[k]) == put(o, specs[k])
    ensures var r := UpsertAll(t, keys, specs, put); UpsertAll(r, keys, specs, put) == r
  {
    UpsertAllEffect(t, keys, specs, put);
    var r := UpsertAll(t, keys, specs, put);
    forall k | 0 <= k < |keys| ensures keys[k] in r && put(Some(r[keys[k]]), specs[k]) == r[keys[k]] {
      assert Get(r, keys[k]) == Some(put(Get(t, keys[k]), specs[k]));
    }
    UpsertAllSettled(r, keys, specs, put);
  }

  // ---------------------------------------------------------------------------------------
  // Platform configs

  ghost predicate DistinctKeys(specs: seq<ConfigSpec>) {
    forall i, j :: 0 <= i < j < |specs| ==> specs[i].key != specs[j].key
  }

  ghost predicate ConfigSettled(configs: seq<Config>, s: ConfigSpec) {
    HasPlatformKey(configs, s.key) &&
    forall k :: 0 <= k < |configs| && configs[k].tenant.None? && configs[k].key == s.key ==> configs[k].setting == s.setting
  }

  /** Old rows stay in place with their tenant and key; only platform rows of a listed key change;
      new rows are such platform rows. */
  ghost predicate ConfigsTouched(configs: seq<Config>, after: seq<Config>, specs: seq<ConfigSpec>) {
    && |configs| <= |after|
    && (forall k :: 0 <= k < |configs| ==> after[k].tenant == configs[k].tenant && after[k].key == configs[k].key)
    && (forall k :: 0 <= k < |configs| && !(configs[k].tenant.None? && exists s :: s in specs && s.key == configs[k].key) ==>
          after[k] == configs[k])
    && (forall k :: |configs| <= k < |after| ==> after[k].tenant.None? && exists s :: s in specs && s.key == after[k].key)
  }

  lemma {:induction false} UpsertConfigsEffect(configs: seq<Config>, specs: seq<ConfigSpec>)
    requires DistinctKeys(specs)
    ensures var after := UpsertConfigs(configs, specs);
            ConfigsTouched(configs, after, specs) && forall s :: s in specs ==> ConfigSettled(after, s)
  {
    if specs != [] {
      var init, last := specs[..|specs| - 1], specs[|specs| - 1];
      UpsertConfigsEffect(configs, init);
      var mid := UpsertConfigs(configs, init);
      var after := UpsertConfigs(configs, specs);
      OneConfig(mid, last);
      forall s | s in specs ensures ConfigSettled(after, s) {
        if s in init {
          assert s.key != last.key;
          OtherConfigSettled(mid, last, s);
        }
      }
    }
  }

  lemma OneConfig(configs: seq<Config>, s: ConfigSpec)
    ensures ConfigSettled(UpsertConfig(configs, s), s)
    ensures ConfigsTouched(configs, UpsertConfig(configs, s), [s])
  {
    var after := UpsertConfig(configs, s);
    if HasPlatformKey(configs, s.key) {
      var k :| 0 <= k < |configs| && configs[k].tenant.None? && configs[k].key == s.key;
      assert after[k].tenant.None? && after[k].key == s.key;
    } else {
      assert after[|configs|] == Config(None, s.key, s.setting);
    }
    assert s in [s];
  }

  lemma OtherConfigSettled(configs: seq<Config>, s: ConfigSpec, other: ConfigSpec)
    requires s.key != other.key && ConfigSettled(configs, other)
    ensures ConfigSettled(UpsertConfig(configs, s), other)
  {
    var after := UpsertConfig(configs, s);
    var k :| 0 <= k < |configs| && configs[k].tenant.None? && configs[k].key == other.key;
    assert after[k].tenant.None? && after[k].key == other.key;
  }

  lemma {:induction false} UpsertConfigsSettled(configs: seq<Config>, specs: seq<ConfigSpec>)
    requires forall s :: s in specs ==> ConfigSettled(configs, s)
    ensures UpsertConfigs(configs, specs) == configs
  {
    if specs != [] {
      UpsertConfigsSettled(configs, specs[..|specs| - 1]);
      var last := specs[|specs| - 1];
      assert ConfigSettled(configs, last);
      assert SetPlatform(configs, last) == configs;
    }
  }

  lemma {:induction false} KeepConfigsExact(configs: seq<Config>, gone: set<string>)
    ensures forall c :: c in KeepConfigs(configs, gone) <==> c in configs && c.key !in gone
    ensures (forall k :: 0 <= k < |configs| ==> configs[k].key !in gone) ==> KeepConfigs(configs, gone) == configs
  {
    if configs != [] {
      var init, last := configs[..|configs| - 1], configs[|configs| - 1];
      assert configs == init + [last];
      KeepConfigsExact(init, gone);
    }
  }

  /** The rows that stay keep their order, each as often as it was there. */
  lemma {:induction false} KeepConfigsAt(configs: seq<Config>, gone: set<string>) returns (at: seq<nat>)
    ensures Picked(configs, KeepConfigs(configs, gone), at)
    ensures forall k :: 0 <= k < |configs| ==> (k in at <==> configs[k].key !in gone)
  {
    at := [];
    if configs != [] {
      var init, last := configs[..|configs| - 1], configs[|configs| - 1];
      at := KeepConfigsAt(init, gone);
      assert configs == init + [last];
      PickedNext(init, KeepConfigs(init, gone), at, last);
      if last.key !in gone {
        at := at + [|init|];
      }
    }
  }

  // ---------------------------------------------------------------------------------------
  // Legacy role links

  ghost predicate Linkable(plan: Plan, db: Db, code: string)
    requires code in plan.legacyGrants
  {
    code in db.legacyRoles && forall p :: p in plan.legacyGrants[code] ==> p in LegacyCodes(plan)
  }

  ghost predicate Listed(plan: Plan, code: string, id: Id)
    requires code in plan.legacyGrants
  {
    exists p :: p in plan.legacyGrants[code] && id == plan.names.legacyPerm(p)
  }

  /** The loop succeeds exactly when every entry's role exists and its codes were all seeded, and
      then gives each listed role exactly its listed permissions and leaves other roles alone. */
  lemma {:induction false} LinkInOrderExact(plan: Plan, db: Db, order: seq<string>)
    requires NoDup(order) && forall c :: c in order ==> c in plan.legacyGrants
    ensures var r := LinkInOrder(plan, db, order);
            && (r.Ok? <==> forall c :: c in order ==> Linkable(plan, db, c))
            && (r.Ok? ==> r.value == db.(links := r.value.links))
            && (r.Ok? ==> forall l :: l in r.value.links <==> if l.0 in order then Listed(plan, l.0, l.1) else l in db.links)
  {
    if order != [] {
      var n := |order| - 1;
      var code := order[n];
      LinkInOrderExact(plan, db, order[..n]);
      assert code !in order[..n];
      assert order == order[..n] + [code];
      var mid := LinkInOrder(plan, db, order[..n]);
      if mid.Ok? {
        LookUpExact(plan, code);
        var r := LinkInOrder(plan, db, order);
        if r.Ok? {
          forall l ensures l in r.value.links <==> if l.0 in order then Listed(plan, l.0, l.1) else l in db.links {
            if l.0 == code {
              assert l == (code, l.1);
            }
          }
        }
      }
    }
  }

  lemma LookUpExact(plan: Plan, code: string)
    requires code in plan.legacyGrants
    ensures var ids := LookUp(plan.names, LegacyCodes(plan), plan.legacyGrants[code]);
            && (ids.Some? <==> forall p :: p in plan.legacyGrants[code] ==> p in LegacyCodes(plan))
            && (ids.Some? ==> forall id :: id in ids.value <==> Listed(plan, code, id))
  {
    var codes := plan.legacyGrants[code];
    var ids := LookUp(plan.names, LegacyCodes(plan), codes);
    if ids.Some? {
      forall id | Listed(plan, code, id) ensures id in ids.value {
        var p :| p in codes && id == plan.names.legacyPerm(p);
        var k :| 0 <= k < |codes| && codes[k] == p;
      }
    }
  }

  /** `order` walks the whole map, each entry once. */
  ghost predicate Walk(plan: Plan, order: seq<string>) {
    NoDup(order) && forall c :: c in order <==> c in plan.legacyGrants
  }

  /** Go may iterate over the map in any order: the outcome is the same. */
  lemma LinkOrderIrrelevant(plan: Plan, db: Db, one: seq<string>, two: seq<string>)
    requires Walk(plan, one) && Walk(plan, two)
    ensures var a, b := LinkInOrder(plan, db, one), LinkInOrder(plan, db, two);
            (a.Ok? <==> b.Ok?) && (a.Ok? ==> a == b)
  {
    LinkInOrderExact(plan, db, one);
    LinkInOrderExact(plan, db, two);
    var a, b := LinkInOrder(plan, db, one), LinkInOrder(plan, db, two);
    if a.Ok? && b.Ok? {
      assert a.value.links == b.value.links;
    }
  }

  // ---------------------------------------------------------------------------------------
  // Ordering permissions

  ghost predicate UniqueCodes(perms: map<Id, Perm>) {
    forall a, b :: a in perms && b in perms && perms[a].code == perms[b].code ==> a == b
  }

  /** Every row's id is the hash of its code. */
  ghost predicate HashIds(names: Names, perms: map<Id, Perm>) {
    forall id :: id in perms ==> id == names.perm(perms[id].code)
  }

  ghost predicate DistinctCodes(specs: seq<PermSpec>) {
    forall i, j :: 0 <= i < j < |specs| ==> specs[i].code != specs[j].code
  }

  ghost predicate PermSettled(perms: map<Id, Perm>, s: PermSpec) {
    CodeTaken(perms, s.code) && forall id :: id in perms && perms[id].code == s.code ==> perms[id].info == s.info
  }

  /** Rows keep their id and code; only rows of a listed code change; new rows carry a listed code
      that was missing, under its hash. */
  ghost predicate PermsTouched(names: Names, perms: map<Id, Perm>, after: map<Id, Perm>, codes: set<string>) {
    && (forall id :: id in perms ==> id in after && after[id].code == perms[id].code)
    && (forall id :: id in perms && perms[id].code !in codes ==> after[id] == perms[id])
    && (forall id :: id in after && id !in perms ==>
          after[id].code in codes && !CodeTaken(perms, after[id].code) && id == names.perm(after[id].code))
  }

  lemma OnePerm(names: Names, perms: map<Id, Perm>, s: PermSpec)
    requires UpsertPerm(names, perms, s).Ok?
    ensures var after := UpsertPerm(names, perms, s).value;
            PermsTouched(names, perms, after, {s.code}) && PermSettled(after, s)
    ensures UniqueCodes(perms) ==> UniqueCodes(UpsertPerm(names, perms, s).value)
  {
    var after := UpsertPerm(names, perms, s).value;
    if CodeTaken(perms, s.code) {
      var id :| id in perms && perms[id].code == s.code;
      assert id in after && after[id].code == s.code;
    } else {
      assert names.perm(s.code) in after && after[names.perm(s.code)].code == s.code;
    }
  }

  lemma TouchedTwice(names: Names, perms: map<Id, Perm>, mid: map<Id, Perm>, after: map<Id, Perm>, codes: set<string>,
        more: set<string>)
    requires PermsTouched(names, perms, mid, codes) && PermsTouched(names, mid, after, more)
    ensures PermsTouched(names, perms, after, codes + more)
  {
  }

  lemma SettledStays(names: Names, mid: map<Id, Perm>, after: map<Id, Perm>, s: PermSpec, code: string)
    requires PermsTouched(names, mid, after, {code}) && s.code != code && PermSettled(mid, s)
    ensures PermSettled(after, s)
  {
    var id :| id in mid && mid[id].code == s.code;
    assert id in after && after[id].code == s.code;
  }

  lemma TakenAfter(names: Names, perms: map<Id, Perm>, after: map<Id, Perm>, codes: set<string>, code: string)
    requires PermsTouched(names, perms, after, codes)
    ensures CodeTaken(perms, code) ==> CodeTaken(after, code)
    ensures CodeTaken(after, code) ==> CodeTaken(perms, code) || code in codes
  {
    if CodeTaken(perms, code) {
      var id :| id in perms && perms[id].code == code;
      assert id in after && after[id].code == code;
    }
  }

  lemma SplitCodes(specs: seq<PermSpec>)
    requires specs != [] && DistinctCodes(specs)
    ensures var n := |specs| - 1;
            Codes(specs) == Codes(specs[..n]) + {specs[n].code} && specs[n].code !in Codes(specs[..n])
  {
    var init, last := specs[..|specs| - 1], specs[|specs| - 1];
    assert specs == init + [last];
  }

  lemma {:induction false} UpsertPermsEffect(names: Names, perms: map<Id, Perm>, specs: seq<PermSpec>)
    requires DistinctCodes(specs) && UpsertPerms(names, perms, specs).Ok?
    ensures var after := UpsertPerms(names, perms, specs).value;
            && PermsTouched(names, perms, after, Codes(specs))
            && (forall s :: s in specs ==> PermSettled(after, s))
            && (UniqueCodes(perms) ==> UniqueCodes(after))
  {
    if specs != [] {
      var init, last := specs[..|specs| - 1], specs[|specs| - 1];
      UpsertPermsEffect(names, perms, init);
      SplitCodes(specs);
      var mid := UpsertPerms(names, perms, init).value;
      var after := UpsertPerms(names, perms, specs).value;
      OnePerm(names, mid, last);
      TouchedTwice(names, perms, mid, after, Codes(init), {last.code});
      forall s | s in specs ensures PermSettled(after, s) {
        if s in init {
          assert s.code in Codes(init);
          SettledStays(names, mid, after, s, last.code);
        }
      }
    }
  }

  lemma {:induction false} UpsertPermsSettled(names: Names, perms: map<Id, Perm>, specs: seq<PermSpec>)
    requires forall s :: s in specs ==> PermSettled(perms, s)
    ensures UpsertPerms(names, perms, specs) == Ok(perms)
  {
    if specs != [] {
      UpsertPermsSettled(names, perms, specs[..|specs| - 1]);
      var last := specs[|specs| - 1];
      assert PermSettled(perms, last);
      assert SetInfo(perms, last) == perms;
    }
  }

  /** Seeding the permissions succeeds exactly when no missing code's computed id is held by a row
      of another code. */
  lemma {:induction false} UpsertPermsOkIff(names: Names, perms: map<Id, Perm>, specs: seq<PermSpec>)
    requires DistinctCodes(specs) && forall c, d :: names.perm(c) == names.perm(d) ==> c == d
    ensures UpsertPerms(names, perms, specs).Ok? <==>
            forall s :: s in specs ==> CodeTaken(perms, s.code) || names.perm(s.code) !in perms
  {
    if specs != [] {
      var init, last := specs[..|specs| - 1], specs[|specs| - 1];
      assert specs == init + [last];
      UpsertPermsOkIff(names, perms, init);
      var mid := UpsertPerms(names, perms, init);
      if mid.Ok? {
        SplitCodes(specs);
        UpsertPermsEffect(names, perms, init);
        TakenAfter(names, perms, mid.value, Codes(init), last.code);
        MissingIdStaysFree(names, perms, mid.value, Codes(init), last.code);
      }
    }
  }

  lemma MissingIdStaysFree(names: Names, perms: map<Id, Perm>, after: map<Id, Perm>, codes: set<string>, code: string)
    requires PermsTouched(names, perms, after, codes) && code !in codes
    requires forall c, d :: names.perm(c) == names.perm(d) ==> c == d
    ensures names.perm(code) in after <==> names.perm(code) in perms
  {
  }
}
