/** The lists that cmd/seed/main.go is compiled with: their codes are distinct, none is retired, and no role
    names a permission twice, so on a database whose ids are hashes the run cannot be refused. */
module SeedLists {
  import opened Base
  import opened SeedSpec
  import opened SeedTheorems
  import opened SeedRoleTheorems
  import opened SeedRun

  predicate DotFree(s: string) { forall k :: 0 <= k < |s| ==> s[k] != '.' }

  /** "ordering.{module}.{action}" */
  function CodeOf(mod: string, action: string): string { "ordering." + (mod + ("." + action)) }

  /** A code is taken apart in one way. */
  lemma CodeInjective(m: string, a: string, n: string, b: string)
    requires DotFree(m) && DotFree(n) && CodeOf(m, a) == CodeOf(n, b)
    ensures m == n && a == b
  {
    var x, y := m + ("." + a), n + ("." + b);
    assert x == CodeOf(m, a)[9..] && y == CodeOf(n, b)[9..];
    assert x[|m|] == '.' && y[|n|] == '.';
    assert m == x[..|m|] && n == y[..|n|];
    assert a == x[|m| + 1..] && b == y[|n| + 1..];
  }

  const RETIRED_MODULE := "delivery_zones"
  const RETIRED_PREFIX := "ordering." + (RETIRED_MODULE + ".")

  /** The prefix catches every permission of the retired module, and of no other. */
  lemma RetiredIff(m: string, a: string)
    requires DotFree(m)
    ensures RETIRED_PREFIX <= CodeOf(m, a) <==> m == RETIRED_MODULE
  {
    var code := CodeOf(m, a);
    if RETIRED_PREFIX <= code {
      var rest := code[|RETIRED_PREFIX|..];
      assert code == RETIRED_PREFIX + rest;
      assert code == CodeOf(RETIRED_MODULE, rest);
      CodeInjective(m, a, RETIRED_MODULE, rest);
    }
    if m == RETIRED_MODULE {
      assert code == RETIRED_PREFIX + a;
    }
  }

  datatype Module = Orders | Catalog | Outlets | Promotions | DeliveryWindows | Loyalty | Analytics | Configs | Users
  datatype Action = Add | View | ViewOwn | Change | ChangeOwn | Delete | DeleteOwn | Manage | ManageOwn

  function ModuleName(m: Module): string {
    match m
    case Orders => "orders"
    case Catalog => "catalog"
    case Outlets => "outlets"
    case Promotions => "promotions"
    case DeliveryWindows => "delivery_windows"
    case Loyalty => "loyalty"
    case Analytics => "analytics"
    case Configs => "config"
    case Users => "users"
  }

  function ActionName(a: Action): string {
    match a
    case Add => "add"
    case View => "view"
    case ViewOwn => "view_own"
    case Change => "change"
    case ChangeOwn => "change_own"
    case Delete => "delete"
    case DeleteOwn => "delete_own"
    case Manage => "manage"
    case ManageOwn => "manage_own"
  }

  /** Length and first letter tell the names apart. */
  function Shape(s: string): (int, char) { (|s|, if s == "" then '.' else s[0]) }

  lemma ModuleShape(m: Module)
    ensures DotFree(ModuleName(m)) && ModuleName(m) != RETIRED_MODULE
    ensures Shape(ModuleName(m)) == match m
      case Orders => (6, 'o')
      case Catalog => (7, 'c')
      case Outlets => (7, 'o')
      case Promotions => (10, 'p')
      case DeliveryWindows => (16, 'd')
      case Loyalty => (7, 'l')
      case Analytics => (9, 'a')
      case Configs => (6, 'c')
      case Users => (5, 'u')
  {
    match m
    case _ =>
  }

  lemma ActionShape(a: Action)
    ensures Shape(ActionName(a)) == match a
      case Add => (3, 'a')
      case View => (4, 'v')
      case ViewOwn => (8, 'v')
      case Change => (6, 'c')
      case ChangeOwn => (10, 'c')
      case Delete => (6, 'd')
      case DeleteOwn => (10, 'd')
      case Manage => (6, 'm')
      case ManageOwn => (10, 'm')
  {
    match a
    case _ =>
  }

  type Grant = (Module, Action)

  function Code(g: Grant): string { CodeOf(ModuleName(g.0), ActionName(g.1)) }

  lemma OneCode(g: Grant, h: Grant)
    ensures Code(g) == Code(h) ==> g == h
  {
    if Code(g) == Code(h) {
      ModuleShape(g.0);
      ModuleShape(h.0);
      CodeInjective(ModuleName(g.0), ActionName(g.1), ModuleName(h.0), ActionName(h.1));
      ActionShape(g.1);
      ActionShape(h.1);
    }
  }

  const ACTIONS := [Add, View, ViewOwn, Change, ChangeOwn, Delete, DeleteOwn, Manage, ManageOwn]
  const MODULES := [Orders, Catalog, Outlets, Promotions, DeliveryWindows, Loyalty, Analytics, Configs, Users]
  const LEGACY_MODULES := [Orders, Catalog, Loyalty, Promotions, Analytics, Configs, Users]

  /** Every action on every one of these modules, module by module. */
  function Grid(modules: seq<Module>): seq<Grant> {
    seq(9 * |modules|, k requires 0 <= k < 9 * |modules| => (modules[k / 9], ACTIONS[k % 9]))
  }

  function Codify(grants: seq<Grant>): seq<string> {
    seq(|grants|, k requires 0 <= k < |grants| => Code(grants[k]))
  }

  lemma GridDistinct(modules: seq<Module>)
    requires NoDup(modules)
    ensures NoDup(Grid(modules))
  {
    forall i, j | 0 <= i < j < 9 * |modules| ensures Grid(modules)[i] != Grid(modules)[j] {
      if i / 9 == j / 9 {
        assert i % 9 < j % 9;
        ActionsDistinct(i % 9, j % 9);
      } else {
        assert modules[i / 9] != modules[j / 9];
      }
    }
  }

  lemma ActionsDistinct(i: nat, j: nat)
    requires i < j < 9
    ensures ACTIONS[i] != ACTIONS[j]
  {
  }

  function Place(a: Action): (k: nat)
    ensures k < 9 && ACTIONS[k] == a
  {
    match a
    case Add => 0
    case View => 1
    case ViewOwn => 2
    case Change => 3
    case ChangeOwn => 4
    case Delete => 5
    case DeleteOwn => 6
    case Manage => 7
    case ManageOwn => 8
  }

  lemma InGrid(modules: seq<Module>, g: Grant)
    ensures g in Grid(modules) <==> g.0 in modules
  {
    if g.0 in modules {
      var i :| 0 <= i < |modules| && modules[i] == g.0;
      var j := Place(g.1);
      assert Grid(modules)[9 * i + j] == g;
    }
  }

  lemma CodifyDistinct(grants: seq<Grant>)
    requires NoDup(grants)
    ensures NoDup(Codify(grants))
  {
    forall i, j | 0 <= i < j < |grants| ensures Codify(grants)[i] != Codify(grants)[j] {
      OneCode(grants[i], grants[j]);
    }
  }

  function Actions(m: Module): seq<Grant> { seq(9, j requires 0 <= j < 9 => (m, ACTIONS[j])) }

  lemma GridStep(modules: seq<Module>, i: nat)
    requires i < |modules|
    ensures Grid(modules[..i + 1]) == Grid(modules[..i]) + Actions(modules[i])
  {
  }

  lemma CodifyAppend(some: seq<Grant>, more: seq<Grant>)
    ensures Codify(some + more) == Codify(some) + Codify(more)
  {
  }

  method ModulePerms(m: Module) returns (perms: seq<string>)
    ensures perms == Codify(Actions(m))
  {
    perms := [];
    for j := 0 to 9
      invariant perms == Codify(Actions(m))[..j]
    {
      perms := perms + [CodeOf(ModuleName(m), ActionName(ACTIONS[j]))];
    }
  }

  /** allPerms: the codes of a grid, module by module. */
  method AllPerms(modules: seq<Module>) returns (perms: seq<string>)
    ensures perms == Codify(Grid(modules))
  {
    perms := [];
    for i := 0 to |modules|
      invariant perms == Codify(Grid(modules[..i]))
    {
      GridStep(modules, i);
      CodifyAppend(Grid(modules[..i]), Actions(modules[i]));
      var more := ModulePerms(modules[i]);
      perms := perms + more;
    }
    assert modules[..|modules|] == modules;
  }

  // The grants of seedOrderingRoles; admin has the whole grid.

  const MANAGER_MODULES := [Orders, Catalog, Outlets, Promotions, DeliveryWindows, Loyalty]
  const MANAGER_EXTRAS := [
    (Analytics, View), (Analytics, ViewOwn), (Users, View), (Users, ViewOwn), (Users, ChangeOwn), (Configs, View)]
  const KITCHEN := [
    (Orders, View), (Orders, Change), (Orders, Manage), (Catalog, View), (Users, ViewOwn), (Users, ChangeOwn)]
  const CASHIER := [
    (Orders, Add), (Orders, View), (Orders, Change), (Orders, Manage), (Catalog, View), (Promotions, View),
    (Loyalty, View), (Loyalty, Manage), (Users, ViewOwn), (Users, ChangeOwn)]
  const DELIVERY_COORDINATOR := [
    (Orders, View), (Orders, Change), (DeliveryWindows, View), (DeliveryWindows, Change), (DeliveryWindows, Manage),
    (Outlets, View), (Users, ViewOwn), (Users, ChangeOwn)]
  const VIEWER := [
    (Orders, View), (Catalog, View), (Outlets, View), (Promotions, View), (DeliveryWindows, View), (Loyalty, View),
    (Analytics, View), (Configs, View), (Users, ViewOwn)]

  // The grants of seedRolePermissions.

  const LEGACY_CUSTOMER := [
    (Orders, Add), (Orders, ViewOwn), (Orders, ChangeOwn), (Orders, ManageOwn), (Loyalty, ViewOwn),
    (Loyalty, Change), (Users, ChangeOwn), (Configs, ChangeOwn)]
  const LEGACY_RIDER := [
    (Orders, View), (Orders, Change), (Users, ChangeOwn), (Configs, ChangeOwn)]
  const LEGACY_STAFF := [
    (Orders, Add), (Orders, View), (Orders, Change), (Orders, Manage), (Catalog, View), (Catalog, Add),
    (Catalog, Change), (Catalog, Manage), (Loyalty, View), (Configs, View), (Orders, ViewOwn), (Users, ChangeOwn),
    (Configs, ChangeOwn)]
  const LEGACY_ADMIN := [
    (Orders, Add), (Orders, View), (Orders, Change), (Orders, Delete), (Orders, Manage), (Catalog, Add),
    (Catalog, View), (Catalog, Change), (Catalog, Delete), (Catalog, Manage), (Loyalty, View), (Loyalty, Manage),
    (Analytics, View), (Analytics, Manage), (Promotions, Add), (Promotions, View), (Promotions, Change),
    (Promotions, Delete), (Promotions, Manage), (Configs, View), (Configs, Manage), (Users, Add), (Users, View),
    (Users, Manage), (Users, ChangeOwn), (Configs, ChangeOwn)]
  const LEGACY_SUPERUSER := [
    (Orders, Add), (Orders, View), (Orders, Change), (Orders, Delete), (Orders, Manage), (Catalog, Add),
    (Catalog, View), (Catalog, Change), (Catalog, Delete), (Catalog, Manage), (Loyalty, View), (Loyalty, Change),
    (Loyalty, Manage), (Analytics, View), (Analytics, Manage), (Promotions, Add), (Promotions, View),
    (Promotions, Change), (Promotions, Delete), (Promotions, Manage), (Configs, View), (Configs, Manage), (Users, Add),
    (Users, View), (Users, Manage), (Users, ChangeOwn), (Configs, ChangeOwn)]

  // The plan. Names and descriptions are opaque texts.

  datatype Text = Text(name: string, desc: string)

  datatype Texts = Texts(perm: Grant -> Text, legacy: Grant -> Text, role: string -> Text, config: string -> Setting)

  const DESTINATIONS := ["logistics-api", "inventory-api", "pos-api", "notifications-api", "treasury-api"]
  const RETIRED_NAMES: set<string> := {
    "max_order_amount", "min_order_amount", "default_currency", "order_expiry_minutes", "max_cart_items",
    "loyalty_points_per_unit", "loyalty_redemption_rate", "catalog_sync_interval_minutes",
    "default_delivery_radius_km", "max_delivery_radius_km", "enable_guest_checkout", "enable_promo_stacking"}
  const RETIRED_KEYS: set<string> := set k | k in RETIRED_NAMES :: "ordering." + k
  const CONFIG_KEYS := ["orders.auto_accept", "orders.payment_retry_window_minutes"]
  const LEGACY_ROLES := ["customer", "rider", "staff", "admin", "superuser"]

  function PermSpecs(texts: Texts, grants: seq<Grant>): seq<PermSpec> {
    seq(|grants|, k requires 0 <= k < |grants| =>
      var g, m := grants[k], ModuleName(grants[k].0);
      PermSpec(Code(g), PermInfo(texts.perm(g).name, m, ActionName(g.1), m, texts.perm(g).desc)))
  }

  function LegacySpecs(texts: Texts, grants: seq<Grant>): seq<LegacyPermSpec> {
    seq(|grants|, k requires 0 <= k < |grants| =>
      var g := grants[k];
      LegacyPermSpec(Code(g), LegacyPerm(texts.legacy(g).name, ModuleName(g.0), texts.legacy(g).desc)))
  }

  function TheRole(texts: Texts, code: string, grants: seq<Grant>): RoleSpec {
    RoleSpec(code, RoleInfo(texts.role(code).name, texts.role(code).desc, true), Codify(grants))
  }

  function TheRoles(texts: Texts): seq<RoleSpec> {
    [TheRole(texts, "admin", Grid(MODULES)),
     TheRole(texts, "manager", Grid(MANAGER_MODULES) + MANAGER_EXTRAS),
     TheRole(texts, "kitchen", KITCHEN),
     TheRole(texts, "cashier", CASHIER),
     TheRole(texts, "delivery_coordinator", DELIVERY_COORDINATOR),
     TheRole(texts, "viewer", VIEWER)]
  }

  function LegacyRoleRows(texts: Texts): seq<LegacyRoleSpec> {
    seq(|LEGACY_ROLES|, k requires 0 <= k < |LEGACY_ROLES| =>
      LegacyRoleSpec(LEGACY_ROLES[k], LegacyRole(texts.role(LEGACY_ROLES[k]).name, texts.role(LEGACY_ROLES[k]).desc,
        if k == 4 then "global" else "tenant", true)))
  }

  function LegacyGrants(code: string): seq<Grant> {
    if code == "customer" then LEGACY_CUSTOMER
    else if code == "rider" then LEGACY_RIDER
    else if code == "staff" then LEGACY_STAFF
    else if code == "admin" then LEGACY_ADMIN
    else LEGACY_SUPERUSER
  }

  function ThePlan(names: Names, texts: Texts): Plan {
    Plan(names, RETIRED_PREFIX, RETIRED_MODULE, RETIRED_KEYS, DESTINATIONS,
         LegacySpecs(texts, Grid(LEGACY_MODULES)),
         LegacyRoleRows(texts),
         map code | code in LEGACY_ROLES :: Codify(LegacyGrants(code)),
         PermSpecs(texts, Grid(MODULES)),
         TheRoles(texts),
         seq(2, k requires 0 <= k < 2 => ConfigSpec(CONFIG_KEYS[k], texts.config(CONFIG_KEYS[k]))))
  }

  /** SHA-1 of distinct names does not collide. */
  ghost predicate Hashes(names: Names) {
    && (forall c, d :: names.perm(c) == names.perm(d) ==> c == d)
    && (forall c, d :: names.legacyPerm(c) == names.legacyPerm(d) ==> c == d)
    && (forall t, u, c, d :: names.role(t, c) == names.role(u, d) ==> t == u && c == d)
  }

  lemma PermsDistinct(names: Names, texts: Texts)
    ensures DistinctCodes(ThePlan(names, texts).perms)
    ensures forall s :: s in ThePlan(names, texts).perms ==> !Retired(ThePlan(names, texts), s.code)
  {
    var grid := Grid(MODULES);
    GridDistinct(MODULES);
    forall i, j | 0 <= i < j < |grid| ensures PermSpecs(texts, grid)[i].code != PermSpecs(texts, grid)[j].code {
      OneCode(grid[i], grid[j]);
    }
    forall k | 0 <= k < |grid| ensures !Retired(ThePlan(names, texts), PermSpecs(texts, grid)[k].code) {
      ModuleShape(grid[k].0);
      RetiredIff(ModuleName(grid[k].0), ActionName(grid[k].1));
    }
  }

  lemma LegacyDistinct(names: Names, texts: Texts)
    requires Hashes(names)
    ensures NoDup(LegacyPermKeys(ThePlan(names, texts)))
    ensures forall s :: s in ThePlan(names, texts).legacyPerms ==> s.row.mod != RETIRED_MODULE
  {
    var grid := Grid(LEGACY_MODULES);
    GridDistinct(LEGACY_MODULES);
    forall i, j | 0 <= i < j < |grid| ensures names.legacyPerm(Code(grid[i])) != names.legacyPerm(Code(grid[j])) {
      OneCode(grid[i], grid[j]);
    }
    forall k | 0 <= k < |grid| ensures LegacySpecs(texts, grid)[k].row.mod != RETIRED_MODULE {
      ModuleShape(grid[k].0);
    }
  }

  lemma DestinationsDistinct()
    ensures NoDup(DESTINATIONS)
  {
    assert Shape(DESTINATIONS[0]) == (13, 'l') && Shape(DESTINATIONS[1]) == (13, 'i') && Shape(DESTINATIONS[2]) == (7, 'p')
        && Shape(DESTINATIONS[3]) == (17, 'n') && Shape(DESTINATIONS[4]) == (12, 't');
  }

  lemma LegacyRolesDistinct()
    ensures NoDup(LEGACY_ROLES)
  {
    assert Shape(LEGACY_ROLES[0]) == (8, 'c') && Shape(LEGACY_ROLES[1]) == (5, 'r') && Shape(LEGACY_ROLES[2]) == (5, 's')
        && Shape(LEGACY_ROLES[3]) == (5, 'a') && Shape(LEGACY_ROLES[4]) == (9, 's');
  }

  lemma ConfigsLive()
    ensures CONFIG_KEYS[0] != CONFIG_KEYS[1]
    ensures forall k :: 0 <= k < 2 ==> CONFIG_KEYS[k] !in RETIRED_KEYS
  {
    assert |CONFIG_KEYS[0]| == 18 && |CONFIG_KEYS[1]| == 35 && CONFIG_KEYS[0][5] == CONFIG_KEYS[1][5] == 's';
    forall n: string ensures ("ordering." + n)[5] == 'i' {
    }
  }

  lemma RolesDistinct(texts: Texts)
    ensures DistinctRoles(TheRoles(texts))
  {
    var roles := TheRoles(texts);
    assert Shape(roles[0].code) == (5, 'a') && Shape(roles[1].code) == (7, 'm') && Shape(roles[2].code) == (7, 'k')
        && Shape(roles[3].code) == (7, 'c') && Shape(roles[4].code) == (20, 'd') && Shape(roles[5].code) == (6, 'v');
  }

  /** The lists are what a run needs them to be. */
  lemma PlanSound(names: Names, texts: Texts)
    requires Hashes(names)
    ensures Sound(ThePlan(names, texts))
  {
    var plan := ThePlan(names, texts);
    PermsDistinct(names, texts);
    LegacyDistinct(names, texts);
    DestinationsDistinct();
    LegacyRolesDistinct();
    ConfigsLive();
    RolesDistinct(texts);
    assert LegacyRoleKeys(plan) == LEGACY_ROLES;
  }

  lemma ManagerDistinct()
    ensures NoDup(Grid(MANAGER_MODULES) + MANAGER_EXTRAS)
  {
    GridDistinct(MANAGER_MODULES);
    forall k | 0 <= k < |MANAGER_EXTRAS| ensures MANAGER_EXTRAS[k] !in Grid(MANAGER_MODULES) {
      InGrid(MANAGER_MODULES, MANAGER_EXTRAS[k]);
    }
  }

  /** No role names a permission twice. */
  lemma RolesListOnce(names: Names, texts: Texts)
    ensures forall s :: s in ThePlan(names, texts).roles ==> ListedOnce(Codes(ThePlan(names, texts).perms), s.perms)
  {
    GridDistinct(MODULES);
    ManagerDistinct();
    CodifyDistinct(Grid(MODULES));
    CodifyDistinct(Grid(MANAGER_MODULES) + MANAGER_EXTRAS);
    CodifyDistinct(KITCHEN);
    CodifyDistinct(CASHIER);
    CodifyDistinct(DELIVERY_COORDINATOR);
    CodifyDistinct(VIEWER);
    forall k | 0 <= k < 6 ensures NoDup(TheRoles(texts)[k].perms) {
    }
  }

  lemma AllModules(m: Module)
    ensures m in MODULES
  {
    var k := match m
      case Orders => 0
      case Catalog => 1
      case Outlets => 2
      case Promotions => 3
      case DeliveryWindows => 4
      case Loyalty => 5
      case Analytics => 6
      case Configs => 7
      case Users => 8;
    assert MODULES[k] == m;
  }

  /** Every permission a role lists is seeded: the warning branch is never taken. */
  lemma RolesSeedable(names: Names, texts: Texts, g: Grant)
    ensures Code(g) in Codes(ThePlan(names, texts).perms)
  {
    AllModules(g.0);
    InGrid(MODULES, g);
    var k :| 0 <= k < |Grid(MODULES)| && Grid(MODULES)[k] == g;
    assert PermSpecs(texts, Grid(MODULES))[k].code == Code(g);
    assert PermSpecs(texts, Grid(MODULES))[k] in ThePlan(names, texts).perms;
  }

  lemma LegacyLinked(names: Names, texts: Texts, grants: seq<Grant>)
    requires forall g :: g in grants ==> g.0 in LEGACY_MODULES
    ensures forall c :: c in Codify(grants) ==> c in LegacyCodes(ThePlan(names, texts))
  {
    var specs := LegacySpecs(texts, Grid(LEGACY_MODULES));
    forall i | 0 <= i < |grants| ensures Code(grants[i]) in LegacyCodes(ThePlan(names, texts)) {
      assert grants[i] in grants;
      InGrid(LEGACY_MODULES, grants[i]);
      var k :| 0 <= k < |Grid(LEGACY_MODULES)| && Grid(LEGACY_MODULES)[k] == grants[i];
      assert specs[k] in specs && specs[k].code == Code(grants[i]);
    }
  }

  /** Every legacy role and permission that is linked is seeded first, whatever the database held. */
  lemma LegacyPossible(names: Names, texts: Texts, db: Db)
    ensures LinksPossible(ThePlan(names, texts), db)
  {
    var plan := ThePlan(names, texts);
    assert LegacyRoleKeys(plan) == LEGACY_ROLES;
    forall code | code in plan.legacyGrants
      ensures forall p :: p in plan.legacyGrants[code] ==> p in LegacyCodes(plan)
    {
      LegacyModulesOnly(code);
      LegacyLinked(names, texts, LegacyGrants(code));
    }
  }

  lemma LegacyModulesOnly(code: string)
    ensures forall g :: g in LegacyGrants(code) ==> g.0 in LEGACY_MODULES
  {
    var grants := LegacyGrants(code);
    forall k | 0 <= k < |grants| ensures grants[k].0 in LEGACY_MODULES {
      assert grants[k].0 != Outlets && grants[k].0 != DeliveryWindows;
      LegacyModule(grants[k].0);
    }
  }

  lemma LegacyModule(m: Module)
    requires m != Outlets && m != DeliveryWindows
    ensures m in LEGACY_MODULES
  {
    var k := match m case Orders => 0 case Catalog => 1 case Loyalty => 2 case Promotions => 3 case Analytics => 4
                     case Configs => 5 case _ => 6;
    assert LEGACY_MODULES[k] == m;
  }

  /** With these lists a run over a database whose identifiers are hashes always succeeds. */
  lemma SeedSucceeds(names: Names, texts: Texts, t: Tenant, slug: string, order: seq<string>, db: Db)
    requires Hashes(names) && WellFormed(db) && Walk(ThePlan(names, texts), order)
    requires HashIds(names, db.perms) && RoleIdsFree(ThePlan(names, texts), t, db)
    ensures Seed(ThePlan(names, texts), t, slug, order, db).Ok?
  {
    PlanSound(names, texts);
    LegacyPossible(names, texts, db);
    RolesListOnce(names, texts);
    HashedIdsSuffice(ThePlan(names, texts), t, slug, order, db);
  }

  /** After a run on such a database the tenant's admin role holds every permission of the nine modules, and nothing
      else. */
  lemma AdminHasAll(names: Names, texts: Texts, t: Tenant, slug: string, order: seq<string>, db: Db, id: Id, p: Id)
    requires Hashes(names) && WellFormed(db) && Walk(ThePlan(names, texts), order)
    requires HashIds(names, db.perms) && RoleIdsFree(ThePlan(names, texts), t, db)
    requires Seed(ThePlan(names, texts), t, slug, order, db).Ok?
    requires id in RoleIds(Seed(ThePlan(names, texts), t, slug, order, db).value.roles, t, "admin")
    ensures var final := Seed(ThePlan(names, texts), t, slug, order, db).value;
            (id, p) in final.grants <==> p in final.perms && exists m, a :: final.perms[p].code == CodeOf(ModuleName(m), ActionName(a))
  {
    var plan := ThePlan(names, texts);
    var final := Seed(plan, t, slug, order, db).value;
    PlanSound(names, texts);
    var admin := TheRoles(texts)[0];
    assert admin in plan.roles;
    GrantsExactByCode(plan, t, slug, order, db, admin, id, p);
    if p in final.perms {
      AdminLists(names, texts, final.perms[p].code);
    }
  }

  lemma AdminLists(names: Names, texts: Texts, code: string)
    ensures code in TheRoles(texts)[0].perms && code in Codes(ThePlan(names, texts).perms) <==>
            exists m, a :: code == CodeOf(ModuleName(m), ActionName(a))
  {
    var perms := TheRoles(texts)[0].perms;
    if code in perms {
      var k :| 0 <= k < |perms| && perms[k] == code;
      var g := Grid(MODULES)[k];
      assert code == CodeOf(ModuleName(g.0), ActionName(g.1));
    }
    forall m, a | code == CodeOf(ModuleName(m), ActionName(a)) ensures code in perms && code in Codes(ThePlan(names, texts).perms) {
      AllModules(m);
      InGrid(MODULES, (m, a));
      var k :| 0 <= k < |Grid(MODULES)| && Grid(MODULES)[k] == (m, a);
      assert perms[k] == code;
      RolesSeedable(names, texts, (m, a));
    }
  }

  /** And the viewer role holds only permissions to view. */
  lemma ViewerOnlyViews(names: Names, texts: Texts, t: Tenant, slug: string, order: seq<string>, db: Db, id: Id, p: Id)
    requires Hashes(names) && WellFormed(db) && Walk(ThePlan(names, texts), order)
    requires HashIds(names, db.perms) && RoleIdsFree(ThePlan(names, texts), t, db)
    requires Seed(ThePlan(names, texts), t, slug, order, db).Ok?
    requires id in RoleIds(Seed(ThePlan(names, texts), t, slug, order, db).value.roles, t, "viewer")
    requires (id, p) in Seed(ThePlan(names, texts), t, slug, order, db).value.grants
    ensures var final := Seed(ThePlan(names, texts), t, slug, order, db).value;
            p in final.perms && exists m, a :: a in {View, ViewOwn} && final.perms[p].code == CodeOf(ModuleName(m), ActionName(a))
  {
    var plan := ThePlan(names, texts);
    var final := Seed(plan, t, slug, order, db).value;
    PlanSound(names, texts);
    var viewer := TheRoles(texts)[5];
    assert viewer in plan.roles;
    GrantsExactByCode(plan, t, slug, order, db, viewer, id, p);
    ViewerLists(texts, final.perms[p].code);
  }

  lemma ViewerLists(texts: Texts, code: string)
    requires code in TheRoles(texts)[5].perms
    ensures exists m, a :: a in {View, ViewOwn} && code == CodeOf(ModuleName(m), ActionName(a))
  {
    var perms := TheRoles(texts)[5].perms;
    var k :| 0 <= k < |perms| && perms[k] == code;
    var g := VIEWER[k];
    assert g.1 in {View, ViewOwn};
    assert code == CodeOf(ModuleName(g.0), ActionName(g.1));
  }
}
