/** The startup migration (cmd/migrate/main.go) as a transition system: any number of replicas
    race for one session-level advisory lock, create the schema, and swap the global unique
    index on order numbers for a per-tenant one, while API servers keep inserting orders. */
module MigrationProtocol {
  import opened Base

  datatype Order = Order(tenant: nat, number: string)

  /** The orders table with its two uniqueness indexes: `legacy` is order_order_number (global),
      `perTenant` is order_tenant_id_order_number. */
  datatype Table = Absent | Present(orders: seq<Order>, legacy: bool, perTenant: bool)

  /** Where one run of the binary stands. `Starting` covers the wait on pg_advisory_lock. The
      two index statements only log their errors, so their outcomes are remembered here. */
  datatype Pc =
    | Starting
    | Holding
    | SchemaReady
    | CreateTried(created: bool)
    | DropTried(created: bool, dropped: bool)
    | Finished(clean: bool)
    | Crashed

  /** `expired`: the two-minute context has run out; every later statement fails. */
  datatype Replica = Replica(pc: Pc, expired: bool)

  /** `holder` is the replica whose database session owns the advisory lock. */
  datatype Cluster = Cluster(table: Table, holder: Option<nat>, replicas: seq<Replica>)

  /** The server's part in one index statement: it carries it out and the replica hears so, it rejects it
      (timeouts, privileges), or it carries it out after the replica's context has run out. */
  datatype Reply = Accepted | Rejected | Lost

  datatype Action =
    | Acquire
    | CreateSchema(addsIndex: bool, heard: bool)  // not heard: the context runs out before the answer
    | CreateIndex(reply: Reply)
    | DropIndex(reply: Reply)
    | Close                       // deferred client.Close; the unlock deferred before it then fails
    | Fatal                       // log.Fatalf after a statement failed on the expired context
    | Crash                       // killed, or log.Fatalf for any other reason
    | Expire                      // the two minutes are over
    | SessionEnds                 // the connection drops; the server releases its advisory lock

  /** One replica acts, or an API server places an order. */
  datatype Step = Do(r: nat, act: Action) | Insert(o: Order)

  predicate Terminal(pc: Pc) { pc.Finished? || pc.Crashed? }

  /** Between taking the lock and closing the client. */
  predicate Inside(pc: Pc) { pc.Holding? || pc.SchemaReady? || pc.CreateTried? || pc.DropTried? }

  ghost predicate GloballyUnique(orders: seq<Order>) {
    forall i, j :: 0 <= i < j < |orders| ==> orders[i].number != orders[j].number
  }

  predicate TenantUnique(orders: seq<Order>) {
    forall i, j :: 0 <= i < j < |orders| ==> orders[i] != orders[j]
  }

  /** Both indexes present on the table accept the new row. */
  predicate Admits(t: Table, o: Order)
    requires t.Present?
  {
    && (t.legacy ==> forall k :: 0 <= k < |t.orders| ==> t.orders[k].number != o.number)
    && (t.perTenant ==> forall k :: 0 <= k < |t.orders| ==> t.orders[k] != o)
  }

  /** CREATE UNIQUE INDEX IF NOT EXISTS takes effect: live context, server willing, and the rows
      already satisfy the index. */
  predicate CreateSucceeds(s: Cluster, r: nat, reply: Reply)
    requires r < |s.replicas|
  {
    !s.replicas[r].expired && !reply.Rejected? && s.table.Present? &&
    (s.table.perTenant || TenantUnique(s.table.orders))
  }

  predicate DropSucceeds(s: Cluster, r: nat, reply: Reply)
    requires r < |s.replicas|
  {
    !s.replicas[r].expired && !reply.Rejected? && s.table.Present?
  }

  ghost predicate Enabled(s: Cluster, step: Step) {
    match step
    case Insert(o) => s.table.Present? && Admits(s.table, o)
    case Do(r, act) => r < |s.replicas| && !Terminal(s.replicas[r].pc) && CanDo(s, r, act)
  }

  ghost predicate CanDo(s: Cluster, r: nat, act: Action)
    requires r < |s.replicas|
  {
    var me := s.replicas[r];
    match act
    case Acquire => me.pc.Starting? && s.holder.None? && !me.expired
    case CreateSchema(adds, _) =>
      me.pc.Holding? && !me.expired &&
      (adds && s.table.Present? && !s.table.perTenant ==> TenantUnique(s.table.orders))
    case CreateIndex(_) => me.pc.SchemaReady?
    case DropIndex(_) => me.pc.CreateTried?
    case Close => me.pc.DropTried?
    case Fatal => me.expired && (me.pc.Starting? || me.pc.Holding?)
    case Crash => true
    case Expire => !me.expired
    case SessionEnds => s.holder == Some(r)
  }

  function Goto(s: Cluster, r: nat, pc: Pc): Cluster
    requires r < |s.replicas|
  {
    s.(replicas := s.replicas[r := s.replicas[r].(pc := pc)])
  }

  /** The context has run out. */
  function Cut(s: Cluster, r: nat): Cluster
    requires r < |s.replicas|
  {
    s.(replicas := s.replicas[r := s.replicas[r].(expired := true)])
  }

  /** An index statement is over: the replica records whether it heard of its success. */
  function Tried(s: Cluster, r: nat, reply: Reply, pc: Pc): Cluster
    requires r < |s.replicas|
  {
    s.(replicas := s.replicas[r := Replica(pc, s.replicas[r].expired || reply.Lost?)])
  }

  function Release(s: Cluster, r: nat): Cluster {
    if s.holder == Some(r) then s.(holder := None) else s
  }

  /** Schema.Create is additive: it creates a missing table with the declared per-tenant index,
      may add that index to an existing table, and drops nothing. */
  function AfterSchema(t: Table, adds: bool): Table {
    match t
    case Absent => Present([], false, true)
    case Present(orders, legacy, perTenant) => Present(orders, legacy, perTenant || adds)
  }

  ghost function Next(s: Cluster, step: Step): Cluster
    requires Enabled(s, step)
  {
    match step
    case Insert(o) => s.(table := s.table.(orders := s.table.orders + [o]))
    case Do(r, act) => Perform(s, r, act)
  }

  ghost function Perform(s: Cluster, r: nat, act: Action): Cluster
    requires r < |s.replicas| && CanDo(s, r, act)
  {
    var me := s.replicas[r];
    match act
    case Acquire => Goto(s.(holder := Some(r)), r, Holding)
    case CreateSchema(adds, heard) =>
      var created := s.(table := AfterSchema(s.table, adds));
      if heard then Goto(created, r, SchemaReady) else Cut(created, r)
    case CreateIndex(reply) =>
      if CreateSucceeds(s, r, reply)
      then Tried(s.(table := s.table.(perTenant := true)), r, reply, CreateTried(reply.Accepted?))
      else Tried(s, r, reply, CreateTried(false))
    case DropIndex(reply) =>
      if DropSucceeds(s, r, reply)
      then Tried(s.(table := s.table.(legacy := false)), r, reply, DropTried(me.pc.created, reply.Accepted?))
      else Tried(s, r, reply, DropTried(me.pc.created, false))
    case Close => Release(Goto(s, r, Finished(me.pc.created && me.pc.dropped)), r)
    case Fatal => Release(Goto(s, r, Crashed), r)
    case Crash => Release(Goto(s, r, Crashed), r)
    case Expire => Cut(s, r)
    case SessionEnds => Release(s, r)
  }

  // ---------------------------------------------------------------------------------------
  // Runs

  /** `steps` is a possible run from `s`; a run's prefixes are runs too, so a fact about the last
      state of every run is a fact about every state of every run. */
  ghost predicate Legal(s: Cluster, steps: seq<Step>)
    decreases |steps|, 0
  {
    steps == [] ||
    (Legal(s, steps[..|steps| - 1]) && Enabled(After(s, steps[..|steps| - 1]), steps[|steps| - 1]))
  }

  ghost function After(s: Cluster, steps: seq<Step>): Cluster
    requires Legal(s, steps)
    decreases |steps|, 1
  {
    if steps == [] then s else Next(After(s, steps[..|steps| - 1]), steps[|steps| - 1])
  }

  /** Rows obey the indexes that exist. */
  ghost predicate Consistent(t: Table) {
    t.Present? ==>
      (t.legacy ==> GloballyUnique(t.orders)) && (t.perTenant ==> TenantUnique(t.orders))
  }

  /** Some index keeps order numbers unique per tenant. */
  predicate Enforced(t: Table) { t.Present? ==> t.legacy || t.perTenant }

  /** A deployment about to start: any number of replicas, a table that is missing or carries one
      of the indexes. */
  ghost predicate Initial(s: Cluster) {
    s.holder.None? && Consistent(s.table) && Enforced(s.table) &&
    forall r :: 0 <= r < |s.replicas| ==> s.replicas[r] == Replica(Starting, false)
  }

  /** What each recorded outcome still says about the table. */
  predicate PcAgrees(t: Table, pc: Pc) {
    && (pc.SchemaReady? || pc.CreateTried? || pc.DropTried? || pc.Finished? ==> t.Present?)
    && (pc == CreateTried(true) ==> t.perTenant)
    && (pc.DropTried? ==> (pc.created ==> t.perTenant) && (pc.dropped ==> !t.legacy))
    && (pc == Finished(true) ==> t.perTenant && !t.legacy)
  }

  ghost predicate Inv(s: Cluster) {
    && Consistent(s.table)
    && (s.holder.Some? ==> s.holder.value < |s.replicas| && Inside(s.replicas[s.holder.value].pc))
    && forall r :: 0 <= r < |s.replicas| ==> PcAgrees(s.table, s.replicas[r].pc)
  }

  /** Rows are only added past the indexes, and an index is only added over rows that obey it. */
  lemma TableStep(s: Cluster, step: Step)
    requires Inv(s) && Enabled(s, step)
    ensures Consistent(Next(s, step).table)
  {
    if step.Insert? {
      var t := Next(s, step).table;
      assert t.orders[|s.table.orders|] == step.o;
    }
  }

  lemma PcStep(s: Cluster, step: Step, r: nat)
    requires Inv(s) && Enabled(s, step) && r < |s.replicas|
    ensures PcAgrees(Next(s, step).table, Next(s, step).replicas[r].pc)
  {
    assert PcAgrees(s.table, s.replicas[r].pc);
    if step.Do? {
      var now, next := s.replicas[step.r], Next(s, step);
      assert PcAgrees(s.table, now.pc);
      if r != step.r {
        assert next.replicas[r] == s.replicas[r];
      } else if step.act.CreateIndex? || step.act.DropIndex? {
        assert now.pc.SchemaReady? || now.pc.CreateTried?;
      }
    }
  }

  lemma InvStep(s: Cluster, step: Step)
    requires Inv(s) && Enabled(s, step)
    ensures Inv(Next(s, step))
  {
    TableStep(s, step);
    forall r | 0 <= r < |s.replicas| ensures PcAgrees(Next(s, step).table, Next(s, step).replicas[r].pc) {
      PcStep(s, step, r);
    }
  }

  lemma {:induction false} InvAlways(s: Cluster, steps: seq<Step>)
    requires Initial(s) && Legal(s, steps)
    ensures Inv(After(s, steps))
  {
    if steps != [] {
      var before := steps[..|steps| - 1];
      InvAlways(s, before);
      InvStep(After(s, before), steps[|steps| - 1]);
    }
  }

  lemma Extend(s: Cluster, steps: seq<Step>, step: Step)
    requires Legal(s, steps) && Enabled(After(s, steps), step)
    ensures Legal(s, steps + [step])
    ensures After(s, steps + [step]) == Next(After(s, steps), step)
  {
    assert (steps + [step])[..|steps + [step]| - 1] == steps;
  }

  // ---------------------------------------------------------------------------------------
  // Order numbers stay unique per tenant

  /** The legacy index is dropped although creating its replacement failed and none exists: the
      create error is only logged, so nothing stops the drop. */
  ghost predicate BlindDrop(s: Cluster, step: Step)
    requires Enabled(s, step)
  {
    step.Do? && step.act.DropIndex? && DropSucceeds(s, step.r, step.act.reply) &&
    s.replicas[step.r].pc == CreateTried(false) && !s.table.perTenant
  }

  ghost predicate NoBlindDrop(s: Cluster, steps: seq<Step>)
    requires Legal(s, steps)
  {
    steps == [] ||
    (NoBlindDrop(s, steps[..|steps| - 1]) && !BlindDrop(After(s, steps[..|steps| - 1]), steps[|steps| - 1]))
  }

  ghost predicate EnforcedThroughout(s: Cluster, steps: seq<Step>)
    requires Legal(s, steps)
  {
    Enforced(After(s, steps).table) && (steps != [] ==> EnforcedThroughout(s, steps[..|steps| - 1]))
  }

  lemma EnforcedStep(s: Cluster, step: Step)
    requires Inv(s) && Enforced(s.table) && Enabled(s, step)
    ensures Enforced(Next(s, step).table) <==> !BlindDrop(s, step)
  {
    if step.Do? {
      assert PcAgrees(s.table, s.replicas[step.r].pc);
    }
  }

  /** An index enforces per-tenant uniqueness in every state of a run exactly when the run has no
      blind drop. */
  lemma {:induction false} EnforcedIffNoBlindDrop(s: Cluster, steps: seq<Step>)
    requires Initial(s) && Legal(s, steps)
    ensures EnforcedThroughout(s, steps) <==> NoBlindDrop(s, steps)
  {
    if steps != [] {
      var before := steps[..|steps| - 1];
      EnforcedIffNoBlindDrop(s, before);
      InvAlways(s, before);
      if EnforcedThroughout(s, before) {
        EnforcedStep(After(s, before), steps[|steps| - 1]);
      }
    }
  }

  lemma {:induction false} GlobalImpliesTenant(orders: seq<Order>)
    requires GloballyUnique(orders)
    ensures TenantUnique(orders)
  {
    forall i, j | 0 <= i < j < |orders| ensures orders[i] != orders[j] {
      assert orders[i].number != orders[j].number;
    }
  }

  /** No two orders of one tenant ever share a number, over every interleaving of replicas,
      crashes, lost sessions and inserts that has no blind drop. */
  lemma UniquePerTenant(s: Cluster, steps: seq<Step>)
    requires Initial(s) && Legal(s, steps) && NoBlindDrop(s, steps)
    ensures UniqueAndIndexed(After(s, steps).table)
  {
    InvAlways(s, steps);
    EnforcedIffNoBlindDrop(s, steps);
    var t := After(s, steps).table;
    if t.Present? && t.legacy {
      GlobalImpliesTenant(t.orders);
    }
  }

  /** Creating the per-tenant index never fails on the rows: it takes effect exactly when the
      context is live and the server accepts the statement. */
  lemma CreateNeverFailsOnData(s: Cluster, steps: seq<Step>, r: nat, reply: Reply)
    requires Initial(s) && Legal(s, steps) && NoBlindDrop(s, steps)
    requires Enabled(After(s, steps), Do(r, CreateIndex(reply)))
    ensures var now := After(s, steps);
            CreateSucceeds(now, r, reply) <==> !now.replicas[r].expired && !reply.Rejected?
  {
    InvAlways(s, steps);
    UniquePerTenant(s, steps);
    assert PcAgrees(After(s, steps).table, After(s, steps).replicas[r].pc);
  }

  predicate Refuses(step: Step) { step.Do? && step.act.CreateIndex? && step.act.reply.Rejected? }

  /** Without a server-side refusal a failed create means an expired context. */
  ghost predicate FailedOnlyByExpiry(s: Cluster) {
    forall r :: 0 <= r < |s.replicas| && s.replicas[r].pc == CreateTried(false) ==>
      s.replicas[r].expired || (s.table.Present? && s.table.perTenant)
  }

  lemma ExpiryStep(s: Cluster, step: Step)
    requires Inv(s) && UniqueAndIndexed(s.table) && FailedOnlyByExpiry(s) && Enabled(s, step) && !Refuses(step)
    ensures !BlindDrop(s, step) && FailedOnlyByExpiry(Next(s, step))
  {
    if step.Do? {
      assert PcAgrees(s.table, s.replicas[step.r].pc);
    }
  }

  lemma {:induction false} NoRefusalNoBlindDrop(s: Cluster, steps: seq<Step>)
    requires Initial(s) && Legal(s, steps)
    requires forall k :: 0 <= k < |steps| ==> !Refuses(steps[k])
    ensures NoBlindDrop(s, steps) && FailedOnlyByExpiry(After(s, steps))
  {
    if steps != [] {
      var before, step := steps[..|steps| - 1], steps[|steps| - 1];
      forall k | 0 <= k < |before| ensures !Refuses(before[k]) {
        assert before[k] == steps[k];
      }
      NoRefusalNoBlindDrop(s, before);
      InvAlways(s, before);
      UniquePerTenant(s, before);
      ExpiryStep(After(s, before), step);
    }
  }

  predicate SchemaMeansIndex(s: Cluster) {
    forall r :: 0 <= r < |s.replicas| && (s.replicas[r].pc.SchemaReady? || s.replicas[r].pc.CreateTried?) ==>
      s.table.Present? && s.table.perTenant
  }

  /** Every Schema.Create that succeeds has added the per-tenant index, which the schema declares. */
  predicate SchemaDeclares(steps: seq<Step>) {
    forall k :: 0 <= k < |steps| && steps[k].Do? && steps[k].act.CreateSchema? ==> steps[k].act.addsIndex
  }

  lemma SchemaStep(s: Cluster, step: Step)
    requires SchemaMeansIndex(s) && Enabled(s, step) && SchemaDeclares([step])
    ensures !BlindDrop(s, step) && SchemaMeansIndex(Next(s, step))
  {
    assert [step][0] == step;
  }

  lemma {:induction false} AddingSchemaNoBlindDrop(s: Cluster, steps: seq<Step>)
    requires Initial(s) && Legal(s, steps) && SchemaDeclares(steps)
    ensures NoBlindDrop(s, steps)
    ensures SchemaMeansIndex(After(s, steps))
  {
    if steps != [] {
      var before := steps[..|steps| - 1];
      forall k | 0 <= k < |before| && before[k].Do? && before[k].act.CreateSchema?
        ensures before[k].act.addsIndex
      {
        assert before[k] == steps[k];
      }
      AddingSchemaNoBlindDrop(s, before);
      SchemaStep(After(s, before), steps[|steps| - 1]);
    }
  }

  predicate UniqueAndIndexed(t: Table) {
    t.Present? ==> TenantUnique(t.orders) && (t.legacy || t.perTenant)
  }

  /** In every state of a run. */
  ghost predicate UniqueThroughout(s: Cluster, steps: seq<Step>)
    requires Legal(s, steps)
  {
    && UniqueAndIndexed(After(s, steps).table)
    && (steps != [] ==> UniqueThroughout(s, steps[..|steps| - 1]))
  }

  lemma {:induction false} NoBlindDropUnique(s: Cluster, steps: seq<Step>)
    requires Initial(s) && Legal(s, steps) && NoBlindDrop(s, steps)
    ensures UniqueThroughout(s, steps)
  {
    UniquePerTenant(s, steps);
    if steps != [] {
      NoBlindDropUnique(s, steps[..|steps| - 1]);
    }
  }

  /** With the schema as declared, in every state of every run, whatever statements the server rejects or the
      replicas do not hear of: some index enforces uniqueness per tenant, and no two orders of one tenant share a
      number. */
  lemma AlwaysUniquePerTenant(s: Cluster, steps: seq<Step>)
    requires Initial(s) && Legal(s, steps) && SchemaDeclares(steps)
    ensures EnforcedThroughout(s, steps) && UniqueThroughout(s, steps)
  {
    AddingSchemaNoBlindDrop(s, steps);
    EnforcedIffNoBlindDrop(s, steps);
    NoBlindDropUnique(s, steps);
  }

  lemma Walk(s: Cluster, steps: seq<Step>, step: Step) returns (now: Cluster, longer: seq<Step>)
    requires Legal(s, steps) && Enabled(After(s, steps), step)
    ensures Legal(s, longer) && now == After(s, longer) == Next(After(s, steps), step)
  {
    Extend(s, steps, step);
    longer := steps + [step];
    now := After(s, longer);
  }

  /** The declaration is needed: were Schema.Create to leave the index out, then one replica, a legacy table, a
      rejected create and an accepted drop would let in two orders of one tenant with the same number. */
  lemma BlindDropLosesUniqueness() returns (s: Cluster, steps: seq<Step>)
    ensures Initial(s) && Legal(s, steps) && s.table.Present? && s.table.legacy
    ensures After(s, steps).table.Present? && !TenantUnique(After(s, steps).table.orders)
  {
    s := Cluster(Present([], true, false), None, [Replica(Starting, false)]);
    var o := Order(0, "20260726-0001");
    steps := [];
    var now := s;
    now, steps := Walk(s, steps, Do(0, Acquire));
    assert now == Cluster(Present([], true, false), Some(0), [Replica(Holding, false)]);
    now, steps := Walk(s, steps, Do(0, CreateSchema(false, true)));
    assert now == Cluster(Present([], true, false), Some(0), [Replica(SchemaReady, false)]);
    now, steps := Walk(s, steps, Do(0, CreateIndex(Rejected)));
    assert now == Cluster(Present([], true, false), Some(0), [Replica(CreateTried(false), false)]);
    now, steps := Walk(s, steps, Do(0, DropIndex(Accepted)));
    assert now.table == Present([], false, false);
    now, steps := Walk(s, steps, Insert(o));
    now, steps := Walk(s, steps, Insert(o));
    assert now.table.orders == [o, o];
    assert now.table.orders[0] == now.table.orders[1];
  }

  // ---------------------------------------------------------------------------------------
  // Convergence

  predicate Converged(t: Table) { t.Present? && t.perTenant && !t.legacy }

  /** The orders placed during a run. */
  function Inserted(steps: seq<Step>): seq<Order> {
    if steps == [] then []
    else Inserted(steps[..|steps| - 1]) +
         (if steps[|steps| - 1].Insert? then [steps[|steps| - 1].o] else [])
  }

  /** A drop that reaches a server willing to carry it out. */
  ghost predicate DropsIndex(s: Cluster, step: Step)
    requires Enabled(s, step)
  {
    step.Do? && step.act.DropIndex? && !step.act.reply.Rejected? && !s.replicas[step.r].expired
  }

  /** A schema that brings the index along, or a create that reaches a willing server over rows that obey it. */
  ghost predicate AddsIndex(s: Cluster, step: Step)
    requires Enabled(s, step)
  {
    && step.Do?
    && match step.act
       case CreateSchema(adds, _) => adds || s.table.Absent?
       case CreateIndex(reply) =>
         !reply.Rejected? && !s.replicas[step.r].expired && s.table.Present? && TenantUnique(s.table.orders)
       case _ => false
  }

  /** What one step does to the table: an insert appends its order and nothing else touches rows; the global index
      only goes, by a drop that takes effect; the per-tenant index only comes; only the schema makes a table. */
  lemma TableEffect(s: Cluster, step: Step)
    requires Enabled(s, step)
    ensures var was, now := s.table, Next(s, step).table;
            && (now.Present? <==> was.Present? || (step.Do? && step.act.CreateSchema?))
            && (now.Present? ==> now.orders == OrdersOf(was) + if step.Insert? then [step.o] else [])
            && (HasLegacy(now) <==> HasLegacy(was) && !DropsIndex(s, step))
            && (HasPerTenant(now) <==> HasPerTenant(was) || AddsIndex(s, step))
  {
  }

  function OrdersOf(t: Table): seq<Order> { if t.Present? then t.orders else [] }

  predicate HasLegacy(t: Table) { t.Present? && t.legacy }

  predicate HasPerTenant(t: Table) { t.Present? && t.perTenant }

  /** No run loses, changes or reorders an order: to the orders that were there it adds those that were placed. */
  lemma {:induction false} OrdersKept(s: Cluster, steps: seq<Step>)
    requires Legal(s, steps)
    ensures OrdersOf(After(s, steps).table) == OrdersOf(s.table) + Inserted(steps)
    ensures s.table.Present? ==> After(s, steps).table.Present?
  {
    if steps != [] {
      var before, step := steps[..|steps| - 1], steps[|steps| - 1];
      OrdersKept(s, before);
      TableEffect(After(s, before), step);
    }
  }

  ghost predicate DropsIndexIn(s: Cluster, steps: seq<Step>)
    requires Legal(s, steps)
  {
    && steps != []
    && (DropsIndexIn(s, steps[..|steps| - 1]) || DropsIndex(After(s, steps[..|steps| - 1]), steps[|steps| - 1]))
  }

  ghost predicate AddsIndexIn(s: Cluster, steps: seq<Step>)
    requires Legal(s, steps)
  {
    && steps != []
    && (AddsIndexIn(s, steps[..|steps| - 1]) || AddsIndex(After(s, steps[..|steps| - 1]), steps[|steps| - 1]))
  }

  /** Over a run the global index is lost exactly by a drop that takes effect and never gained; the per-tenant index
      is gained exactly by a schema or a create that takes effect and never lost. */
  lemma {:induction false} IndexesKept(s: Cluster, steps: seq<Step>)
    requires Legal(s, steps)
    ensures HasLegacy(After(s, steps).table) <==> HasLegacy(s.table) && !DropsIndexIn(s, steps)
    ensures HasPerTenant(After(s, steps).table) <==> HasPerTenant(s.table) || AddsIndexIn(s, steps)
  {
    if steps != [] {
      IndexesKept(s, steps[..|steps| - 1]);
      TableEffect(After(s, steps[..|steps| - 1]), steps[|steps| - 1]);
    }
  }

  /** An API server can place an order exactly when, with it, the rows still obey the indexes. */
  lemma InsertIff(s: Cluster, o: Order)
    requires Consistent(s.table)
    ensures Enabled(s, Insert(o)) <==> s.table.Present? && Consistent(s.table.(orders := s.table.orders + [o]))
  {
    if s.table.Present? {
      var more := s.table.orders + [o];
      assert more[|s.table.orders|] == o;
      assert forall k :: 0 <= k < |s.table.orders| ==> more[k] == s.table.orders[k];
    }
  }

  /** A clean finish of any replica means the indexes have been swapped. */
  lemma CleanFinishConverges(s: Cluster, steps: seq<Step>, r: nat)
    requires Initial(s) && Legal(s, steps)
    requires r < |After(s, steps).replicas| && After(s, steps).replicas[r].pc == Finished(true)
    ensures Converged(After(s, steps).table)
  {
    InvAlways(s, steps);
    assert PcAgrees(After(s, steps).table, After(s, steps).replicas[r].pc);
  }

  /** From then on every replica's pass changes nothing: the table only gains the orders that API
      servers insert. */
  lemma {:induction false} ConvergedForever(s: Cluster, steps: seq<Step>)
    requires Converged(s.table) && Legal(s, steps)
    ensures After(s, steps).table == Present(s.table.orders + Inserted(steps), false, true)
  {
    if steps != [] {
      ConvergedForever(s, steps[..|steps| - 1]);
    } else {
      assert s.table.orders + [] == s.table.orders;
    }
  }

  // ---------------------------------------------------------------------------------------
  // Mutual exclusion

  /** Every live replica inside the migration section owns the advisory lock. */
  ghost predicate LockCovers(s: Cluster) {
    forall r :: 0 <= r < |s.replicas| && Inside(s.replicas[r].pc) && !s.replicas[r].expired ==>
      s.holder == Some(r)
  }

  /** A session ends under a replica whose context is still live: the pool then reconnects
      without the lock. */
  ghost predicate LosesLiveSession(s: Cluster, step: Step)
    requires Enabled(s, step)
  {
    step.Do? && step.act.SessionEnds? && !s.replicas[step.r].expired
  }

  ghost predicate KeepsLiveSessions(s: Cluster, steps: seq<Step>)
    requires Legal(s, steps)
  {
    steps == [] ||
    (KeepsLiveSessions(s, steps[..|steps| - 1]) &&
     !LosesLiveSession(After(s, steps[..|steps| - 1]), steps[|steps| - 1]))
  }

  ghost predicate LockCoversThroughout(s: Cluster, steps: seq<Step>)
    requires Legal(s, steps)
  {
    LockCovers(After(s, steps)) && (steps != [] ==> LockCoversThroughout(s, steps[..|steps| - 1]))
  }

  lemma LockStep(s: Cluster, step: Step)
    requires Inv(s) && LockCovers(s) && Enabled(s, step)
    ensures LockCovers(Next(s, step)) <==> !LosesLiveSession(s, step)
  {
    if LosesLiveSession(s, step) {
      var next := Next(s, step);
      assert Inside(next.replicas[step.r].pc) && next.holder.None?;
    }
  }

  /** The lock protects the section in every state of a run exactly when no live session is lost. */
  lemma {:induction false} LockCoversIffSessionsKept(s: Cluster, steps: seq<Step>)
    requires Initial(s) && Legal(s, steps)
    ensures LockCoversThroughout(s, steps) <==> KeepsLiveSessions(s, steps)
  {
    if steps != [] {
      var before := steps[..|steps| - 1];
      LockCoversIffSessionsKept(s, before);
      InvAlways(s, before);
      if LockCovers(After(s, before)) {
        LockStep(After(s, before), steps[|steps| - 1]);
      }
    }
  }

  /** The condition is needed: the connection of a replica at work drops, and a second replica enters. */
  lemma LostSessionLetsTwoIn() returns (s: Cluster, steps: seq<Step>)
    ensures Initial(s) && Legal(s, steps) && |After(s, steps).replicas| == 2
    ensures forall r :: 0 <= r < 2 ==> After(s, steps).replicas[r] == Replica(Holding, false)
  {
    s := Cluster(Absent, None, [Replica(Starting, false), Replica(Starting, false)]);
    steps := [];
    var now := s;
    now, steps := Walk(s, steps, Do(0, Acquire));
    assert now == Cluster(Absent, Some(0), [Replica(Holding, false), Replica(Starting, false)]);
    now, steps := Walk(s, steps, Do(0, SessionEnds));
    assert now == Cluster(Absent, None, [Replica(Holding, false), Replica(Starting, false)]);
    now, steps := Walk(s, steps, Do(1, Acquire));
    assert now == Cluster(Absent, Some(1), [Replica(Holding, false), Replica(Holding, false)]);
  }

  /** Failures may strike whenever they can: an unfinished replica may crash, its context may run out unless it has,
      and its session may end while it holds the lock. */
  lemma FailuresAnytime(s: Cluster, steps: seq<Step>, r: nat)
    requires Legal(s, steps) && r < |After(s, steps).replicas| && !Terminal(After(s, steps).replicas[r].pc)
    ensures Legal(s, steps + [Do(r, Crash)])
    ensures !After(s, steps).replicas[r].expired ==> Legal(s, steps + [Do(r, Expire)])
    ensures After(s, steps).holder == Some(r) ==> Legal(s, steps + [Do(r, SessionEnds)])
  {
    Extend(s, steps, Do(r, Crash));
    if !After(s, steps).replicas[r].expired {
      Extend(s, steps, Do(r, Expire));
    }
    if After(s, steps).holder == Some(r) {
      Extend(s, steps, Do(r, SessionEnds));
    }
  }

  /** The replica could change the orders table with its next statement. */
  ghost predicate CanChangeTable(s: Cluster, r: nat) {
    exists act :: Enabled(s, Do(r, act)) && Next(s, Do(r, act)).table != s.table
  }

  /** At most one replica migrates at a time. */
  lemma AtMostOneMigrates(s: Cluster, steps: seq<Step>, r1: nat, r2: nat)
    requires Initial(s) && Legal(s, steps) && KeepsLiveSessions(s, steps)
    requires CanChangeTable(After(s, steps), r1) && CanChangeTable(After(s, steps), r2)
    ensures r1 == r2
  {
    LockCoversIffSessionsKept(s, steps);
    var now := After(s, steps);
    OnlyInsideChangesTable(now, r1);
    OnlyInsideChangesTable(now, r2);
  }

  lemma OnlyInsideChangesTable(s: Cluster, r: nat)
    requires CanChangeTable(s, r)
    ensures r < |s.replicas| && Inside(s.replicas[r].pc) && !s.replicas[r].expired
  {
    var act :| Enabled(s, Do(r, act)) && Next(s, Do(r, act)).table != s.table;
  }

  // ---------------------------------------------------------------------------------------
  // Progress and termination

  /** Steps a replica takes of its own accord, as opposed to failures of its environment. */
  predicate OwnAccord(act: Action) { !act.Crash? && !act.Expire? && !act.SessionEnds? }

  /** No deadlock: while some replica has neither finished nor crashed, some replica can go on. */
  lemma NeverStuck(s: Cluster, steps: seq<Step>, r: nat) returns (w: nat, act: Action)
    requires Initial(s) && Legal(s, steps)
    requires r < |After(s, steps).replicas| && !Terminal(After(s, steps).replicas[r].pc)
    ensures OwnAccord(act) && Enabled(After(s, steps), Do(w, act))
    ensures SchemaDeclares(steps) ==> SchemaDeclares(steps + [Do(w, act)])
  {
    InvAlways(s, steps);
    var now := After(s, steps);
    w := if now.holder.Some? then now.holder.value else r;
    var me := now.replicas[w];
    act := match me.pc
      case Starting => if me.expired then Fatal else Acquire
      case Holding =>
        if me.expired then Fatal
        else CreateSchema(now.table.Present? && !now.table.perTenant ==> TenantUnique(now.table.orders), true)
      case SchemaReady => CreateIndex(Accepted)
      case CreateTried(_) => DropIndex(Accepted)
      case _ => Close;
    if SchemaDeclares(steps) {
      AlwaysUniquePerTenant(s, steps);
    }
  }

  function Rank(pc: Pc): nat {
    match pc
    case Starting => 5
    case Holding => 4
    case SchemaReady => 3
    case CreateTried(_) => 2
    case DropTried(_, _) => 1
    case _ => 0
  }

  function Weight(me: Replica): nat { 3 * Rank(me.pc) + if me.expired then 0 else 1 }

  function Work(rs: seq<Replica>): nat {
    if rs == [] then 0 else Weight(rs[0]) + Work(rs[1..])
  }

  function Measure(s: Cluster): nat { Work(s.replicas) + Held(s) }

  lemma {:induction false} WorkUpdate(rs: seq<Replica>, r: nat, me: Replica)
    requires r < |rs|
    ensures Work(rs[r := me]) == Work(rs) - Weight(rs[r]) + Weight(me)
  {
    if r == 0 {
      assert rs[r := me][1..] == rs[1..];
    } else {
      assert rs[r := me][1..] == rs[1..][r - 1 := me];
      WorkUpdate(rs[1..], r - 1, me);
    }
  }

  /** A step is about one replica. */
  lemma OnlyOneActs(s: Cluster, r: nat, act: Action)
    requires Enabled(s, Do(r, act))
    ensures |Next(s, Do(r, act)).replicas| == |s.replicas|
    ensures Next(s, Do(r, act)).replicas == s.replicas[r := Next(s, Do(r, act)).replicas[r]]
  {
  }

  function Held(s: Cluster): nat { if s.holder.Some? then 1 else 0 }

  lemma WeightFalls(s: Cluster, r: nat, act: Action)
    requires Inv(s) && Enabled(s, Do(r, act))
    ensures var next := Next(s, Do(r, act));
            |next.replicas| == |s.replicas| && Weight(next.replicas[r]) + Held(next) < Weight(s.replicas[r]) + Held(s)
  {
  }

  lemma MeasureFalls(s: Cluster, step: Step)
    requires Inv(s) && Enabled(s, step)
    ensures if step.Do? then Measure(Next(s, step)) < Measure(s) else Measure(Next(s, step)) == Measure(s)
  {
    if step.Do? {
      OnlyOneActs(s, step.r, step.act);
      WeightFalls(s, step.r, step.act);
      WorkUpdate(s.replicas, step.r, Next(s, step).replicas[step.r]);
    }
  }

  function ReplicaSteps(steps: seq<Step>): nat {
    if steps == [] then 0
    else ReplicaSteps(steps[..|steps| - 1]) + if steps[|steps| - 1].Do? then 1 else 0
  }

  lemma {:induction false} InitialWork(rs: seq<Replica>)
    requires forall r :: 0 <= r < |rs| ==> rs[r] == Replica(Starting, false)
    ensures Work(rs) == 16 * |rs|
  {
    if rs != [] {
      InitialWork(rs[1..]);
    }
  }

  /** Every run ends: n replicas take at most 16n steps between them, failures included, however
      long the API servers keep inserting. */
  lemma {:induction false} RunsAreShort(s: Cluster, steps: seq<Step>)
    requires Initial(s) && Legal(s, steps)
    ensures ReplicaSteps(steps) + Measure(After(s, steps)) <= 16 * |s.replicas|
  {
    if steps == [] {
      InitialWork(s.replicas);
    } else {
      var before := steps[..|steps| - 1];
      RunsAreShort(s, before);
      InvAlways(s, before);
      MeasureFalls(After(s, before), steps[|steps| - 1]);
    }
  }

  // ---------------------------------------------------------------------------------------
  // One run of the binary

  /** What the environment does to one run: before which statement the context runs out
      (0 lock, 1 schema, 2 create index, 3 drop index, more for never), and what becomes of the
      statements: `schemaLost` and Lost run the context out while the server carries one out. */
  datatype Weather = Weather(expiry: nat, schemaFails: bool, schemaLost: bool, schemaAddsIndex: bool,
                             createReply: Reply, dropReply: Reply)

  predicate Fair(w: Weather) {
    w.expiry > 3 && !w.schemaFails && !w.schemaLost && w.createReply.Accepted? && w.dropReply.Accepted?
  }

  /** The shared database and the processes migrating it; `log` records the protocol steps taken
      since `start`. */
  class Deployment {
    var table: Table
    var holder: Option<nat>
    var replicas: seq<Replica>
    ghost var start: Cluster
    ghost var log: seq<Step>

    ghost function View(): Cluster reads this { Cluster(table, holder, replicas) }

    /** The database is where the recorded run leads. */
    ghost predicate Valid() reads this { Legal(start, log) && View() == After(start, log) }

    ghost method Record(step: Step, before: Cluster)
      requires Legal(start, log) && before == After(start, log)
      requires Enabled(before, step) && View() == Next(before, step)
      modifies this`log
      ensures Valid() && log == old(log) + [step]
    {
      Extend(start, log, step);
      log := log + [step];
    }

    method SetPc(r: nat, pc: Pc)
      requires r < |replicas|
      modifies this`replicas
      ensures View() == Goto(old(View()), r, pc)
    {
      replicas := replicas[r := replicas[r].(pc := pc)];
    }

    /** Ends the process or its client: the session goes, and with it the lock. */
    method Leave(r: nat, act: Action)
      requires Valid() && act in {Close, Fatal, Crash} && Enabled(View(), Do(r, act))
      modifies this
      ensures Valid() && start == old(start) && log == old(log) + [Do(r, act)]
      ensures View() == Next(old(View()), Do(r, act))
    {
      ghost var before := View();
      if act == Close {
        SetPc(r, Finished(replicas[r].pc.created && replicas[r].pc.dropped));
      } else {
        SetPc(r, Crashed);
      }
      if holder == Some(r) {
        holder := None;
      }
      Record(Do(r, act), before);
    }

    /** The context runs out when `due`. */
    method Tick(r: nat, due: bool)
      requires Valid() && r < |replicas| && !Terminal(replicas[r].pc)
      modifies this`replicas, this`log
      ensures Valid()
      ensures log == old(log) + if due && !old(replicas[r].expired) then [Do(r, Expire)] else []
      ensures replicas == old(replicas)[r := Replica(old(replicas[r].pc), due || old(replicas[r].expired))]
    {
      if due && !replicas[r].expired {
        ghost var before := View();
        replicas := replicas[r := replicas[r].(expired := true)];
        Record(Do(r, Expire), before);
      }
    }

    /** SELECT pg_advisory_lock, once it is our turn. */
    method TakeLock(r: nat)
      requires Valid() && Enabled(View(), Do(r, Acquire))
      modifies this
      ensures Valid() && start == old(start) && log == old(log) + [Do(r, Acquire)]
      ensures View() == Next(old(View()), Do(r, Acquire))
    {
      ghost var before := View();
      holder := Some(r);
      SetPc(r, Holding);
      Record(Do(r, Acquire), before);
    }

    /** Schema.Create. */
    method CreateTables(r: nat, adds: bool, heard: bool)
      requires Valid() && Enabled(View(), Do(r, CreateSchema(adds, heard)))
      modifies this
      ensures Valid() && start == old(start) && log == old(log) + [Do(r, CreateSchema(adds, heard))]
      ensures View() == Next(old(View()), Do(r, CreateSchema(adds, heard)))
      ensures table.Present? && OrdersOf(table) == OrdersOf(old(table)) && (HasLegacy(table) <==> HasLegacy(old(table)))
    {
      ghost var before := View();
      table := AfterSchema(table, adds);
      if heard {
        SetPc(r, SchemaReady);
      } else {
        replicas := replicas[r := replicas[r].(expired := true)];
      }
      Record(Do(r, CreateSchema(adds, heard)), before);
    }

    /** CREATE UNIQUE INDEX IF NOT EXISTS; an error is only logged. */
    method AddTenantIndex(r: nat, reply: Reply)
      requires Valid() && Enabled(View(), Do(r, CreateIndex(reply)))
      modifies this
      ensures Valid() && start == old(start) && log == old(log) + [Do(r, CreateIndex(reply))]
      ensures View() == Next(old(View()), Do(r, CreateIndex(reply)))
    {
      ghost var before := View();
      var created := !replicas[r].expired && !reply.Rejected? && table.Present? &&
                     (table.perTenant || TenantUnique(table.orders));
      if created {
        table := table.(perTenant := true);
      }
      replicas := replicas[r := Replica(CreateTried(created && reply.Accepted?), replicas[r].expired || reply.Lost?)];
      Record(Do(r, CreateIndex(reply)), before);
    }

    /** DROP INDEX IF EXISTS, whatever became of the create; an error is only logged. */
    method DropLegacyIndex(r: nat, reply: Reply)
      requires Valid() && Enabled(View(), Do(r, DropIndex(reply)))
      modifies this
      ensures Valid() && start == old(start) && log == old(log) + [Do(r, DropIndex(reply))]
      ensures View() == Next(old(View()), Do(r, DropIndex(reply)))
    {
      ghost var before := View();
      var dropped := !replicas[r].expired && !reply.Rejected? && table.Present?;
      if dropped {
        table := table.(legacy := false);
      }
      replicas := replicas[r := Replica(DropTried(replicas[r].pc.created, dropped && reply.Accepted?),
                                        replicas[r].expired || reply.Lost?)];
      Record(Do(r, DropIndex(reply)), before);
    }

    /** Through pg_advisory_lock; false once the process has exited. */
    method Lock(r: nat, w: Weather) returns (alive: bool)
      requires Valid() && OnlyBy(log, r)
      requires r < |replicas| && replicas[r] == Replica(Starting, false) && holder.None?
      modifies this
      ensures Valid() && start == old(start) && OnlyBy(log, r) && table == old(table)
      ensures |replicas| == |old(replicas)| && replicas == old(replicas)[r := replicas[r]]
      ensures alive ==> replicas[r] == Replica(Holding, false) && holder == Some(r)
      ensures !alive ==> replicas[r].pc == Crashed && holder.None?
      ensures alive <==> w.expiry != 0
    {
      Tick(r, w.expiry == 0);
      if replicas[r].expired {
        Leave(r, Fatal);
        return false;
      }
      TakeLock(r);
      return true;
    }

    /** Schema.Create; false once the process has exited. */
    method MakeSchema(r: nat, w: Weather) returns (alive: bool)
      requires Valid() && OnlyBy(log, r)
      requires r < |replicas| && replicas[r] == Replica(Holding, false) && holder == Some(r)
      modifies this
      ensures Valid() && start == old(start) && OnlyBy(log, r)
      ensures |replicas| == |old(replicas)| && replicas == old(replicas)[r := replicas[r]]
      ensures alive ==> replicas[r] == Replica(SchemaReady, false) && holder == Some(r)
      ensures alive ==> table == AfterSchema(old(table), w.schemaAddsIndex)
      ensures !alive ==> replicas[r].pc.Crashed? && holder.None?
      ensures !alive ==> table == old(table) || (w.schemaLost && table == AfterSchema(old(table), w.schemaAddsIndex))
      ensures w.expiry != 1 && !w.schemaFails && !w.schemaLost && Consistent(old(table)) && Enforced(old(table)) ==> alive
    {
      Tick(r, w.expiry == 1);
      if replicas[r].expired {
        Leave(r, Fatal);
        return false;
      }
      SettleUniqueness(table);
      if w.schemaFails || (w.schemaAddsIndex && table.Present? && !table.perTenant && !TenantUnique(table.orders)) {
        Leave(r, Crash);
        return false;
      }
      CreateTables(r, w.schemaAddsIndex, !w.schemaLost);
      if w.schemaLost {
        Leave(r, Fatal);
        return false;
      }
      return true;
    }

    /** Through Schema.Create; false once the process has exited. */
    method Prepare(r: nat, w: Weather) returns (alive: bool)
      requires Valid() && OnlyBy(log, r)
      requires r < |replicas| && replicas[r] == Replica(Starting, false) && holder.None?
      modifies this
      ensures Valid() && start == old(start) && OnlyBy(log, r)
      ensures |replicas| == |old(replicas)| && replicas == old(replicas)[r := replicas[r]]
      ensures alive ==> replicas[r] == Replica(SchemaReady, false) && holder == Some(r)
      ensures alive ==> table == AfterSchema(old(table), w.schemaAddsIndex)
      ensures !alive ==> replicas[r].pc.Crashed? && holder.None?
      ensures OrdersOf(table) == OrdersOf(old(table)) && (HasLegacy(table) <==> HasLegacy(old(table)))
      ensures !alive ==> table == old(table) || (w.schemaLost && table == AfterSchema(old(table), w.schemaAddsIndex))
      ensures w.expiry > 1 && !w.schemaFails && !w.schemaLost && Consistent(old(table)) && Enforced(old(table)) ==> alive
    {
      alive := Lock(r, w);
      if alive {
        alive := MakeSchema(r, w);
      }
    }

    method TryCreate(r: nat, w: Weather)
      requires Valid() && OnlyBy(log, r)
      requires r < |replicas| && replicas[r].pc == SchemaReady && holder == Some(r) && table.Present?
      modifies this
      ensures Valid() && start == old(start) && OnlyBy(log, r)
      ensures |replicas| == |old(replicas)| && replicas == old(replicas)[r := replicas[r]]
      ensures replicas[r].pc.CreateTried? && holder == Some(r) && table.Present?
      ensures !old(replicas[r].expired) && Fair(w) && (old(table).perTenant || TenantUnique(old(table).orders)) ==>
                replicas[r] == Replica(CreateTried(true), false) && table.perTenant
    {
      Tick(r, w.expiry == 2);
      assert OnlyBy(log, r);
      ghost var mid := log;
      AddTenantIndex(r, w.createReply);
      OnlyByMore(mid, Do(r, CreateIndex(w.createReply)), log, r);
    }

    method TryDrop(r: nat, w: Weather)
      requires Valid() && OnlyBy(log, r)
      requires r < |replicas| && replicas[r].pc.CreateTried? && holder == Some(r) && table.Present?
      modifies this
      ensures Valid() && start == old(start) && OnlyBy(log, r)
      ensures |replicas| == |old(replicas)| && replicas == old(replicas)[r := replicas[r]]
      ensures replicas[r].pc.DropTried? && holder == Some(r)
      ensures !old(replicas[r].expired) && Fair(w) ==>
                replicas[r].pc == DropTried(old(replicas[r].pc.created), true) && table == old(table).(legacy := false)
    {
      Tick(r, w.expiry == 3);
      assert OnlyBy(log, r);
      ghost var mid := log;
      DropLegacyIndex(r, w.dropReply);
      OnlyByMore(mid, Do(r, DropIndex(w.dropReply)), log, r);
    }

    /** The two index statements and the deferred close. */
    method SwapIndexes(r: nat, w: Weather)
      requires Valid() && OnlyBy(log, r)
      requires r < |replicas| && replicas[r] == Replica(SchemaReady, false) && holder == Some(r) && table.Present?
      modifies this
      ensures Valid() && start == old(start) && OnlyBy(log, r)
      ensures |replicas| == |old(replicas)| && replicas == old(replicas)[r := replicas[r]]
      ensures replicas[r].pc.Finished? && holder.None?
      ensures Fair(w) && (old(table).perTenant || TenantUnique(old(table).orders)) ==>
                replicas[r].pc == Finished(true) && Converged(table)
    {
      TryCreate(r, w);
      TryDrop(r, w);
      Leave(r, Close);
    }

    /** The body of main for replica r. Whatever the weather, what it does to the shared database
        is a run of the protocol by r alone, and it ends with the lock free. The orders are the ones
        that were there, and in fair weather the indexes have been swapped. */
    method Migrate(r: nat, w: Weather)
      requires Valid() && log == [] && r < |replicas| && replicas[r] == Replica(Starting, false) && holder.None?
      modifies this
      ensures Valid() && start == old(View()) && OnlyBy(log, r)
      ensures |replicas| == |old(replicas)| && replicas == old(replicas)[r := replicas[r]]
      ensures Terminal(replicas[r].pc) && holder.None?
      ensures OrdersOf(table) == OrdersOf(old(table)) && (old(table).Present? ==> table.Present?)
      ensures HasLegacy(table) ==> HasLegacy(old(table))
      ensures HasPerTenant(old(table)) ==> HasPerTenant(table)
      ensures Fair(w) && Consistent(old(table)) && Enforced(old(table)) ==>
                replicas[r].pc == Finished(true) && Converged(table)
    {
      SettleUniqueness(table);
      var alive := Prepare(r, w);
      if alive {
        SwapIndexes(r, w);
      }
      RunByOne(start, log, r);
    }
  }

  lemma {:induction false} NobodyOrders(log: seq<Step>, r: nat)
    requires OnlyBy(log, r)
    ensures Inserted(log) == []
  {
    if log != [] {
      NobodyOrders(log[..|log| - 1], r);
    }
  }

  /** What one replica's run keeps. */
  lemma RunByOne(s: Cluster, log: seq<Step>, r: nat)
    requires Legal(s, log) && OnlyBy(log, r)
    ensures var was, now := s.table, After(s, log).table;
            && OrdersOf(now) == OrdersOf(was) && (was.Present? ==> now.Present?)
            && (HasLegacy(now) ==> HasLegacy(was)) && (HasPerTenant(was) ==> HasPerTenant(now))
  {
    OrdersKept(s, log);
    IndexesKept(s, log);
    NobodyOrders(log, r);
  }

  predicate OnlyBy(log: seq<Step>, r: nat) {
    forall k :: 0 <= k < |log| ==> log[k].Do? && log[k].r == r
  }

  lemma OnlyByMore(log: seq<Step>, step: Step, more: seq<Step>, r: nat)
    requires OnlyBy(log, r) && step.Do? && step.r == r && more == log + [step]
    ensures OnlyBy(more, r)
  {
  }

  lemma SettleUniqueness(t: Table)
    ensures Consistent(t) && Enforced(t) && t.Present? ==> TenantUnique(t.orders)
  {
    if Consistent(t) && t.Present? && t.legacy {
      GlobalImpliesTenant(t.orders);
    }
  }
}
