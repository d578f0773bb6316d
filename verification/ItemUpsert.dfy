/** Upserting cart items (internal/ent/cartitem_create.go): the conflict options of a create, resolved when the
    INSERT is built, and what `ON CONFLICT ... DO UPDATE` then does to the table. */
module ItemUpsert {
  import opened Base
  import opened SqlValues

  /** The columns that the code singles out, and the rest. */
  datatype Column = Id | CreatedAt | UpdatedAt | Quantity | Other(name: string)

  /** The columns that are not NULL. */
  type Row = map<Column, Value>

  function At(row: Row, c: Column): Cell {
    if c in row then Some(row[c]) else None
  }

  /** What DO UPDATE assigns to a column: EXCLUDED.c, the row's own value, or a fixed one. */
  datatype Source = Excluded | Kept | Fixed(cell: Cell)

  type Assignments = map<Column, Source>

  /** One entry of `conflict`: UpdateNewValues adds the first two, Ignore the third, Update's setters the last. */
  datatype Resolver = NewValues | KeepIdentity | IgnoreAll | Assign(c: Column, cell: Cell)

  predicate SomeHas(rows: seq<Row>, c: Column) {
    exists k :: 0 <= k < |rows| && c in rows[k]
  }

  function Identity(rows: seq<Row>): Assignments {
    map c | c in {Id, CreatedAt} && SomeHas(rows, c) :: Kept
  }

  /** One resolver; `columns` are those of the INSERT, `rows` what the builders hold when it runs. */
  function Apply(o: Resolver, columns: set<Column>, rows: seq<Row>, set0: Assignments): Assignments {
    match o
    case NewValues => set0 + map c | c in columns :: Excluded
    case IgnoreAll => set0 + map c | c in columns :: Kept
    case KeepIdentity => set0 + Identity(rows)
    case Assign(c, cell) => set0[c := Fixed(cell)]
  }

  function Resolved(conflict: seq<Resolver>, columns: set<Column>, rows: seq<Row>): Assignments {
    if conflict == [] then map[]
    else Apply(conflict[|conflict| - 1], columns, rows, Resolved(conflict[..|conflict| - 1], columns, rows))
  }

  /** Whatever options came before, UpdateNewValues decides every written column: the identity columns that any
      builder holds by then are kept, the others take the proposed value. */
  lemma {:induction false} NewValuesDecide(earlier: seq<Resolver>, columns: set<Column>, rows: seq<Row>, c: Column)
    requires c in columns
    ensures c in Resolved(earlier + [NewValues, KeepIdentity], columns, rows)
    ensures Resolved(earlier + [NewValues, KeepIdentity], columns, rows)[c] ==
            if c in {Id, CreatedAt} && SomeHas(rows, c) then Kept else Excluded
  {
    var conflict := earlier + [NewValues, KeepIdentity];
    assert conflict[..|conflict| - 1] == earlier + [NewValues];
    assert (earlier + [NewValues])[..|earlier|] == earlier;
  }

  /** UPDATE SET on one row. */
  function Assigned(row: Row, p: Row, s: Assignments, c: Column): Cell {
    if c !in s || s[c] == Kept then At(row, c)
    else if s[c] == Excluded then At(p, c)
    else s[c].cell
  }

  function Updated(row: Row, p: Row, s: Assignments): Row {
    map c | c in row.Keys + s.Keys && Assigned(row, p, s, c).Some? :: Assigned(row, p, s, c).value
  }

  /** The values of the conflict target; NULL conflicts with nothing. */
  function KeyOf(row: Row, target: seq<Column>): Option<seq<Value>> {
    if target == [] then Some([])
    else
      var rest := KeyOf(row, target[1..]);
      if target[0] in row && rest.Some? then Some([row[target[0]]] + rest.value) else None
  }

  predicate Clash(a: Row, b: Row, target: seq<Column>) {
    KeyOf(a, target).Some? && KeyOf(a, target) == KeyOf(b, target)
  }

  /** The row that a proposal runs into, or the length. */
  function Find(rows: seq<Row>, p: Row, target: seq<Column>): (i: nat)
    ensures i <= |rows|
    ensures i < |rows| ==> Clash(rows[i], p, target)
    ensures forall k :: 0 <= k < i ==> !Clash(rows[k], p, target)
  {
    if rows == [] then 0
    else if Clash(rows[0], p, target) then 0
    else 1 + Find(rows[1..], p, target)
  }

  /** INSERT ... ON CONFLICT (target) DO UPDATE SET s: a proposal that runs into a row updates it, another is
      appended; a second proposal for the same key, and an identifier that is taken, fail the statement. */
  function Upsert(rows: seq<Row>, proposals: seq<Row>, target: seq<Column>, s: Assignments): Option<seq<Row>> {
    if proposals == [] then Some(rows)
    else
      var n := |proposals| - 1;
      var before := Upsert(rows, proposals[..n], target, s);
      if before.None? || Find(proposals[..n], proposals[n], target) < n then None
      else UpsertOne(before.value, proposals[n], target, s)
  }

  predicate HasId(rows: seq<Row>, p: Row) {
    exists k :: 0 <= k < |rows| && At(rows[k], Id) == At(p, Id)
  }

  function UpsertOne(rows: seq<Row>, p: Row, target: seq<Column>, s: Assignments): Option<seq<Row>> {
    var i := Find(rows, p, target);
    if i < |rows| then Some(rows[i := Updated(rows[i], p, s)])
    else if HasId(rows, p) then None
    else Some(rows + [p])
  }

  /** What one row becomes under a whole statement. */
  function Outcome(row: Row, proposals: seq<Row>, target: seq<Column>, s: Assignments): Row {
    var j := Find(proposals, row, target);
    if j < |proposals| then Updated(row, proposals[j], s) else row
  }

  /** The proposals that run into nothing. */
  function Unmatched(rows: seq<Row>, proposals: seq<Row>, target: seq<Column>): seq<Row> {
    if proposals == [] then []
    else
      var n := |proposals| - 1;
      Unmatched(rows, proposals[..n], target) + if Find(rows, proposals[n], target) < |rows| then [] else [proposals[n]]
  }

  /** The unique index behind the conflict target. */
  ghost predicate UniqueKeys(rows: seq<Row>, target: seq<Column>) {
    forall i, k :: 0 <= i < k < |rows| ==> !Clash(rows[i], rows[k], target)
  }

  /** The statement does not assign anything of its own to the target. */
  predicate TargetFree(target: seq<Column>, s: Assignments) {
    forall c :: c in target && c in s ==> !s[c].Fixed?
  }

  /** Equal keys are equal columns. */
  lemma {:induction false} KeyColumns(a: Row, b: Row, target: seq<Column>)
    ensures Clash(a, b, target) <==> forall c :: c in target ==> c in a && c in b && a[c] == b[c]
  {
    if target != [] {
      var c, rest := target[0], target[1..];
      KeyColumns(a, b, rest);
      assert target == [c] + rest;
      if Clash(a, b, target) {
        assert ([a[c]] + KeyOf(a, rest).value)[1..] == KeyOf(a, rest).value;
        assert ([b[c]] + KeyOf(b, rest).value)[1..] == KeyOf(b, rest).value;
        assert ([a[c]] + KeyOf(a, rest).value)[0] == ([b[c]] + KeyOf(b, rest).value)[0];
      }
    }
  }

  lemma UpdateKeepsKey(row: Row, p: Row, target: seq<Column>, s: Assignments)
    requires TargetFree(target, s) && Clash(row, p, target)
    ensures KeyOf(Updated(row, p, s), target) == KeyOf(row, target)
  {
    KeyColumns(row, p, target);
    forall c | c in target ensures At(Updated(row, p, s), c) == At(row, c) {
      assert c !in s || s[c] == Kept || s[c] == Excluded;
    }
    KeyColumns(Updated(row, p, s), row, target);
    assert Clash(Updated(row, p, s), row, target);
  }

  lemma OutcomeKeepsKey(row: Row, proposals: seq<Row>, target: seq<Column>, s: Assignments)
    requires TargetFree(target, s)
    ensures KeyOf(Outcome(row, proposals, target, s), target) == KeyOf(row, target)
  {
    var j := Find(proposals, row, target);
    if j < |proposals| {
      UpdateKeepsKey(row, proposals[j], target, s);
    }
  }

  lemma {:induction false} FindIs(rows: seq<Row>, p: Row, target: seq<Column>, i: nat)
    requires i <= |rows|
    requires i < |rows| ==> Clash(rows[i], p, target)
    requires forall k :: 0 <= k < i ==> !Clash(rows[k], p, target)
    ensures Find(rows, p, target) == i
  {
  }

  ghost predicate Distinct(proposals: seq<Row>, target: seq<Column>) {
    forall j, k :: 0 <= j < k < |proposals| ==> !Clash(proposals[j], proposals[k], target)
  }

  lemma {:induction false} UnmatchedFrom(rows: seq<Row>, proposals: seq<Row>, target: seq<Column>, k: nat)
    requires k < |Unmatched(rows, proposals, target)|
    ensures exists j :: 0 <= j < |proposals| && Unmatched(rows, proposals, target)[k] == proposals[j]
  {
    var n := |proposals| - 1;
    if k < |Unmatched(rows, proposals[..n], target)| {
      UnmatchedFrom(rows, proposals[..n], target, k);
    }
  }

  /** The table after some proposals. */
  ghost predicate Reached(rows: seq<Row>, now: seq<Row>, proposals: seq<Row>, target: seq<Column>, s: Assignments) {
    && |now| == |rows| + |Unmatched(rows, proposals, target)|
    && (forall i :: 0 <= i < |rows| ==> now[i] == Outcome(rows[i], proposals, target, s))
    && now[|rows|..] == Unmatched(rows, proposals, target)
  }

  lemma SameClashes(rows: seq<Row>, now: seq<Row>, proposals: seq<Row>, p: Row, target: seq<Column>, s: Assignments,
        k: nat)
    requires TargetFree(target, s) && Reached(rows, now, proposals, target, s)
    requires Find(proposals, p, target) == |proposals|
    requires k < |now|
    ensures Clash(now[k], p, target) <==> k < |rows| && Clash(rows[k], p, target)
  {
    if k < |rows| {
      OutcomeKeepsKey(rows[k], proposals, target, s);
    } else {
      UnmatchedFrom(rows, proposals, target, k - |rows|);
      assert now[k] == now[|rows|..][k - |rows|];
    }
  }

  /** Where the next proposal lands depends on the table as it was: earlier proposals moved no key. */
  lemma NextLands(rows: seq<Row>, now: seq<Row>, proposals: seq<Row>, p: Row, target: seq<Column>, s: Assignments)
    requires TargetFree(target, s) && Reached(rows, now, proposals, target, s)
    requires Find(proposals, p, target) == |proposals|
    ensures Find(now, p, target) == if Find(rows, p, target) < |rows| then Find(rows, p, target) else |now|
  {
    forall k | 0 <= k < |now| ensures Clash(now[k], p, target) <==> k < |rows| && Clash(rows[k], p, target) {
      SameClashes(rows, now, proposals, p, target, s, k);
    }
    var i := Find(rows, p, target);
    if i < |rows| {
      FindIs(now, p, target, i);
    } else {
      FindIs(now, p, target, |now|);
    }
  }

  /** One more proposal changes the outcome of the one row it runs into, which nothing had touched before. */
  lemma OutcomeOf(row: Row, proposals: seq<Row>, all: seq<Row>, target: seq<Column>, s: Assignments)
    requires |all| == |proposals| + 1 && forall k :: 0 <= k < |proposals| ==> all[k] == proposals[k]
    requires Find(proposals, all[|proposals|], target) == |proposals|
    ensures var p := all[|proposals|];
            && (Clash(row, p, target) ==>
                 Outcome(row, all, target, s) == Updated(row, p, s) && Outcome(row, proposals, target, s) == row)
            && (!Clash(row, p, target) ==> Outcome(row, all, target, s) == Outcome(row, proposals, target, s))
  {
    var j := Find(proposals, row, target);
    if Clash(row, all[|proposals|], target) {
      FindIs(all, row, target, |proposals|);
    } else if j < |proposals| {
      FindIs(all, row, target, j);
    } else {
      FindIs(all, row, target, |all|);
    }
  }

  lemma OutcomeStep(row: Row, proposals: seq<Row>, p: Row, target: seq<Column>, s: Assignments)
    requires Find(proposals, p, target) == |proposals|
    ensures Outcome(row, proposals + [p], target, s) ==
            if Clash(row, p, target) then Updated(row, p, s) else Outcome(row, proposals, target, s)
    ensures Clash(row, p, target) ==> Outcome(row, proposals, target, s) == row
  {
    OutcomeOf(row, proposals, proposals + [p], target, s);
  }

  lemma UpsertUnfold(rows: seq<Row>, proposals: seq<Row>, p: Row, target: seq<Column>, s: Assignments)
    ensures Upsert(rows, proposals + [p], target, s) ==
            if Upsert(rows, proposals, target, s).None? || Find(proposals, p, target) < |proposals| then None
            else UpsertOne(Upsert(rows, proposals, target, s).value, p, target, s)
    ensures Unmatched(rows, proposals + [p], target) ==
            if Find(rows, p, target) < |rows| then Unmatched(rows, proposals, target)
            else Unmatched(rows, proposals, target) + [p]
  {
    assert (proposals + [p])[..|proposals|] == proposals;
    assert Unmatched(rows, proposals, target) + [] == Unmatched(rows, proposals, target);
  }

  lemma RowStep(rows: seq<Row>, now: seq<Row>, proposals: seq<Row>, p: Row, target: seq<Column>, s: Assignments, i: nat)
    requires UniqueKeys(rows, target) && i < |rows| <= |now| && now[i] == Outcome(rows[i], proposals, target, s)
    requires Find(proposals, p, target) == |proposals|
    requires Find(now, p, target) == if Find(rows, p, target) < |rows| then Find(rows, p, target) else |now|
    requires UpsertOne(now, p, target, s).Some?
    ensures |UpsertOne(now, p, target, s).value| >= |now|
    ensures UpsertOne(now, p, target, s).value[i] == Outcome(rows[i], proposals + [p], target, s)
  {
    OutcomeStep(rows[i], proposals, p, target, s);
    var j := Find(rows, p, target);
    assert j < i ==> !Clash(rows[j], rows[i], target);
  }

  lemma TailOfUpdate<T>(xs: seq<T>, n: nat, i: nat, x: T)
    requires i < n <= |xs|
    ensures xs[i := x][n..] == xs[n..]
  {
  }

  lemma TailOfAppend<T>(xs: seq<T>, n: nat, x: T)
    requires n <= |xs|
    ensures (xs + [x])[n..] == xs[n..] + [x]
  {
  }

  lemma TailStep(rows: seq<Row>, now: seq<Row>, proposals: seq<Row>, p: Row, target: seq<Column>, s: Assignments)
    requires |rows| <= |now| && now[|rows|..] == Unmatched(rows, proposals, target)
    requires Find(now, p, target) == if Find(rows, p, target) < |rows| then Find(rows, p, target) else |now|
    requires UpsertOne(now, p, target, s).Some?
    ensures |UpsertOne(now, p, target, s).value| == |rows| + |Unmatched(rows, proposals + [p], target)|
    ensures UpsertOne(now, p, target, s).value[|rows|..] == Unmatched(rows, proposals + [p], target)
  {
    UpsertUnfold(rows, proposals, p, target, s);
    var i := Find(rows, p, target);
    if i < |rows| {
      TailOfUpdate(now, |rows|, i, Updated(now[i], p, s));
    } else {
      TailOfAppend(now, |rows|, p);
    }
  }

  lemma ReachedStep(rows: seq<Row>, now: seq<Row>, proposals: seq<Row>, p: Row, target: seq<Column>, s: Assignments)
    requires UniqueKeys(rows, target) && TargetFree(target, s) && Reached(rows, now, proposals, target, s)
    requires Find(proposals, p, target) == |proposals| && UpsertOne(now, p, target, s).Some?
    ensures Reached(rows, UpsertOne(now, p, target, s).value, proposals + [p], target, s)
  {
    NextLands(rows, now, proposals, p, target, s);
    TailStep(rows, now, proposals, p, target, s);
    var after := UpsertOne(now, p, target, s).value;
    forall i | 0 <= i < |rows| ensures after[i] == Outcome(rows[i], proposals + [p], target, s) {
      RowStep(rows, now, proposals, p, target, s, i);
    }
  }

  /** A statement that succeeds had no two proposals with one key; it rewrites each row of the table by the one
      proposal that runs into it, leaves the others as they were, and appends the rest in order. */
  lemma {:induction false} UpsertExact(rows: seq<Row>, proposals: seq<Row>, target: seq<Column>, s: Assignments)
    requires UniqueKeys(rows, target) && TargetFree(target, s)
    requires Upsert(rows, proposals, target, s).Some?
    ensures Distinct(proposals, target)
    ensures Reached(rows, Upsert(rows, proposals, target, s).value, proposals, target, s)
  {
    if proposals != [] {
      var n := |proposals| - 1;
      var p, earlier := proposals[n], proposals[..n];
      assert proposals == earlier + [p];
      UpsertUnfold(rows, earlier, p, target, s);
      UpsertExact(rows, earlier, target, s);
      ReachedStep(rows, Upsert(rows, earlier, target, s).value, earlier, p, target, s);
      DistinctStep(earlier, p, target);
    }
  }

  /** The index behind the conflict target survives the statement. */
  lemma UpsertKeepsUnique(rows: seq<Row>, proposals: seq<Row>, target: seq<Column>, s: Assignments)
    requires UniqueKeys(rows, target) && TargetFree(target, s)
    requires Upsert(rows, proposals, target, s).Some?
    ensures UniqueKeys(Upsert(rows, proposals, target, s).value, target)
  {
    UpsertExact(rows, proposals, target, s);
    var now, added := Upsert(rows, proposals, target, s).value, Unmatched(rows, proposals, target);
    UnmatchedApart(rows, proposals, target);
    forall i, k | 0 <= i < k < |now| ensures !Clash(now[i], now[k], target) {
      if i < |rows| { OutcomeKeepsKey(rows[i], proposals, target, s); }
      if k < |rows| { OutcomeKeepsKey(rows[k], proposals, target, s); }
      if |rows| <= i { assert now[i] == added[i - |rows|]; }
      if |rows| <= k { assert now[k] == added[k - |rows|]; }
    }
  }

  lemma {:induction false} UnmatchedApart(rows: seq<Row>, proposals: seq<Row>, target: seq<Column>)
    requires Distinct(proposals, target)
    ensures Distinct(Unmatched(rows, proposals, target), target)
    ensures forall i, k :: 0 <= i < |rows| && 0 <= k < |Unmatched(rows, proposals, target)| ==>
              !Clash(rows[i], Unmatched(rows, proposals, target)[k], target)
  {
    if proposals != [] {
      var n := |proposals| - 1;
      UnmatchedApart(rows, proposals[..n], target);
      var before := Unmatched(rows, proposals[..n], target);
      forall k | 0 <= k < |before| ensures !Clash(before[k], proposals[n], target) {
        UnmatchedFrom(rows, proposals[..n], target, k);
      }
    }
  }

  lemma HasIdSplit(rows: seq<Row>, more: seq<Row>, p: Row)
    ensures HasId(rows + more, p) <==> HasId(rows, p) || HasId(more, p)
  {
    var all := rows + more;
    if HasId(rows, p) {
      var k :| 0 <= k < |rows| && At(rows[k], Id) == At(p, Id);
      assert At(all[k], Id) == At(p, Id);
    } else if HasId(more, p) {
      var k :| 0 <= k < |more| && At(more[k], Id) == At(p, Id);
      assert At(all[|rows| + k], Id) == At(p, Id);
    }
  }

  /** Rewriting rows in place moves no identifier. */
  lemma HasIdKept(rows: seq<Row>, now: seq<Row>, p: Row)
    requires |now| == |rows| && forall i :: 0 <= i < |rows| ==> At(now[i], Id) == At(rows[i], Id)
    ensures HasId(now, p) <==> HasId(rows, p)
  {
    if HasId(rows, p) {
      var k :| 0 <= k < |rows| && At(rows[k], Id) == At(p, Id);
      assert At(now[k], Id) == At(p, Id);
    }
  }

  /** Every proposal that has to be added brings an identifier of its own. */
  ghost predicate OwnIds(rows: seq<Row>, added: seq<Row>) {
    forall k :: 0 <= k < |added| ==> !HasId(rows + added[..k], added[k])
  }

  lemma OwnIdsStep(rows: seq<Row>, added: seq<Row>, p: Row)
    ensures OwnIds(rows, added + [p]) <==> OwnIds(rows, added) && !HasId(rows + added, p)
  {
    var all := added + [p];
    forall k | 0 <= k < |added| ensures all[k] == added[k] && all[..k] == added[..k] {
    }
    assert all[..|added|] == added && all[|added|] == p;
    if OwnIds(rows, all) {
      forall k | 0 <= k < |added| ensures !HasId(rows + added[..k], added[k]) {
        assert !HasId(rows + all[..k], all[k]);
      }
      assert !HasId(rows + all[..|added|], all[|added|]);
    }
  }

  lemma DistinctStep(proposals: seq<Row>, p: Row, target: seq<Column>)
    ensures Distinct(proposals + [p], target) <==> Distinct(proposals, target) && Find(proposals, p, target) == |proposals|
  {
    var all := proposals + [p];
    forall k | 0 <= k < |all| ensures all[k] == if k < |proposals| then proposals[k] else p {
    }
    if Distinct(all, target) {
      forall j, k | 0 <= j < k < |proposals| ensures !Clash(proposals[j], proposals[k], target) {
        assert !Clash(all[j], all[k], target);
      }
      forall j | 0 <= j < |proposals| ensures !Clash(proposals[j], p, target) {
        assert !Clash(all[j], all[|proposals|], target);
      }
    }
  }

  /** The identifiers in the table are those of its rows and of what was added. */
  lemma IdsAfter(rows: seq<Row>, now: seq<Row>, proposals: seq<Row>, target: seq<Column>, s: Assignments, p: Row)
    requires Reached(rows, now, proposals, target, s) && Id in s && s[Id] == Kept
    ensures HasId(now, p) <==> HasId(rows + Unmatched(rows, proposals, target), p)
  {
    var added := Unmatched(rows, proposals, target);
    assert now == now[..|rows|] + added;
    HasIdKept(rows, now[..|rows|], p);
    HasIdSplit(now[..|rows|], added, p);
    HasIdSplit(rows, added, p);
  }

  /** When a statement that keeps identities succeeds: no two proposals for one key, and no identifier taken. */
  lemma {:induction false} UpsertSucceedsIff(rows: seq<Row>, proposals: seq<Row>, target: seq<Column>, s: Assignments)
    requires UniqueKeys(rows, target) && TargetFree(target, s) && Id in s && s[Id] == Kept
    ensures Upsert(rows, proposals, target, s).Some? <==>
              Distinct(proposals, target) && OwnIds(rows, Unmatched(rows, proposals, target))
  {
    if proposals != [] {
      var n := |proposals| - 1;
      var p, earlier := proposals[n], proposals[..n];
      assert proposals == earlier + [p];
      UpsertUnfold(rows, earlier, p, target, s);
      UpsertSucceedsIff(rows, earlier, target, s);
      DistinctStep(earlier, p, target);
      OwnIdsStep(rows, Unmatched(rows, earlier, target), p);
      if Upsert(rows, earlier, target, s).Some? {
        UpsertExact(rows, earlier, target, s);
        if Find(earlier, p, target) == n {
          NextLands(rows, Upsert(rows, earlier, target, s).value, earlier, p, target, s);
          IdsAfter(rows, Upsert(rows, earlier, target, s).value, earlier, target, s, p);
        }
      }
    }
  }

  /** What UpdateNewValues promises for one row of the table: unless a proposal runs into it nothing changes;
      otherwise its identity and creation time stay, every other written column shows the proposal (NULL where
      this builder left it unset), and the columns the INSERT does not name stay. */
  ghost predicate Refreshed(row: Row, now: Row, proposals: seq<Row>, target: seq<Column>, columns: set<Column>) {
    var j := Find(proposals, row, target);
    if j == |proposals| then now == row
    else forall c :: At(now, c) == if c in columns && c !in {Id, CreatedAt} then At(proposals[j], c) else At(row, c)
  }

  /** Every row that was there is refreshed or untouched, and exactly the unmatched proposals are added. */
  ghost predicate Upserted(rows: seq<Row>, now: seq<Row>, proposals: seq<Row>, target: seq<Column>) {
    && |now| == |rows| + |Unmatched(rows, proposals, target)|
    && now[|rows|..] == Unmatched(rows, proposals, target)
    && forall i :: 0 <= i < |rows| ==> Refreshed(rows[i], now[i], proposals, target, Written(proposals))
  }

  /** The added proposals are those that run into no row, in their order. */
  lemma {:induction false} UnmatchedAt(rows: seq<Row>, proposals: seq<Row>, target: seq<Column>) returns (at: seq<nat>)
    ensures Picked(proposals, Unmatched(rows, proposals, target), at)
    ensures forall j :: 0 <= j < |proposals| ==>
              (j in at <==> forall i :: 0 <= i < |rows| ==> !Clash(rows[i], proposals[j], target))
  {
    at := [];
    if proposals != [] {
      var init, last := proposals[..|proposals| - 1], proposals[|proposals| - 1];
      at := UnmatchedAt(rows, init, target);
      assert proposals == init + [last];
      PickedNext(init, Unmatched(rows, init, target), at, last);
      if Find(rows, last, target) == |rows| {
        at := at + [|init|];
      }
    }
  }

  /** A refreshed table, column by column: a row whose key a builder proposes keeps its identifier and creation time,
      shows the proposal in every other column that some builder sets, and is as it was in the rest; a row whose key
      nobody proposes is as it was. */
  lemma UpsertedColumns(rows: seq<Row>, now: seq<Row>, proposals: seq<Row>, target: seq<Column>, i: nat)
    requires Upserted(rows, now, proposals, target) && Distinct(proposals, target) && i < |rows|
    ensures forall j, c :: 0 <= j < |proposals| && SameKey(rows[i], proposals[j], target) ==>
              At(now[i], c) ==
              if c != Id && c != CreatedAt && (exists k :: 0 <= k < |proposals| && c in proposals[k])
              then At(proposals[j], c) else At(rows[i], c)
    ensures (forall j :: 0 <= j < |proposals| ==> !SameKey(rows[i], proposals[j], target)) ==> now[i] == rows[i]
  {
    assert Refreshed(rows[i], now[i], proposals, target, Written(proposals));
    forall j | 0 <= j < |proposals| ensures SameKey(rows[i], proposals[j], target) <==> Clash(proposals[j], rows[i], target) {
      KeyColumns(proposals[j], rows[i], target);
    }
    var found := Find(proposals, rows[i], target);
    forall j | 0 <= j < |proposals| && SameKey(rows[i], proposals[j], target) ensures j == found {
      KeyColumns(proposals[j], rows[i], target);
    }
  }

  /** Equal and not NULL in all columns of the target. */
  ghost predicate SameKey(row: Row, p: Row, target: seq<Column>) {
    forall c :: c in target ==> c in row && c in p && row[c] == p[c]
  }

  lemma RowRefreshed(row: Row, proposals: seq<Row>, target: seq<Column>, columns: set<Column>)
    requires {Id, CreatedAt} <= columns && SomeHas(proposals, Id) && SomeHas(proposals, CreatedAt)
    ensures var s := Resolved([NewValues, KeepIdentity], columns, proposals);
            Refreshed(row, Outcome(row, proposals, target, s), proposals, target, columns)
  {
    var s := Resolved([NewValues, KeepIdentity], columns, proposals);
    var j := Find(proposals, row, target);
    if j < |proposals| {
      forall c ensures At(Updated(row, proposals[j], s), c) == if c in columns && c !in {Id, CreatedAt} then At(proposals[j], c) else At(row, c) {
        NewValuesAt(columns, proposals, c);
      }
    }
  }

  lemma NewValuesAt(columns: set<Column>, rows: seq<Row>, c: Column)
    requires {Id, CreatedAt} <= columns
    ensures c in Resolved([NewValues, KeepIdentity], columns, rows) <==> c in columns
    ensures c in columns ==>
      Resolved([NewValues, KeepIdentity], columns, rows)[c] == (if c in {Id, CreatedAt} && SomeHas(rows, c) then Kept else Excluded)
  {
    assert [NewValues, KeepIdentity][..1] == [NewValues];
    assert Resolved([NewValues], columns, rows) == Apply(NewValues, columns, rows, map[]);
    assert Resolved([NewValues, KeepIdentity], columns, rows) ==
      Apply(KeepIdentity, columns, rows, Resolved([NewValues], columns, rows));
  }

  /** Ignore leaves every row that the statement runs into as it was. */
  lemma IgnoreKeepsRow(row: Row, proposals: seq<Row>, target: seq<Column>, columns: set<Column>)
    ensures Outcome(row, proposals, target, Resolved([IgnoreAll], columns, proposals)) == row
  {
    assert Resolved([IgnoreAll], columns, proposals) == Apply(IgnoreAll, columns, proposals, map[]);
    var s := Resolved([IgnoreAll], columns, proposals);
    var j := Find(proposals, row, target);
    if j < |proposals| {
      assert forall c :: Assigned(row, proposals[j], s, c) == At(row, c);
      assert Updated(row, proposals[j], s).Keys == row.Keys;
    }
  }

  /** The INSERT as built and run: the options see what the builders propose. */
  function Statement(conflict: seq<Resolver>, rows: seq<Row>, proposals: seq<Row>,
        target: seq<Column>): Option<seq<Row>> {
    Upsert(rows, proposals, target, Resolved(conflict, Written(proposals), proposals))
  }

  /** UpdateNewValues on a table, all the builders holding an identifier and a creation time: it succeeds exactly
      when no two of them propose one key and no added identifier is taken, and then every row that was there is
      refreshed or untouched and exactly the unmatched proposals are added. */
  lemma NewValuesExact(rows: seq<Row>, proposals: seq<Row>, target: seq<Column>)
    requires UniqueKeys(rows, target)
    requires SomeHas(proposals, Id) && SomeHas(proposals, CreatedAt)
    ensures var after := Statement([NewValues, KeepIdentity], rows, proposals, target);
      && (after.Some? <==> Distinct(proposals, target) && OwnIds(rows, Unmatched(rows, proposals, target)))
      && (after.Some? ==>
        && UniqueKeys(after.value, target)
        && Upserted(rows, after.value, proposals, target))
  {
    var columns := Written(proposals);
    var s := Resolved([NewValues, KeepIdentity], columns, proposals);
    forall c ensures (c in s <==> c in columns) && (c in s ==> !s[c].Fixed?) {
      NewValuesAt(columns, proposals, c);
    }
    NewValuesAt(columns, proposals, Id);
    UpsertSucceedsIff(rows, proposals, target, s);
    var after := Upsert(rows, proposals, target, s);
    if after.Some? {
      UpsertExact(rows, proposals, target, s);
      UpsertKeepsUnique(rows, proposals, target, s);
      forall i | 0 <= i < |rows| ensures Refreshed(rows[i], after.value[i], proposals, target, columns) {
        RowRefreshed(rows[i], proposals, target, columns);
      }
    }
  }

  /** The columns of a batch INSERT: whatever some builder sets. */
  function Written(rows: seq<Row>): set<Column> {
    set k, c | 0 <= k < |rows| && c in rows[k] :: c
  }

  /** The clock and the generator that defaults() consults. */
  datatype Fresh = Fresh(id: Uuid, now: int)

  function Gap(row: Row, c: Column, v: Value): Row {
    if c in row then row else row[c := v]
  }

  function Filled(row: Row, f: Fresh): Row {
    Gap(Gap(Gap(Gap(row, Quantity, IntV(1)), CreatedAt, TimeV(f.now)), UpdatedAt, TimeV(f.now)), Id, UuidV(f.id))
  }

  /** What defaults() may do: fill four gaps, the quantity with one, and override nothing. */
  predicate Defaulted(before: Row, now: Row) {
    && now.Keys == before.Keys + {Id, CreatedAt, UpdatedAt, Quantity}
    && (forall c :: c in before ==> At(now, c) == At(before, c))
    && (Quantity !in before ==> At(now, Quantity) == Some(IntV(1)))
  }

  /** The gaps, column by column: one piece, the present time twice, a new identifier. */
  lemma FilledColumns(row: Row, f: Fresh)
    ensures Defaulted(row, Filled(row, f))
    ensures forall c :: c in {CreatedAt, UpdatedAt} && c !in row ==> At(Filled(row, f), c) == Some(TimeV(f.now))
    ensures Id !in row ==> At(Filled(row, f), Id) == Some(UuidV(f.id))
  {
  }

  lemma DefaultedTwice(a: Row, b: Row, c: Row)
    requires (Defaulted(a, b) || a == b) && Defaulted(b, c)
    ensures Defaulted(a, c)
  {
    forall k | k in a ensures At(c, k) == At(a, k) {
      assert k in b;
    }
  }

  class CartItemCreate {
    var mutation: Row

    constructor (mutation: Row)
      ensures this.mutation == mutation
    {
      this.mutation := mutation;
    }

    method Defaults(f: Fresh)
      modifies this
      ensures mutation == Filled(old(mutation), f) && Defaulted(old(mutation), mutation)
    {
      if Quantity !in mutation { mutation := mutation[Quantity := IntV(1)]; }
      if CreatedAt !in mutation { mutation := mutation[CreatedAt := TimeV(f.now)]; }
      if UpdatedAt !in mutation { mutation := mutation[UpdatedAt := TimeV(f.now)]; }
      if Id !in mutation { mutation := mutation[Id := UuidV(f.id)]; }
    }
  }

  /** What the builders hold now. */
  function Drafts(builders: seq<CartItemCreate>): (rows: seq<Row>)
    reads builders
    ensures |rows| == |builders| && forall i :: 0 <= i < |rows| ==> rows[i] == builders[i].mutation
  {
    if builders == [] then [] else Drafts(builders[..|builders| - 1]) + [builders[|builders| - 1].mutation]
  }

  /** Each builder's defaults, from its own stamp. */
  function FilledDrafts(rows: seq<Row>, stamps: seq<Fresh>): (r: seq<Row>)
    requires |stamps| == |rows|
    ensures |r| == |rows|
  {
    seq(|rows|, j requires 0 <= j < |rows| => Filled(rows[j], stamps[j]))
  }

  /** sql.UpdateSet: the columns of the INSERT and the assignments so far; a later one replaces an earlier. */
  class UpdateSet {
    const columns: set<Column>
    var chosen: Assignments

    constructor (columns: set<Column>)
      ensures this.columns == columns && chosen == map[]
    {
      this.columns, chosen := columns, map[];
    }

    /** ResolveWithNewValues and ResolveWithIgnore: every column to the same kind of source. */
    method SetAll(source: Source)
      modifies this
      ensures chosen == old(chosen) + map c | c in columns :: source
    {
      var rest := columns;
      while rest != {}
        invariant rest <= columns
        invariant chosen == old(chosen) + map c | c in columns - rest :: source
        decreases |rest|
      {
        var c :| c in rest;
        chosen, rest := chosen[c := source], rest - {c};
      }
      assert columns - rest == columns;
    }

    /** UpdateNewValues' second option, run when the statement is built. */
    method KeepIdentityOf(builders: seq<CartItemCreate>)
      modifies this
      ensures chosen == Apply(KeepIdentity, columns, Drafts(builders), old(chosen))
    {
      ghost var rows := Drafts(builders);
      for i := 0 to |builders|
        invariant chosen == old(chosen) + Identity(rows[..i])
      {
        IdentityStep(old(chosen), rows, i);
        KeepIdentityOfOne(builders[i].mutation);
      }
      assert rows[..|builders|] == rows;
    }

    method KeepIdentityOfOne(row: Row)
      modifies this
      ensures chosen == old(chosen) + Identity([row])
    {
      assert SomeHas([row], Id) <==> Id in row by { assert [row][0] == row; }
      assert SomeHas([row], CreatedAt) <==> CreatedAt in row by { assert [row][0] == row; }
      if Id in row { chosen := chosen[Id := Kept]; }
      if CreatedAt in row { chosen := chosen[CreatedAt := Kept]; }
    }
  }

  lemma IdentityStep(was: Assignments, rows: seq<Row>, i: nat)
    requires i < |rows|
    ensures was + Identity(rows[..i + 1]) == was + Identity(rows[..i]) + Identity([rows[i]])
  {
    forall c ensures SomeHas(rows[..i + 1], c) <==> SomeHas(rows[..i], c) || SomeHas([rows[i]], c) {
      var more := rows[..i + 1];
      assert more[i] == [rows[i]][0] && forall k :: 0 <= k < i ==> more[k] == rows[..i][k];
      if SomeHas(rows[..i], c) {
        var k :| 0 <= k < i && c in rows[..i][k];
        assert c in more[k];
      }
    }
  }

  /** A statement that gives `after`, if anything, went through, or was refused and changed nothing. */
  predicate Ran(refuses: seq<Row> -> bool, before: seq<Row>, now: seq<Row>, ok: bool, after: Option<seq<Row>>) {
    && (ok <==> after.Some? && !refuses(after.value))
    && now == if ok then after.value else before
  }

  /** UpdateNewValues on a table: all of it or nothing; it fails only on a key proposed twice, on an identifier that is
      taken, or when another constraint refuses the table that the statement would leave. */
  ghost predicate NewValuesRan(refuses: seq<Row> -> bool, before: seq<Row>, now: seq<Row>, ok: bool, proposals: seq<Row>,
        target: seq<Column>)
  {
    if ok then Distinct(proposals, target) && Upserted(before, now, proposals, target)
    else
      && now == before
      && (Distinct(proposals, target) && OwnIds(before, Unmatched(before, proposals, target)) ==>
            var after := Statement([NewValues, KeepIdentity], before, proposals, target);
            after.Some? && refuses(after.value))
  }

  lemma RanNewValues(refuses: seq<Row> -> bool, before: seq<Row>, now: seq<Row>, ok: bool, proposals: seq<Row>,
        target: seq<Column>)
    requires UniqueKeys(before, target) && SomeHas(proposals, Id) && SomeHas(proposals, CreatedAt)
    requires Ran(refuses, before, now, ok, Statement([NewValues, KeepIdentity], before, proposals, target))
    ensures UniqueKeys(now, target) && NewValuesRan(refuses, before, now, ok, proposals, target)
  {
    NewValuesExact(before, proposals, target);
  }

  /** The table behind one unique conflict target; `refuses` stands for every other constraint. */
  class ItemTable {
    var rows: seq<Row>
    const target: seq<Column>
    const refuses: seq<Row> -> bool

    constructor (target: seq<Column>, refuses: seq<Row> -> bool)
      ensures rows == [] && this.target == target && this.refuses == refuses && Valid()
    {
      rows, this.target, this.refuses := [], target, refuses;
    }

    ghost predicate Valid() reads this { UniqueKeys(rows, target) }

    method Execute(proposals: seq<Row>, s: Assignments) returns (ok: bool)
      modifies this
      ensures Ran(refuses, old(rows), rows, ok, Upsert(old(rows), proposals, target, s))
    {
      var after := Upsert(rows, proposals, target, s);
      ok := after.Some? && !refuses(after.value);
      if ok { rows := after.value; }
    }
  }

  class UpsertBulk {
    const builders: seq<CartItemCreate>
    var conflict: seq<Resolver>

    constructor (builders: seq<CartItemCreate>)
      ensures this.builders == builders && conflict == []
    {
      this.builders, conflict := builders, [];
    }

    method UpdateNewValues()
      modifies this
      ensures conflict == old(conflict) + [NewValues, KeepIdentity]
    {
      conflict := conflict + [NewValues];
      conflict := conflict + [KeepIdentity];
    }

    method Ignore()
      modifies this
      ensures conflict == old(conflict) + [IgnoreAll]
    {
      conflict := conflict + [IgnoreAll];
    }

    method Update(c: Column, cell: Cell)
      modifies this
      ensures conflict == old(conflict) + [Assign(c, cell)]
    {
      conflict := conflict + [Assign(c, cell)];
    }

    /** Running the options over the columns of the statement. */
    method Resolve(columns: set<Column>) returns (chosen: Assignments)
      ensures chosen == Resolved(conflict, columns, old(Drafts(builders)))
    {
      var u := new UpdateSet(columns);
      for i := 0 to |conflict|
        invariant u.chosen == Resolved(conflict[..i], columns, Drafts(builders))
      {
        assert conflict[..i + 1][..i] == conflict[..i];
        match conflict[i] {
          case NewValues => u.SetAll(Excluded);
          case IgnoreAll => u.SetAll(Kept);
          case KeepIdentity => u.KeepIdentityOf(builders);
          case Assign(c, cell) => u.chosen := u.chosen[c := Fixed(cell)];
        }
      }
      assert conflict[..|conflict|] == conflict;
      chosen := u.chosen;
    }

    /** defaults() of every builder, in order. */
    method FillAll(stamps: seq<Fresh>)
      requires |stamps| == |builders|
      modifies builders
      ensures forall b :: b in builders ==> Defaulted(old(b.mutation), b.mutation)
      ensures NoDup(builders) ==> Drafts(builders) == FilledDrafts(old(Drafts(builders)), stamps)
    {
      for i := 0 to |builders|
        invariant NoDup(builders) ==>
          forall j :: 0 <= j < |builders| ==>
            builders[j].mutation == if j < i then Filled(old(builders[j].mutation), stamps[j]) else old(builders[j].mutation)
        invariant forall b :: b in builders ==> Defaulted(old(b.mutation), b.mutation) || b.mutation == old(b.mutation)
        invariant forall j :: 0 <= j < i ==> Defaulted(old(builders[j].mutation), builders[j].mutation)
      {
        var was := builders[i].mutation;
        builders[i].Defaults(stamps[i]);
        DefaultedTwice(old(builders[i].mutation), was, builders[i].mutation);
      }
    }

    /** Save without hooks: defaults, then one statement whose options are resolved with the defaults in place. */
    method Save(stamps: seq<Fresh>, table: ItemTable) returns (ok: bool)
      requires |stamps| == |builders| > 0
      modifies builders, table
      ensures forall b :: b in builders ==> Defaulted(old(b.mutation), b.mutation)
      ensures Ran(table.refuses, old(table.rows), table.rows, ok, Statement(conflict, old(table.rows), Drafts(builders), table.target))
    {
      FillAll(stamps);
      var rows := Drafts(builders);
      var s := Resolve(Written(rows));
      ok := table.Execute(rows, s);
      assert Drafts(builders) == rows;
    }

    /** UpdateNewValues and Save, for one builder or any batch. */
    method SaveNewValues(stamps: seq<Fresh>, table: ItemTable) returns (ok: bool)
      requires |stamps| == |builders| > 0 && table.Valid() && conflict == []
      modifies this, builders, table
      ensures table.Valid()
      ensures forall b :: b in builders ==> Defaulted(old(b.mutation), b.mutation)
      ensures NewValuesRan(table.refuses, old(table.rows), table.rows, ok, Drafts(builders), table.target)
    {
      UpdateNewValues();
      assert conflict == [NewValues, KeepIdentity];
      ok := Save(stamps, table);
      ghost var rows := Drafts(builders);
      assert SomeHas(rows, Id) && SomeHas(rows, CreatedAt) by {
        assert builders[0] in builders && rows[0] == builders[0].mutation;
      }
      RanNewValues(table.refuses, old(table.rows), table.rows, ok, rows, table.target);
    }
  }
}
