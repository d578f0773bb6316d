/** Creating a cart (internal/ent/cart_create.go): defaults, checks, the spec with its edge-stored user, the
    insert, and reading the row back. */
module CartCreation {
  import opened Base
  import opened SqlValues
  import opened CartEntity

  /** What sqlgraph.CreateSpec carries: the identifier, the fields, and the two edges. */
  datatype Spec = Spec(id: Cell, fields: Row, users: seq<Value>, items: seq<Uuid>)

  /** The row that sqlgraph inserts: a many-to-one edge is the column user_id; the items' edge is none. */
  function Inserted(spec: Spec): Row {
    var withId := if spec.id.Some? then spec.fields[Id := spec.id.value] else spec.fields;
    if spec.users == [] then withId else withId[UserId := spec.users[0]]
  }

  /** The clock and the generator that defaults() consults. */
  datatype Fresh = Fresh(id: Uuid, now: int)

  /** The columns that the schema lets be NULL. */
  predicate Nullable(c: Column) { c.UserId? || c.SessionId? || c.PromoCodeId? || c.ExpiresAt? }

  predicate HasDefault(c: Column) { !Nullable(c) && c != TenantId && c != OutletId }

  /** The value defaults() puts in a column left unset. */
  function Default(c: Column, f: Fresh): Value {
    match c
    case Id => UuidV(f.id)
    case Status => TextV("active")
    case Currency => TextV("KES")
    case LoyaltyPointsRedeemed => IntV(0)
    case CreatedAt => TimeV(f.now)
    case UpdatedAt => TimeV(f.now)
    case _ => FloatV(0.0)
  }

  /** The gaps in these columns are filled; nothing set is overridden. */
  function FilledIn(row: Row, f: Fresh, columns: set<Column>): Row {
    map c | c in row.Keys + columns :: if c in row then row[c] else Default(c, f)
  }

  /** Every gap that has a default is filled; nothing set is overridden. */
  function Filled(row: Row, f: Fresh): Row {
    map c: Column | c in row || HasDefault(c) :: if c in row then row[c] else Default(c, f)
  }

  /** A column that the caller leaves unset: an active cart in Kenyan shillings with zero amounts and points, a new
      identifier and the present time twice; the rest stays unset. */
  function Initially(c: Column, f: Fresh): Cell {
    match c
    case Id => Some(UuidV(f.id))
    case TenantId => None
    case OutletId => None
    case UserId => None
    case SessionId => None
    case Status => Some(TextV("active"))
    case Currency => Some(TextV("KES"))
    case Subtotal => Some(FloatV(0.0))
    case DiscountTotal => Some(FloatV(0.0))
    case TaxTotal => Some(FloatV(0.0))
    case DeliveryFee => Some(FloatV(0.0))
    case LoyaltyPointsRedeemed => Some(IntV(0))
    case PromoCodeId => None
    case ExpiresAt => None
    case CreatedAt => Some(TimeV(f.now))
    case UpdatedAt => Some(TimeV(f.now))
  }

  lemma FilledColumns(row: Row, f: Fresh)
    ensures forall c: Column :: At(Filled(row, f), c) == if c in row then At(row, c) else Initially(c, f)
  {
    forall c: Column ensures HasDefault(c) <==> Initially(c, f).Some? {
    }
    forall c: Column | HasDefault(c) ensures Initially(c, f) == Some(Default(c, f)) {
    }
  }

  lemma AllFilled(row: Row, f: Fresh, columns: set<Column>)
    requires forall c :: c in columns <==> HasDefault(c)
    ensures FilledIn(row, f, columns) == Filled(row, f)
  {
  }

  const STATUSES := {"active", "checked_out", "abandoned", "expired"}

  /** How many bytes a character takes in UTF-8. */
  function CharBytes(c: char): nat {
    if c as int < 0x80 then 1 else if c as int < 0x800 then 2 else if c as int < 0x10000 then 3 else 4
  }

  /** len() of a Go string. */
  function ByteLength(s: string): nat {
    if s == [] then 0 else CharBytes(s[0]) + ByteLength(s[1..])
  }

  function Pow2(n: nat): nat { if n == 0 then 1 else 2 * Pow2(n - 1) }

  /** The bits that n bytes of UTF-8 carry: seven in one byte, otherwise 7 - n in the first and six in each other. */
  function PayloadBits(n: nat): int { if n == 1 then 7 else (7 - n) + 6 * (n - 1) }

  /** A character takes the fewest bytes that can carry it. */
  lemma FewestBytes(c: char)
    ensures 1 <= CharBytes(c) <= 4 && c as int < Pow2(PayloadBits(CharBytes(c)))
    ensures forall n :: 1 <= n < CharBytes(c) ==> Pow2(PayloadBits(n)) <= c as int
  {
    assert Pow2(7) == 0x80;
    assert Pow2(11) == 0x10 * Pow2(7);
    assert Pow2(16) == 0x20 * Pow2(11);
    assert Pow2(21) == 0x20 * Pow2(16);
  }

  predicate StatusValidator(s: string) { s == "active" || s == "checked_out" || s == "abandoned" || s == "expired" }

  /** What a caller has to have set, and how long or which the texts may be. */
  predicate Acceptable(row: Row)
    requires Typed(row)
  {
    && TenantId in row && OutletId in row
    && (SessionId in row ==> ByteLength(row[SessionId].s) <= 255)
    && (Status in row ==> row[Status].s in STATUSES)
    && (Currency in row ==> ByteLength(row[Currency].s) <= 3)
  }

  /** Whether the check of this column fails. */
  predicate Faulty(row: Row, c: Column)
    requires Typed(row)
  {
    match c
    case SessionId => c in row && ByteLength(row[c].s) > 255
    case Status => c !in row || row[c].s !in STATUSES
    case Currency => c !in row || ByteLength(row[c].s) > 3
    case _ => c != Id && !Nullable(c) && c !in row
  }

  /** The order in which the columns are checked. */
  function Turn(c: Column): nat {
    match c
    case TenantId => 0
    case OutletId => 1
    case SessionId => 2
    case Status => 3
    case Currency => 4
    case Subtotal => 5
    case DiscountTotal => 6
    case TaxTotal => 7
    case DeliveryFee => 8
    case LoyaltyPointsRedeemed => 9
    case CreatedAt => 10
    case UpdatedAt => 11
    case _ => 12
  }

  /** The verdict on the checks from one turn to another: the first faulty column, or none. */
  ghost predicate Verdict(row: Row, from: nat, to: nat, bad: Option<Column>)
    requires Typed(row)
  {
    match bad
    case None => forall c :: from <= Turn(c) < to ==> !Faulty(row, c)
    case Some(first) =>
      from <= Turn(first) < to && Faulty(row, first) && forall c :: from <= Turn(c) < Turn(first) ==> !Faulty(row, c)
  }

  /** A row is faultless exactly when its texts are within their limits and there is a value wherever the schema
      forbids NULL (the identifier is the table's to miss). */
  lemma FaultlessIff(row: Row)
    requires Typed(row)
    ensures Verdict(row, 0, 12, None) <==>
            && {TenantId, OutletId, Status, Currency, Subtotal, DiscountTotal, TaxTotal, DeliveryFee,
                LoyaltyPointsRedeemed, CreatedAt, UpdatedAt} <= row.Keys
            && (SessionId in row ==> ByteLength(row[SessionId].s) <= 255) && ByteLength(row[Currency].s) <= 3
            && row[Status].s in {"active", "checked_out", "abandoned", "expired"}
    ensures Verdict(row, 0, 12, None) <==> Acceptable(row) && forall c :: !Nullable(c) && c != Id ==> c in row
  {
    if Verdict(row, 0, 12, None) {
      forall c | !Nullable(c) && c != Id ensures c in row {
        assert 0 <= Turn(c) < 12;
        assert !Faulty(row, c);
      }
      assert !Faulty(row, SessionId) && !Faulty(row, Status) && !Faulty(row, Currency);
    }
    assert forall c :: !Nullable(c) && c != Id <==>
      c in {TenantId, OutletId, Status, Currency, Subtotal, DiscountTotal, TaxTotal, DeliveryFee, LoyaltyPointsRedeemed,
            CreatedAt, UpdatedAt};
  }

  lemma DefaultTyped(c: Column, f: Fresh)
    requires HasDefault(c)
    ensures TypeOf(Default(c, f)) == ColumnType(c)
  {
  }

  lemma FilledTyped(row: Row, f: Fresh)
    requires Typed(row)
    ensures Typed(Filled(row, f))
  {
    forall c | c in Filled(row, f) && c !in row ensures TypeOf(Filled(row, f)[c]) == ColumnType(c) {
      DefaultTyped(c, f);
    }
  }

  /** Defaults can be neither a reason to pass nor to fail the checks. */
  lemma FilledAcceptable(row: Row, f: Fresh)
    requires Typed(row) && Typed(Filled(row, f))
    ensures Acceptable(Filled(row, f)) <==> Acceptable(row)
  {
  }

  /** The carts table, by identifier; `refuses` stands for the foreign keys and the connection. */
  class Table {
    var rows: map<Value, Row>
    const refuses: Row -> bool

    constructor (refuses: Row -> bool)
      ensures rows == map[] && this.refuses == refuses
    {
      rows, this.refuses := map[], refuses;
    }

    predicate Takes(row: Row)
      reads this
    {
      Id in row && row[Id] !in rows && !refuses(row)
    }

    method CreateNode(spec: Spec) returns (ok: bool)
      modifies this
      ensures ok <==> old(Takes(Inserted(spec)))
      ensures rows == if ok then old(rows)[Inserted(spec)[Id] := Inserted(spec)] else old(rows)
    {
      var row := Inserted(spec);
      ok := Takes(row);
      if ok { rows := rows[row[Id] := row]; }
    }
  }

  /** These columns have been taken over into the fields. */
  ghost predicate Taken(row: Row, fields: Row, taken: set<Column>) {
    forall c: Column :: At(fields, c) == if c in taken then At(row, c) else None
  }

  /** The fourteen fields, the identifier and the user edge are all there is to a row. */
  lemma SpecRow(row: Row, fields: Row, items: seq<Uuid>)
    requires forall c: Column :: At(fields, c) == if c == Id || c == UserId then None else At(row, c)
    ensures Inserted(Spec(At(row, Id), fields, if UserId in row then [row[UserId]] else [], items)) == row
  {
    var inserted := Inserted(Spec(At(row, Id), fields, if UserId in row then [row[UserId]] else [], items));
    forall c: Column ensures At(inserted, c) == At(row, c) {
    }
    SameRow(inserted, row);
  }

  class CartCreate {
    /** What has been set, as a row (the user edge is column user_id), and the items, which are the other
        side's edge and no column. */
    var mutation: Row
    var items: seq<Uuid>
    var done: bool

    constructor (mutation: Row, items: seq<Uuid>)
      ensures this.mutation == mutation && this.items == items && !done
    {
      this.mutation, this.items, done := mutation, items, false;
    }

    /** `if _, ok := _c.mutation.X(); !ok { _c.mutation.SetX(v) }` */
    method FillGap(c: Column, v: Value, ghost was: Row, ghost f: Fresh, ghost filled: set<Column>)
      returns (ghost more: set<Column>)
      requires v == Default(c, f)
      requires mutation == FilledIn(was, f, filled)
      modifies this`mutation
      ensures mutation == FilledIn(was, f, more)
      ensures more == filled + {c}
    {
      if c !in mutation {
        mutation := mutation[c := v];
      }
      more := filled + {c};
      assert mutation == FilledIn(was, f, more);
    }

    method FillTexts(f: Fresh, ghost was: Row, ghost filled: set<Column>) returns (ghost more: set<Column>)
      requires mutation == FilledIn(was, f, filled)
      modifies this`mutation
      ensures mutation == FilledIn(was, f, more)
      ensures forall c :: c in more <==> c in filled || c == Status || c == Currency
    {
      more := filled;
      more := FillGap(Status, TextV("active"), was, f, more);
      more := FillGap(Currency, TextV("KES"), was, f, more);
    }

    method FillTotals(f: Fresh, ghost was: Row, ghost filled: set<Column>) returns (ghost more: set<Column>)
      requires mutation == FilledIn(was, f, filled)
      modifies this`mutation
      ensures mutation == FilledIn(was, f, more)
      ensures forall c :: c in more <==> c in filled || c == Subtotal || c == DiscountTotal || c == TaxTotal || c == DeliveryFee
    {
      more := filled;
      more := FillGap(Subtotal, FloatV(0.0), was, f, more);
      more := FillGap(DiscountTotal, FloatV(0.0), was, f, more);
      more := FillGap(TaxTotal, FloatV(0.0), was, f, more);
      more := FillGap(DeliveryFee, FloatV(0.0), was, f, more);
    }

    method FillRest(f: Fresh, ghost was: Row, ghost filled: set<Column>) returns (ghost more: set<Column>)
      requires mutation == FilledIn(was, f, filled)
      modifies this`mutation
      ensures mutation == FilledIn(was, f, more)
      ensures forall c :: c in more <==> c in filled || c == LoyaltyPointsRedeemed || c == CreatedAt || c == UpdatedAt || c == Id
    {
      more := filled;
      more := FillGap(LoyaltyPointsRedeemed, IntV(0), was, f, more);
      more := FillGap(CreatedAt, TimeV(f.now), was, f, more);
      more := FillGap(UpdatedAt, TimeV(f.now), was, f, more);
      more := FillGap(Id, UuidV(f.id), was, f, more);
    }

    method Defaults(f: Fresh)
      modifies this`mutation
      ensures mutation == Filled(old(mutation), f)
    {
      ghost var was := mutation;
      assert was == FilledIn(was, f, {});
      ghost var filled := FillTexts(f, was, {});
      filled := FillTotals(f, was, filled);
      filled := FillRest(f, was, filled);
      AllFilled(was, f, filled);
    }

    method CheckReferences() returns (bad: Option<Column>)
      requires Typed(mutation)
      ensures Verdict(mutation, 0, 2, bad)
    {
      if TenantId !in mutation { return Some(TenantId); }
      if OutletId !in mutation { return Some(OutletId); }
      return None;
    }

    method CheckTexts() returns (bad: Option<Column>)
      requires Typed(mutation)
      ensures Verdict(mutation, 2, 5, bad)
    {
      if SessionId in mutation && ByteLength(mutation[SessionId].s) > 255 { return Some(SessionId); }
      if Status !in mutation || !StatusValidator(mutation[Status].s) { return Some(Status); }
      if Currency !in mutation || ByteLength(mutation[Currency].s) > 3 { return Some(Currency); }
      return None;
    }

    method CheckTotals() returns (bad: Option<Column>)
      requires Typed(mutation)
      ensures Verdict(mutation, 5, 12, bad)
    {
      if Subtotal !in mutation { return Some(Subtotal); }
      if DiscountTotal !in mutation { return Some(DiscountTotal); }
      if TaxTotal !in mutation { return Some(TaxTotal); }
      if DeliveryFee !in mutation { return Some(DeliveryFee); }
      if LoyaltyPointsRedeemed !in mutation { return Some(LoyaltyPointsRedeemed); }
      if CreatedAt !in mutation { return Some(CreatedAt); }
      if UpdatedAt !in mutation { return Some(UpdatedAt); }
      return None;
    }

    /** The first column, in the order of the checks, that is missing or malformed. */
    method Check() returns (bad: Option<Column>)
      requires Typed(mutation)
      ensures Verdict(mutation, 0, 12, bad)
    {
      bad := CheckReferences();
      if bad.None? {
        bad := CheckTexts();
        if bad.None? {
          bad := CheckTotals();
        }
      }
    }

    /** These columns have been taken over into the fields and the node; the identifier is in the node. */
    ghost predicate Built(node: Cart, fields: Row, taken: set<Column>)
      reads this, node
    {
      && Taken(mutation, fields, taken)
      && forall c: Column :: node.Field(c) == Shown(c, if c == Id || c in taken then At(mutation, c) else None)
    }

    /** One `if value, ok := ...` block of createSpec: the column and the field of the node together. */
    method SetField(node: Cart, fields: Row, c: Column, ghost before: set<Column>)
      returns (more: Row, ghost taken: set<Column>)
      requires Typed(mutation) && c != Id
      requires Built(node, fields, before)
      modifies node
      ensures Built(node, more, taken)
      ensures taken == before + {c}
    {
      more, taken := fields, before + {c};
      if c in mutation {
        more := fields[c := mutation[c]];
        node.Put(c, mutation[c]);
      }
    }

    method SetReferences(node: Cart, fields: Row, ghost before: set<Column>)
      returns (more: Row, ghost taken: set<Column>)
      requires Typed(mutation) && Built(node, fields, before)
      modifies node
      ensures Built(node, more, taken)
      ensures forall c :: c in taken <==> c in before || c == TenantId || c == OutletId
    {
      more, taken := fields, before;
      more, taken := SetField(node, more, TenantId, taken);
      more, taken := SetField(node, more, OutletId, taken);
    }

    method SetTexts(node: Cart, fields: Row, ghost before: set<Column>) returns (more: Row, ghost taken: set<Column>)
      requires Typed(mutation) && Built(node, fields, before)
      modifies node
      ensures Built(node, more, taken)
      ensures forall c :: c in taken <==> c in before || c == SessionId || c == Status || c == Currency
    {
      more, taken := fields, before;
      more, taken := SetField(node, more, SessionId, taken);
      more, taken := SetField(node, more, Status, taken);
      more, taken := SetField(node, more, Currency, taken);
    }

    method SetAmounts(node: Cart, fields: Row, ghost before: set<Column>) returns (more: Row, ghost taken: set<Column>)
      requires Typed(mutation) && Built(node, fields, before)
      modifies node
      ensures Built(node, more, taken)
      ensures forall c :: c in taken <==> c in before || c == Subtotal || c == DiscountTotal || c == TaxTotal
    {
      more, taken := fields, before;
      more, taken := SetField(node, more, Subtotal, taken);
      more, taken := SetField(node, more, DiscountTotal, taken);
      more, taken := SetField(node, more, TaxTotal, taken);
    }

    method SetExtras(node: Cart, fields: Row, ghost before: set<Column>) returns (more: Row, ghost taken: set<Column>)
      requires Typed(mutation) && Built(node, fields, before)
      modifies node
      ensures Built(node, more, taken)
      ensures forall c :: c in taken <==> c in before || c == DeliveryFee || c == LoyaltyPointsRedeemed || c == PromoCodeId
    {
      more, taken := fields, before;
      more, taken := SetField(node, more, DeliveryFee, taken);
      more, taken := SetField(node, more, LoyaltyPointsRedeemed, taken);
      more, taken := SetField(node, more, PromoCodeId, taken);
    }

    method SetTimes(node: Cart, fields: Row, ghost before: set<Column>) returns (more: Row, ghost taken: set<Column>)
      requires Typed(mutation) && Built(node, fields, before)
      modifies node
      ensures Built(node, more, taken)
      ensures forall c :: c in taken <==> c in before || c == ExpiresAt || c == CreatedAt || c == UpdatedAt
    {
      more, taken := fields, before;
      more, taken := SetField(node, more, ExpiresAt, taken);
      more, taken := SetField(node, more, CreatedAt, taken);
      more, taken := SetField(node, more, UpdatedAt, taken);
    }

    method SetFields(node: Cart) returns (fields: Row)
      requires Typed(mutation) && Built(node, map[], {})
      modifies node
      ensures forall c: Column :: At(fields, c) == if c == Id || c == UserId then None else At(mutation, c)
      ensures forall c: Column :: node.Field(c) == Shown(c, if c == UserId then None else At(mutation, c))
    {
      ghost var taken;
      fields, taken := SetReferences(node, map[], {});
      fields, taken := SetTexts(node, fields, taken);
      fields, taken := SetAmounts(node, fields, taken);
      fields, taken := SetExtras(node, fields, taken);
      fields, taken := SetTimes(node, fields, taken);
    }

    /** The node and the row are the same data: whatever was set, and only that. */
    method CreateSpec() returns (node: Cart, spec: Spec)
      requires Typed(mutation)
      ensures fresh(node)
      ensures Inserted(spec) == mutation && spec.items == items
      ensures node.Shows(mutation)
    {
      node := new Cart();
      if Id in mutation { node.Put(Id, mutation[Id]); }
      var fields := SetFields(node);
      var users: seq<Value> := [];
      if UserId in mutation {
        node.Put(UserId, mutation[UserId]);
        users := [mutation[UserId]];
      }
      SpecRow(mutation, fields, items);
      spec := Spec(At(mutation, Id), fields, users, items);
    }

    /** Save with no hooks: all or nothing, and what comes back is what is stored. It succeeds exactly when
        the caller set what has no default, the texts are within their limits, and the table takes the row. */
    method Save(f: Fresh, table: Table) returns (node: Option<Cart>)
      requires Typed(mutation)
      modifies this, table
      ensures forall c: Column :: At(mutation, c) == if c in old(mutation) then old(At(mutation, c)) else Initially(c, f)
      ensures mutation == Filled(old(mutation), f) && Typed(mutation)
      ensures node.Some? <==> Acceptable(old(mutation)) && old(table.Takes(Filled(mutation, f)))
      ensures Id in mutation && (node.Some? <==>
        Acceptable(old(mutation)) && mutation[Id] !in old(table.rows) && !table.refuses(mutation))
      ensures node.None? ==> table.rows == old(table.rows) && done == old(done)
      ensures node.Some? ==>
        && fresh(node.value) && done && Id in mutation
        && table.rows == old(table.rows)[mutation[Id] := mutation]
        && node.value.Shows(mutation)
        && (forall c: Column :: !Nullable(c) ==> c in mutation)
    {
      FilledTyped(mutation, f);
      FilledColumns(mutation, f);
      FilledAcceptable(mutation, f);
      Defaults(f);
      FaultlessIff(mutation);
      var bad := Check();
      if bad.Some? { return None; }
      var created, spec := CreateSpec();
      var ok := table.CreateNode(spec);
      if !ok { return None; }
      done := true;
      return Some(created);
    }
  }

  /** Creating a cart and then reading its row back, whatever is selected along with it: every selected
      column agrees with the node that was returned, so a selection that covers the table reads that node. */
  method CreateThenRead(b: CartCreate, f: Fresh, table: Table, columns: seq<Selected>, aliases: string -> Cell)
    returns (created: Option<Cart>, read: Option<Cart>)
    requires Typed(b.mutation)
    modifies b, table
    ensures created.Some? <==> Acceptable(old(b.mutation)) && old(table.Takes(Filled(b.mutation, f)))
    ensures created.Some? ==> read.Some? && forall c: Column ::
      read.value.Field(c) == if Plain(c) in columns then created.value.Field(c) else Shown(c, None)
  {
    read := None;
    created := b.Save(f, table);
    if created.Some? {
      var node, ok := ReadRow(columns, table.rows[b.mutation[Id]], aliases);
      if ok { read := Some(node); }
    }
  }
}
