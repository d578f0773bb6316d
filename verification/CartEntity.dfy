/** The Cart entity (internal/ent/cart_create.go, cart.go): building a row and the returned node
    from a mutation, and reading rows back. */
module CartEntity {
  import opened Base
  import opened SqlValues

  /** The columns of carts. */
  datatype Column =
    | Id | TenantId | OutletId | UserId | SessionId | Status | Currency
    | Subtotal | DiscountTotal | TaxTotal | DeliveryFee | LoyaltyPointsRedeemed
    | PromoCodeId | ExpiresAt | CreatedAt | UpdatedAt

  /** A selected name: a column, or an alias for anything else. */
  datatype Selected = Plain(c: Column) | Alias(name: string)

  /** The declared types. */
  function ColumnType(c: Column): SqlType {
    match c
    case Id => UuidT
    case TenantId => UuidT
    case OutletId => UuidT
    case UserId => UuidT
    case PromoCodeId => UuidT
    case SessionId => TextT
    case Status => TextT
    case Currency => TextT
    case LoyaltyPointsRedeemed => IntT
    case ExpiresAt => TimeT
    case CreatedAt => TimeT
    case UpdatedAt => TimeT
    case _ => FloatT
  }

  /** Held by pointer in the node: NULL reads as nil. */
  predicate Nillable(c: Column) { c.UserId? || c.PromoCodeId? || c.ExpiresAt? }

  const ZERO := Uuid(0)

  function ZeroOf(t: SqlType): Value {
    match t
    case UuidT => UuidV(ZERO)
    case TextT => TextV("")
    case FloatT => FloatV(0.0)
    case IntT => IntV(0)
    case TimeT => TimeV(0)
    case JsonT => JsonV("")
  }

  /** How a stored cell shows in a node. */
  function Shown(c: Column, cell: Cell): Cell {
    if cell.None? && !Nillable(c) then Some(ZeroOf(ColumnType(c))) else cell
  }

  /** The cell may be stored in the column. */
  predicate Fits(c: Column, cell: Cell) {
    cell.None? || TypeOf(cell.value) == ColumnType(c)
  }

  /** The holder type that assignValues expects. */
  predicate Accepts(c: Column, h: Holder) {
    match ColumnType(c)
    case UuidT => if Nillable(c) then h.NullUuid? else h.UuidHolder?
    case TextT => h.NullText?
    case FloatT => h.NullFloat?
    case IntT => h.NullInt?
    case TimeT => h.NullTime?
    case JsonT => h.Bytes?
  }

  predicate Allowed(s: Selected, h: Holder) {
    s.Alias? || Accepts(s.c, h)
  }

  function Lift<T>(o: Option<T>, f: T -> Value): Cell { if o.Some? then Some(f(o.value)) else None }

  /** A row: the columns that are not NULL. */
  type Row = map<Column, Value>

  function At(row: Row, c: Column): Cell {
    if c in row then Some(row[c]) else None
  }

  lemma SameRow(a: Row, b: Row)
    requires forall c :: At(a, c) == At(b, c)
    ensures a == b
  {
    forall c ensures c in a <==> c in b {
      assert At(a, c) == At(b, c);
    }
    forall c | c in a ensures a[c] == b[c] {
      assert At(a, c) == At(b, c);
    }
  }

  class Cart {
    var id: Uuid
    var tenantId: Uuid
    var outletId: Uuid
    var userId: Option<Uuid>
    var sessionId: string
    var status: string
    var currency: string
    var subtotal: real
    var discountTotal: real
    var taxTotal: real
    var deliveryFee: real
    var loyaltyPointsRedeemed: int
    var promoCodeId: Option<Uuid>
    var expiresAt: Option<int>
    var createdAt: int
    var updatedAt: int
    var selectValues: map<string, Holder>

    constructor ()
      ensures forall c: Column :: Field(c) == Shown(c, None)
    {
      id, tenantId, outletId, userId := ZERO, ZERO, ZERO, None;
      sessionId, status, currency := "", "", "";
      subtotal, discountTotal, taxTotal, deliveryFee := 0.0, 0.0, 0.0, 0.0;
      loyaltyPointsRedeemed, promoCodeId, expiresAt, createdAt, updatedAt := 0, None, None, 0, 0;
      selectValues := map[];
    }

    /** The node as a row. */
    function Field(c: Column): Cell reads this {
      match c
      case Id => Some(UuidV(id))
      case TenantId => Some(UuidV(tenantId))
      case OutletId => Some(UuidV(outletId))
      case UserId => Lift(userId, u => UuidV(u))
      case SessionId => Some(TextV(sessionId))
      case Status => Some(TextV(status))
      case Currency => Some(TextV(currency))
      case Subtotal => Some(FloatV(subtotal))
      case DiscountTotal => Some(FloatV(discountTotal))
      case TaxTotal => Some(FloatV(taxTotal))
      case DeliveryFee => Some(FloatV(deliveryFee))
      case LoyaltyPointsRedeemed => Some(IntV(loyaltyPointsRedeemed))
      case PromoCodeId => Lift(promoCodeId, u => UuidV(u))
      case ExpiresAt => Lift(expiresAt, t => TimeV(t))
      case CreatedAt => Some(TimeV(createdAt))
      case UpdatedAt => Some(TimeV(updatedAt))
    }

    /** The node shows this row. */
    ghost predicate Shows(row: Row) reads this {
      forall c: Column :: Field(c) == Shown(c, At(row, c))
    }

    /** `_node.X = value` in createSpec. */
    method Put(c: Column, v: Value)
      requires TypeOf(v) == ColumnType(c)
      modifies this
      ensures forall d: Column :: Field(d) == if d == c then Some(v) else old(Field(d))
    {
      match c {
        case Id => id := v.u;
        case TenantId => tenantId := v.u;
        case OutletId => outletId := v.u;
        case UserId => userId := Some(v.u);
        case SessionId => sessionId := v.s;
        case Status => status := v.s;
        case Currency => currency := v.s;
        case Subtotal => subtotal := v.f;
        case DiscountTotal => discountTotal := v.f;
        case TaxTotal => taxTotal := v.f;
        case DeliveryFee => deliveryFee := v.f;
        case LoyaltyPointsRedeemed => loyaltyPointsRedeemed := v.i;
        case PromoCodeId => promoCodeId := Some(v.u);
        case ExpiresAt => expiresAt := Some(v.t);
        case CreatedAt => createdAt := v.t;
        case UpdatedAt => updatedAt := v.t;
      }
    }

    method AssignField(c: Column, value: Holder) returns (ok: bool)
      modifies this
      ensures ok <==> Accepts(c, value)
      ensures forall d: Column :: Field(d) == if ok && c == d && Held(value).Some? then Held(value) else old(Field(d))
    {
      ok := Accepts(c, value);
      match c {
        case Id => if value.UuidHolder? { id := value.u; }
        case TenantId => if value.UuidHolder? { tenantId := value.u; }
        case OutletId => if value.UuidHolder? { outletId := value.u; }
        case UserId => if value.NullUuid? && value.valid { userId := Some(value.u); }
        case SessionId => if value.NullText? && value.valid { sessionId := value.s; }
        case Status => if value.NullText? && value.valid { status := value.s; }
        case Currency => if value.NullText? && value.valid { currency := value.s; }
        case Subtotal => if value.NullFloat? && value.valid { subtotal := value.f; }
        case DiscountTotal => if value.NullFloat? && value.valid { discountTotal := value.f; }
        case TaxTotal => if value.NullFloat? && value.valid { taxTotal := value.f; }
        case DeliveryFee => if value.NullFloat? && value.valid { deliveryFee := value.f; }
        case LoyaltyPointsRedeemed => if value.NullInt? && value.valid { loyaltyPointsRedeemed := value.i; }
        case PromoCodeId => if value.NullUuid? && value.valid { promoCodeId := Some(value.u); }
        case ExpiresAt => if value.NullTime? && value.valid { expiresAt := Some(value.t); }
        case CreatedAt => if value.NullTime? && value.valid { createdAt := value.t; }
        case UpdatedAt => if value.NullTime? && value.valid { updatedAt := value.t; }
      }
    }

    /** assignValues for one column: refused on the wrong holder type; otherwise only this column's
        field changes, and only if the holder holds something. */
    method AssignColumn(s: Selected, value: Holder) returns (ok: bool)
      modifies this
      ensures ok <==> Allowed(s, value)
      ensures forall d: Column :: Field(d) == if ok && s == Plain(d) && Held(value).Some? then Held(value) else old(Field(d))
    {
      match s {
        case Alias(name) => selectValues := selectValues[name := value]; ok := true;
        case Plain(c) => ok := AssignField(c, value);
      }
    }

    /** assignValues: a type error stops it at the first column whose holder is of the wrong type. */
    method AssignValues(columns: seq<Selected>, values: array<Holder>) returns (ok: bool)
      modifies this
      ensures ok <==> |columns| <= values.Length && forall i :: 0 <= i < |columns| ==> Allowed(columns[i], values[i])
      ensures ok ==> forall c: Column :: Field(c) == Latest(Plain(c), columns, values[..], old(Field(c)))
    {
      if values.Length < |columns| { return false; }
      for n := 0 to |columns|
        invariant forall i :: 0 <= i < n ==> Allowed(columns[i], values[i])
        invariant forall c: Column :: Field(c) == Latest(Plain(c), columns[..n], values[..], old(Field(c)))
      {
        var matches := AssignColumn(columns[n], values[n]);
        if !matches { return false; }
        assert columns[..n + 1][..n] == columns[..n];
        assert columns[..n + 1][n] == columns[n] && values[..][n] == values[n];
      }
      assert columns[..|columns|] == columns;
      return true;
    }
  }

  /** What a holder made for the column hands on once the cell has been scanned into it: a NULL identifier
      leaves the zero one behind, every other NULL leaves nothing. */
  function Handed(c: Column, cell: Cell): Cell {
    if cell.None? && ColumnType(c).UuidT? && !Nillable(c) then Some(UuidV(ZERO)) else cell
  }

  /** A holder in which every cell the column can store survives the trip through Rows.Scan. */
  ghost predicate Carries(c: Column, h: Holder) {
    forall cell :: Fits(c, cell) ==>
      Scan(h, cell).Ok? && Accepts(c, Scan(h, cell).value) && Held(Scan(h, cell).value) == Handed(c, cell)
  }

  ghost predicate Ready(s: Selected, h: Holder) {
    match s
    case Plain(c) => Carries(c, h)
    case Alias(_) => h.Unknown?
  }

  /** The holder that scanValues makes for a column. */
  method HolderFor(c: Column) returns (h: Holder)
    ensures Carries(c, h)
  {
    match c {
      case UserId => h := NullUuid(false, ZERO);
      case PromoCodeId => h := NullUuid(false, ZERO);
      case Subtotal => h := NullFloat(false, 0.0);
      case DiscountTotal => h := NullFloat(false, 0.0);
      case TaxTotal => h := NullFloat(false, 0.0);
      case DeliveryFee => h := NullFloat(false, 0.0);
      case LoyaltyPointsRedeemed => h := NullInt(false, 0);
      case SessionId => h := NullText(false, "");
      case Status => h := NullText(false, "");
      case Currency => h := NullText(false, "");
      case ExpiresAt => h := NullTime(false, 0);
      case CreatedAt => h := NullTime(false, 0);
      case UpdatedAt => h := NullTime(false, 0);
      case Id => h := UuidHolder(ZERO);
      case TenantId => h := UuidHolder(ZERO);
      case OutletId => h := UuidHolder(ZERO);
    }
  }

  method ScanValues(columns: seq<Selected>) returns (values: array<Holder>)
    ensures fresh(values) && values.Length == |columns|
    ensures forall i :: 0 <= i < |columns| ==> Ready(columns[i], values[i])
  {
    values := new Holder[|columns|](_ => Unknown(None));
    for i := 0 to |columns|
      invariant forall k :: 0 <= k < i ==> Ready(columns[k], values[k])
      invariant forall k :: i <= k < |columns| ==> values[k].Unknown?
    {
      if columns[i].Plain? {
        values[i] := HolderFor(columns[i].c);
      }
    }
  }

  predicate Typed(row: Row) {
    forall c :: c in row ==> TypeOf(row[c]) == ColumnType(c)
  }

  /** The cell that a selected name shows: the row's, or whatever the alias stands for. */
  function Cells(row: Row, aliases: string -> Cell, s: Selected): Cell {
    match s
    case Plain(c) => At(row, c)
    case Alias(name) => aliases(name)
  }

  /** Rows.Scan: every cell goes into its holder. */
  method ScanRow(columns: seq<Selected>, row: Row, aliases: string -> Cell, values: array<Holder>) returns (ok: bool)
    requires Typed(row) && values.Length == |columns|
    requires forall i :: 0 <= i < |columns| ==> Ready(columns[i], values[i])
    modifies values
    ensures ok
    ensures forall i :: 0 <= i < |columns| ==> Allowed(columns[i], values[i])
    ensures forall i :: 0 <= i < |columns| && columns[i].Plain? ==>
              Held(values[i]) == Handed(columns[i].c, At(row, columns[i].c))
  {
    for n := 0 to |columns|
      invariant forall i :: n <= i < |columns| ==> Ready(columns[i], values[i])
      invariant forall i :: 0 <= i < n ==> Allowed(columns[i], values[i])
      invariant forall i :: 0 <= i < n && columns[i].Plain? ==>
                  Held(values[i]) == Handed(columns[i].c, At(row, columns[i].c))
    {
      if columns[n].Plain? {
        assert Fits(columns[n].c, At(row, columns[n].c));
      }
      var scanned := Scan(values[n], Cells(row, aliases, columns[n]));
      if scanned.Err? { return false; }
      values[n] := scanned.value;
    }
    return true;
  }

  /** One row of a query (sqlAll's ScanValues, Rows.Scan and Assign), whatever names were selected, in any
      order, with repeats and aliases: no type is refused, each selected column's field shows the row's
      cell, each other field keeps its zero value. */
  method ReadRow(columns: seq<Selected>, row: Row, aliases: string -> Cell) returns (node: Cart, ok: bool)
    requires Typed(row)
    ensures ok && fresh(node)
    ensures forall c: Column :: node.Field(c) == Shown(c, if Plain(c) in columns then At(row, c) else None)
  {
    node := new Cart();
    var values := ScanValues(columns);
    ok := ScanRow(columns, row, aliases, values);
    if !ok { return; }
    ok := node.AssignValues(columns, values);
    forall c: Column ensures node.Field(c) == Shown(c, if Plain(c) in columns then At(row, c) else None) {
      LatestUniform(Plain(c), columns, values[..], Shown(c, None), Handed(c, At(row, c)));
    }
  }
}
