/** Reading cart items back (internal/ent/cartitem.go): the same trip as a cart's, with two JSON columns, whose
    text is decoded into whatever the field already holds. */
module CartItemEntity {
  import opened Base
  import opened SqlValues

  datatype Column =
    | Id | CartId | InventorySku | VariantId | NameSnapshot | VariantNameSnapshot | Quantity
    | UnitPrice | TotalPrice | Notes | CreatedAt | UpdatedAt
    | Modifiers | Metadata

  /** A selected name: a column, or an alias for anything else. */
  datatype Selected = Plain(c: Column) | Alias(name: string)

  function ColumnType(c: Column): SqlType {
    match c
    case Id => UuidT
    case CartId => UuidT
    case InventorySku => TextT
    case VariantId => UuidT
    case NameSnapshot => TextT
    case VariantNameSnapshot => TextT
    case Quantity => IntT
    case UnitPrice => FloatT
    case TotalPrice => FloatT
    case Notes => TextT
    case CreatedAt => TimeT
    case UpdatedAt => TimeT
    case Modifiers => JsonT
    case Metadata => JsonT
  }

  predicate IsJson(c: Column) { c == Modifiers || c == Metadata }

  /** A decoded document; only its identity matters. */
  datatype Json = Nil | Document(content: nat)

  /** encoding/json: Unmarshal decodes into a value that may hold something already. */
  datatype Codec = Codec(encode: Json -> string, decode: (string, Json) -> Result<Json, string>)

  /** Decoding an encoded document gives it back, into an empty field or one that holds it. */
  ghost predicate Lawful(codec: Codec) {
    forall j :: codec.encode(j) != "" && codec.decode(codec.encode(j), Nil) == Ok(j) && codec.decode(codec.encode(j), j) == Ok(j)
  }

  const ZERO := Uuid(0)

  /** A row: the columns that are not NULL. */
  type Row = map<Column, Value>

  function At(row: Row, c: Column): Cell {
    if c in row then Some(row[c]) else None
  }

  predicate Typed(row: Row) {
    forall c :: c in row ==> TypeOf(row[c]) == ColumnType(c)
  }

  /** How a stored cell shows in a node: only the variant is held by pointer. */
  function Shown(c: Column, cell: Cell): Cell {
    if cell.Some? then cell
    else match ColumnType(c)
      case UuidT => if c == VariantId then None else Some(UuidV(ZERO))
      case TextT => Some(TextV(""))
      case FloatT => Some(FloatV(0.0))
      case IntT => Some(IntV(0))
      case TimeT => Some(TimeV(0))
      case JsonT => None
  }

  predicate Accepts(c: Column, h: Holder) {
    match ColumnType(c)
    case UuidT => if c == VariantId then h.NullUuid? else h.UuidHolder?
    case TextT => h.NullText?
    case FloatT => h.NullFloat?
    case IntT => h.NullInt?
    case TimeT => h.NullTime?
    case JsonT => h.Bytes?
  }

  predicate Allowed(s: Selected, h: Holder) {
    s.Alias? || Accepts(s.c, h)
  }

  /** What a JSON field holds after these columns have been assigned to it. */
  function Decoded(codec: Codec, c: Column, columns: seq<Selected>, values: seq<Holder>, was: Json): Result<Json,
        string>
    requires |columns| <= |values|
  {
    if columns == [] then Ok(was)
    else
      var n := |columns| - 1;
      var before := Decoded(codec, c, columns[..n], values, was);
      if before.Ok? && columns[n] == Plain(c) && values[n].Bytes? && values[n].text != ""
      then codec.decode(values[n].text, before.value) else before
  }

  /** However often a document's column is selected, the field ends up with the document. */
  lemma {:induction false} DecodedUniform(codec: Codec, c: Column, columns: seq<Selected>, values: seq<Holder>, j: Json)
    requires Lawful(codec) && |columns| <= |values|
    requires forall i :: 0 <= i < |columns| && columns[i] == Plain(c) ==> values[i] == Bytes(codec.encode(j))
    ensures Decoded(codec, c, columns, values, Nil) == Ok(if Plain(c) in columns then j else Nil)
  {
    if columns != [] {
      var n := |columns| - 1;
      assert columns == columns[..n] + [columns[n]];
      DecodedUniform(codec, c, columns[..n], values, j);
      assert codec.decode(codec.encode(j), Nil) == Ok(j) && codec.encode(j) != "";
    }
  }

  lemma {:induction false} DecodedNothing(codec: Codec, c: Column, columns: seq<Selected>, values: seq<Holder>)
    requires |columns| <= |values|
    requires forall i :: 0 <= i < |columns| && columns[i] == Plain(c) ==> values[i] == Bytes("")
    ensures Decoded(codec, c, columns, values, Nil) == Ok(Nil)
  {
    if columns != [] {
      DecodedNothing(codec, c, columns[..|columns| - 1], values);
    }
  }

  class CartItem {
    var id: Uuid
    var cartId: Uuid
    var inventorySku: string
    var variantId: Option<Uuid>
    var nameSnapshot: string
    var variantNameSnapshot: string
    var quantity: int
    var unitPrice: real
    var totalPrice: real
    var notes: string
    var createdAt: int
    var updatedAt: int
    var modifiers: Json
    var metadata: Json
    var selectValues: map<string, Holder>

    constructor ()
      ensures forall c: Column :: !IsJson(c) ==> Field(c) == Shown(c, None)
      ensures modifiers == metadata == Nil
    {
      id := ZERO;
      cartId := ZERO;
      inventorySku := "";
      variantId := None;
      nameSnapshot := "";
      variantNameSnapshot := "";
      quantity := 0;
      unitPrice := 0.0;
      totalPrice := 0.0;
      notes := "";
      createdAt := 0;
      updatedAt := 0;
      modifiers, metadata, selectValues := Nil, Nil, map[];
    }

    /** The node as a row; the JSON columns are elsewhere. */
    function Field(c: Column): Cell reads this {
      match c
      case Id => Some(UuidV(id))
      case CartId => Some(UuidV(cartId))
      case InventorySku => Some(TextV(inventorySku))
      case VariantId => if variantId.Some? then Some(UuidV(variantId.value)) else None
      case NameSnapshot => Some(TextV(nameSnapshot))
      case VariantNameSnapshot => Some(TextV(variantNameSnapshot))
      case Quantity => Some(IntV(quantity))
      case UnitPrice => Some(FloatV(unitPrice))
      case TotalPrice => Some(FloatV(totalPrice))
      case Notes => Some(TextV(notes))
      case CreatedAt => Some(TimeV(createdAt))
      case UpdatedAt => Some(TimeV(updatedAt))
      case _ => None
    }

    function Tree(c: Column): Json reads this {
      if c == Modifiers then modifiers else metadata
    }

    /** assignValues for one column that is not JSON. */
    method AssignField(c: Column, value: Holder) returns (ok: bool)
      requires !IsJson(c)
      modifies this
      ensures ok <==> Accepts(c, value)
      ensures forall d: Column :: Field(d) == if ok && c == d && Held(value).Some? then Held(value) else old(Field(d))
      ensures modifiers == old(modifiers) && metadata == old(metadata)
    {
      ok := Accepts(c, value);
      match c {
        case Id => if value.UuidHolder? { id := value.u; }
        case CartId => if value.UuidHolder? { cartId := value.u; }
        case InventorySku => if value.NullText? && value.valid { inventorySku := value.s; }
        case VariantId => if value.NullUuid? && value.valid { variantId := Some(value.u); }
        case NameSnapshot => if value.NullText? && value.valid { nameSnapshot := value.s; }
        case VariantNameSnapshot => if value.NullText? && value.valid { variantNameSnapshot := value.s; }
        case Quantity => if value.NullInt? && value.valid { quantity := value.i; }
        case UnitPrice => if value.NullFloat? && value.valid { unitPrice := value.f; }
        case TotalPrice => if value.NullFloat? && value.valid { totalPrice := value.f; }
        case Notes => if value.NullText? && value.valid { notes := value.s; }
        case CreatedAt => if value.NullTime? && value.valid { createdAt := value.t; }
        case UpdatedAt => if value.NullTime? && value.valid { updatedAt := value.t; }
      }
    }

    /** assignValues for one JSON column: no text leaves the field, other text is decoded into it. */
    method AssignJson(codec: Codec, c: Column, value: Holder) returns (ok: bool)
      requires IsJson(c)
      modifies this
      ensures ok <==> value.Bytes? && (value.text != "" ==> codec.decode(value.text, old(Tree(c))).Ok?)
      ensures forall d: Column :: Field(d) == old(Field(d))
      ensures forall d: Column :: IsJson(d) ==>
        Tree(d) == (if ok && d == c && value.text != "" then codec.decode(value.text, old(Tree(c))).value else old(Tree(d)))
    {
      if !value.Bytes? { return false; }
      if value.text == "" { return true; }
      var decoded := codec.decode(value.text, Tree(c));
      if decoded.Err? { return false; }
      if c == Modifiers { modifiers := decoded.value; } else { metadata := decoded.value; }
      return true;
    }

    method AssignColumn(codec: Codec, s: Selected, value: Holder) returns (ok: bool)
      modifies this
      ensures ok <==> Allowed(s, value) && (s.Plain? && IsJson(s.c) && value.text != "" ==> codec.decode(value.text, old(Tree(s.c))).Ok?)
      ensures ok ==> forall d: Column :: !IsJson(d) ==>
        Field(d) == (if s == Plain(d) && Held(value).Some? then Held(value) else old(Field(d)))
      ensures ok ==> forall d: Column :: IsJson(d) ==>
        Tree(d) == (if s == Plain(d) && value.text != "" then codec.decode(value.text, old(Tree(d))).value else old(Tree(d)))
    {
      match s {
        case Alias(name) => selectValues := selectValues[name := value]; ok := true;
        case Plain(c) =>
          if IsJson(c) {
            ok := AssignJson(codec, c, value);
          } else {
            ok := AssignField(c, value);
          }
      }
    }

    /** assignValues: it goes through exactly when there are enough holders, each of the right type, and every
        JSON text can be decoded into what its field holds by then. */
    method AssignValues(codec: Codec, columns: seq<Selected>, values: array<Holder>) returns (ok: bool)
      modifies this
      ensures ok <==>
        && |columns| <= values.Length
        && (forall i :: 0 <= i < |columns| ==> Allowed(columns[i], values[i]))
        && forall c: Column :: IsJson(c) ==> Decoded(codec, c, columns, values[..], old(Tree(c))).Ok?
      ensures ok ==> forall c: Column :: !IsJson(c) ==> Field(c) == Latest(Plain(c), columns, values[..], old(Field(c)))
      ensures ok ==> forall c: Column :: IsJson(c) ==> Ok(Tree(c)) == Decoded(codec, c, columns, values[..], old(Tree(c)))
    {
      if values.Length < |columns| { return false; }
      for n := 0 to |columns|
        invariant forall i :: 0 <= i < n ==> Allowed(columns[i], values[i])
        invariant forall c: Column :: !IsJson(c) ==> Field(c) == Latest(Plain(c), columns[..n], values[..], old(Field(c)))
        invariant forall c: Column :: IsJson(c) ==> Ok(Tree(c)) == Decoded(codec, c, columns[..n], values[..], old(Tree(c)))
      {
        assert columns[..n + 1][..n] == columns[..n];
        assert columns[..n + 1][n] == columns[n] && values[..][n] == values[n];
        var good := AssignColumn(codec, columns[n], values[n]);
        if !good {
          if Allowed(columns[n], values[n]) {
            StaysErr(codec, columns[n].c, columns, values[..], old(Tree(columns[n].c)), n + 1);
          }
          return false;
        }
      }
      assert columns[..|columns|] == columns;
      return true;
    }
  }

  /** Text that cannot be decoded is not forgotten. */
  lemma {:induction false} StaysErr(codec: Codec, c: Column, columns: seq<Selected>, values: seq<Holder>, was: Json,
        n: nat)
    requires n <= |columns| <= |values|
    ensures Decoded(codec, c, columns[..n], values, was).Err? ==> Decoded(codec, c, columns, values, was).Err?
    decreases |columns|
  {
    if n < |columns| {
      var shorter := columns[..|columns| - 1];
      StaysErr(codec, c, shorter, values, was, n);
      assert shorter[..n] == columns[..n];
    } else {
      assert columns[..n] == columns;
    }
  }

  /** What a holder made for the column hands on once the cell has been scanned into it. */
  function Handed(c: Column, cell: Cell): Cell {
    if cell.None? && ColumnType(c).UuidT? && c != VariantId then Some(UuidV(ZERO)) else cell
  }

  ghost predicate Carries(c: Column, h: Holder) {
    forall cell: Cell :: cell.None? || TypeOf(cell.value) == ColumnType(c) ==>
      && Scan(h, cell).Ok? && Accepts(c, Scan(h, cell).value)
      && (IsJson(c) ==> Scan(h, cell).value == Bytes(if cell.Some? then cell.value.text else ""))
      && (!IsJson(c) ==> Held(Scan(h, cell).value) == Handed(c, cell))
  }

  ghost predicate Ready(s: Selected, h: Holder) {
    match s
    case Plain(c) => Carries(c, h)
    case Alias(_) => h.Unknown?
  }

  /** The holder that scanValues makes for a column. */
  method HolderFor(c: Column) returns (h: Holder)
    ensures Carries(c, h)
  {
    match c {
      case VariantId => h := NullUuid(false, ZERO);
      case Modifiers => h := Bytes("");
      case Metadata => h := Bytes("");
      case UnitPrice => h := NullFloat(false, 0.0);
      case TotalPrice => h := NullFloat(false, 0.0);
      case Quantity => h := NullInt(false, 0);
      case InventorySku => h := NullText(false, "");
      case NameSnapshot => h := NullText(false, "");
      case VariantNameSnapshot => h := NullText(false, "");
      case Notes => h := NullText(false, "");
      case CreatedAt => h := NullTime(false, 0);
      case UpdatedAt => h := NullTime(false, 0);
      case Id => h := UuidHolder(ZERO);
      case CartId => h := UuidHolder(ZERO);
    }
  }

  method ScanValues(columns: seq<Selected>) returns (values: array<Holder>)
    ensures fresh(values) && values.Length == |columns|
    ensures forall i :: 0 <= i < |columns| ==> Ready(columns[i], values[i])
  {
    values := new Holder[|columns|](_ => Unknown(None));
    for i := 0 to |columns|
      invariant forall k :: 0 <= k < i ==> Ready(columns[k], values[k])
      invariant forall k :: i <= k < |columns| ==> values[k].Unknown?
    {
      if columns[i].Plain? {
        values[i] := HolderFor(columns[i].c);
      }
    }
  }

  /** What a column's holder holds once its row's cell is in it. */
  predicate Loaded(row: Row, c: Column, h: Holder) {
    && Accepts(c, h)
    && if IsJson(c) then h == Bytes(if At(row, c).Some? && row[c].JsonV? then row[c].text else "") else Held(h) == Handed(c, At(row, c))
  }

  /** Rows.Scan: every cell goes into its holder. */
  method ScanRow(columns: seq<Selected>, row: Row, aliases: string -> Cell, values: array<Holder>) returns (ok: bool)
    requires Typed(row) && values.Length == |columns|
    requires forall i :: 0 <= i < |columns| ==> Ready(columns[i], values[i])
    modifies values
    ensures ok
    ensures forall i :: 0 <= i < |columns| && columns[i].Plain? ==> Loaded(row, columns[i].c, values[i])
  {
    for n := 0 to |columns|
      invariant forall i :: n <= i < |columns| ==> Ready(columns[i], values[i])
      invariant forall i :: 0 <= i < n && columns[i].Plain? ==> Loaded(row, columns[i].c, values[i])
    {
      var cell := match columns[n] case Plain(c) => At(row, c) case Alias(name) => aliases(name);
      var scanned := Scan(values[n], cell);
      if scanned.Err? { return false; }
      values[n] := scanned.value;
    }
    return true;
  }

  /** The documents of a row: each JSON column is NULL or the encoding of its document. */
  ghost predicate Encodes(codec: Codec, row: Row, trees: Column -> Json) {
    forall c :: IsJson(c) ==> At(row, c) == Some(JsonV(codec.encode(trees(c)))) || (At(row, c) == None && trees(c) == Nil)
  }

  /** One row of a query, whatever names were selected, in any order, with repeats and aliases: no type is
      refused, every selected plain column shows its cell and every selected document is back. */
  method ReadRow(codec: Codec, columns: seq<Selected>, row: Row, aliases: string -> Cell, ghost trees: Column -> Json)
    returns (node: CartItem, ok: bool)
    requires Lawful(codec) && Typed(row) && Encodes(codec, row, trees)
    ensures ok && fresh(node)
    ensures forall c: Column :: !IsJson(c) ==> node.Field(c) == Shown(c, if Plain(c) in columns then At(row, c) else None)
    ensures forall c: Column :: IsJson(c) ==> node.Tree(c) == if Plain(c) in columns then trees(c) else Nil
  {
    node := new CartItem();
    var values := ScanValues(columns);
    ok := ScanRow(columns, row, aliases, values);
    if !ok { return; }
    forall c: Column | IsJson(c)
      ensures Decoded(codec, c, columns, values[..], Nil) == Ok(if Plain(c) in columns then trees(c) else Nil)
    {
      if At(row, c).Some? {
        DecodedUniform(codec, c, columns, values[..], trees(c));
      } else {
        DecodedNothing(codec, c, columns, values[..]);
      }
    }
    ok := node.AssignValues(codec, columns, values);
    forall c: Column | !IsJson(c)
      ensures node.Field(c) == Shown(c, if Plain(c) in columns then At(row, c) else None)
    {
      LatestUniform(Plain(c), columns, values[..], Shown(c, None), Handed(c, At(row, c)));
    }
  }
}
