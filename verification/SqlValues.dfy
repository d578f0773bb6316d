/** Column values, and the holders database/sql scans them into. */
module SqlValues {
  import opened Base

  datatype SqlType = UuidT | TextT | FloatT | IntT | TimeT | JsonT

  datatype Value = UuidV(u: Uuid) | TextV(s: string) | FloatV(f: real) | IntV(i: int) | TimeV(t: int) | JsonV(text: string)

  /** A stored value; None is NULL. */
  type Cell = Option<Value>

  function TypeOf(v: Value): SqlType {
    match v
    case UuidV(_) => UuidT
    case TextV(_) => TextT
    case FloatV(_) => FloatT
    case IntV(_) => IntT
    case TimeV(_) => TimeT
    case JsonV(_) => JsonT
  }

  /** *uuid.UUID, *sql.NullScanner over a UUID, the other sql.Null types, *[]byte and *sql.UnknownType. */
  datatype Holder =
    | UuidHolder(u: Uuid)
    | NullUuid(valid: bool, u: Uuid)
    | NullText(valid: bool, s: string)
    | NullFloat(valid: bool, f: real)
    | NullInt(valid: bool, i: int)
    | NullTime(valid: bool, t: int)
    | Bytes(text: string)
    | Unknown(cell: Cell)

  /** Rows.Scan of one column. */
  function Scan(h: Holder, cell: Cell): Result<Holder, string> {
    match h
    case UuidHolder(_) =>
      if cell.None? then Ok(h) else if cell.value.UuidV? then Ok(UuidHolder(cell.value.u)) else Err("scan uuid")
    case NullUuid(_, u) =>
      if cell.None? then Ok(NullUuid(false, u)) else if cell.value.UuidV? then Ok(NullUuid(true, cell.value.u)) else Err("scan uuid")
    case NullText(_, _) =>
      if cell.None? then Ok(NullText(false, "")) else if cell.value.TextV? then Ok(NullText(true, cell.value.s)) else Err("scan string")
    case NullFloat(_, _) =>
      if cell.None? then Ok(NullFloat(false, 0.0)) else if cell.value.FloatV? then Ok(NullFloat(true, cell.value.f)) else Err("scan float")
    case NullInt(_, _) =>
      if cell.None? then Ok(NullInt(false, 0)) else if cell.value.IntV? then Ok(NullInt(true, cell.value.i)) else Err("scan int")
    case NullTime(_, _) =>
      if cell.None? then Ok(NullTime(false, 0)) else if cell.value.TimeV? then Ok(NullTime(true, cell.value.t)) else Err("scan time")
    case Bytes(_) =>
      if cell.None? then Ok(Bytes("")) else if cell.value.JsonV? then Ok(Bytes(cell.value.text)) else Err("scan bytes")
    case Unknown(_) => Ok(Unknown(cell))
  }

  /** The value a holder hands on, if any: an invalid null holder and empty bytes hand on nothing. */
  function Held(h: Holder): Cell {
    match h
    case UuidHolder(u) => Some(UuidV(u))
    case NullUuid(valid, u) => if valid then Some(UuidV(u)) else None
    case NullText(valid, s) => if valid then Some(TextV(s)) else None
    case NullFloat(valid, f) => if valid then Some(FloatV(f)) else None
    case NullInt(valid, i) => if valid then Some(IntV(i)) else None
    case NullTime(valid, t) => if valid then Some(TimeV(t)) else None
    case Bytes(text) => if text != "" then Some(JsonV(text)) else None
    case Unknown(_) => None
  }

  /** What a field of column c holds after the columns have been assigned from left to right. */
  function Latest<C(==)>(c: C, columns: seq<C>, values: seq<Holder>, was: Cell): Cell
    requires |columns| <= |values|
  {
    if columns == [] then was
    else
      var n := |columns| - 1;
      if columns[n] == c && Held(values[n]).Some? then Held(values[n])
      else Latest(c, columns[..n], values, was)
  }

  lemma {:induction false} LatestUniform<C>(c: C, columns: seq<C>, values: seq<Holder>, was: Cell, cell: Cell)
    requires |columns| <= |values|
    requires forall i :: 0 <= i < |columns| && columns[i] == c ==> Held(values[i]) == cell
    ensures Latest(c, columns, values, was) == if c in columns && cell.Some? then cell else was
  {
    if columns != [] {
      var n := |columns| - 1;
      assert columns == columns[..n] + [columns[n]];
      LatestUniform(c, columns[..n], values, was, cell);
    }
  }
}
