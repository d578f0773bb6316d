/** The cart query (internal/ent/cart_query.go): All with its edges, and First, Only and Exist, which narrow the
    query in place, so that it may give something else when it is used again. */
module CartQueries {
  import opened Base
  import opened EagerLoad

  // ---------------------------------------------------------------------------------------
  // What a query answers

  /** A query for the other side of an edge, as a value. */
  datatype Side<!T> = Side(keep: T -> bool, offset: nat, limit: Option<nat>, fields: seq<string>, lists: seq<set<Uuid>>)

  /** A cart query: its rows are those that its conditions and order select. */
  datatype Query = Query(offset: nat, limit: Option<nat>, fields: seq<string>,
                         items: Option<Side<ItemRow>>, users: Option<Side<Uuid>>)

  /** What a node shows: its row, its items' rows and the id of its user. */
  datatype Picture = Picture(row: CartRow, items: seq<ItemRow>, user: Option<Uuid>)

  function SideRows<T>(s: Side<T>, table: seq<T>, key: T -> Uuid): seq<T> {
    Window(Matching(table, s.keep, key, s.lists), s.offset, s.limit)
  }

  function ShownCarts(q: Query, rows: seq<CartRow>): (r: seq<CartRow>)
    ensures |r| == |Window(rows, q.offset, q.limit)|
  {
    var found := Window(rows, q.offset, q.limit);
    seq(|found|, k requires 0 <= k < |found| => ShownCart(q.fields, q.users.Some?, found[k]))
  }

  function CartKeys(shown: seq<CartRow>): set<Uuid> { set r | r in shown :: r.id }

  function UserKeys(shown: seq<CartRow>): set<Uuid> { set r | r in shown && r.userId.Some? :: r.userId.value }

  /** The item query after it served a load for these carts. */
  function ItemsServed(s: Side<ItemRow>, shown: seq<CartRow>): Side<ItemRow> {
    s.(fields := WithKey(s.fields), lists := s.lists + [CartKeys(shown)])
  }

  function UsersServed(s: Side<Uuid>, shown: seq<CartRow>): Side<Uuid> {
    if UserKeys(shown) == {} then s else s.(lists := s.lists + [UserKeys(shown)])
  }

  predicate LastAt(shown: seq<CartRow>, i: nat)
    requires i < |shown|
  {
    forall j :: i < j < |shown| ==> shown[j].id != shown[i].id
  }

  function ItemsShown(s: Option<Side<ItemRow>>, shown: seq<CartRow>, i: nat, table: seq<ItemRow>): seq<ItemRow>
    requires i < |shown|
  {
    if s.None? || !LastAt(shown, i) then []
    else
      var served := ItemsServed(s.value, shown);
      ItemsOf(ShownItems(served.fields, SideRows(served, table, CartOf)), shown[i].id)
  }

  function UserShown(s: Option<Side<Uuid>>, shown: seq<CartRow>, i: nat, table: seq<Uuid>): Option<Uuid>
    requires i < |shown|
  {
    if s.Some? && shown[i].userId.Some? && shown[i].userId.value in SideRows(UsersServed(s.value, shown), table, Same)
    then shown[i].userId else None
  }

  /** The nodes that All gives. */
  function Answer(q: Query, rows: seq<CartRow>, items: seq<ItemRow>, users: seq<Uuid>): (r: seq<Picture>)
    ensures |r| == |Window(rows, q.offset, q.limit)|
  {
    var shown := ShownCarts(q, rows);
    seq(|shown|, i requires 0 <= i < |shown| =>
      Picture(shown[i], ItemsShown(q.items, shown, i, items), UserShown(q.users, shown, i, users)))
  }

  /** The query as All leaves it: the queries of its edges keep the conditions of the load. */
  function Served(q: Query, rows: seq<CartRow>): Query {
    var shown := ShownCarts(q, rows);
    if shown == [] then q
    else q.(items := if q.items.Some? then Some(ItemsServed(q.items.value, shown)) else None,
            users := if q.users.Some? then Some(UsersServed(q.users.value, shown)) else None)
  }

  /** Node i of the answer is row i past the offset. */
  ghost predicate FromRow(q: Query, rows: seq<CartRow>, i: nat, shown: CartRow) {
    q.offset + i < |rows| && Shows(q, rows[q.offset + i], shown)
  }

  /** A node shows the id of its row, and of the other columns those that were selected, which is all if none was; the
      user key also when the user is loaded. */
  ghost predicate Shows(q: Query, row: CartRow, shown: CartRow) {
    && shown.id == row.id
    && shown.userId == (if q.fields == [] || "user_id" in q.fields || q.users.Some? then row.userId else None)
    && (forall c :: c in shown.rest <==> c in row.rest && (q.fields == [] || c in q.fields))
    && (forall c :: c in shown.rest ==> shown.rest[c] == row.rest[c])
  }

  /** How many nodes: as many rows as are left past the offset, cut to a limit above zero. */
  lemma AnswerRows(q: Query, rows: seq<CartRow>, items: seq<ItemRow>, users: seq<Uuid>)
    ensures var answer, left := Answer(q, rows, items, users), Count(q, rows);
            && |answer| == (if q.limit.Some? && 0 < q.limit.value < left then q.limit.value else left)
            && forall i :: 0 <= i < |answer| ==> FromRow(q, rows, i, answer[i].row)
  {
    WindowAt(rows, q.offset, q.limit);
    var found := Window(rows, q.offset, q.limit);
    forall i | 0 <= i < |found| ensures FromRow(q, rows, i, Answer(q, rows, items, users)[i].row) {
      CartColumns(q.fields, q.users.Some?, found[i]);
    }
  }

  /** A query for an edge that the caller left as it was made. */
  predicate Plain<T>(s: Side<T>) { s.offset == 0 && s.limit.None? && s.fields == [] && s.lists == [] }

  /** The edges of a node, when their queries restrict nothing but what the caller asked them to keep: an item is
      under the node exactly when it is kept and names the node's id, and no later node has the same id; the node has
      a user exactly when its row names one that is there and kept; and edges that were not asked for are empty. */
  lemma AnswerEdges(q: Query, rows: seq<CartRow>, items: seq<ItemRow>, users: seq<Uuid>, i: nat)
    requires i < |Answer(q, rows, items, users)|
    ensures var answer := Answer(q, rows, items, users);
            && (q.items.None? ==> answer[i].items == [])
            && (q.items.Some? && Plain(q.items.value) ==>
                 forall item :: item in answer[i].items <==>
                   && item in items && q.items.value.keep(item) && item.cartId == answer[i].row.id
                   && forall j :: i < j < |answer| ==> answer[j].row.id != answer[i].row.id)
            && (q.users.None? ==> answer[i].user.None?)
            && (q.users.Some? && Plain(q.users.value) ==>
                 answer[i].user ==
                 match answer[i].row.userId
                 case Some(u) => if u in users && q.users.value.keep(u) then Some(u) else None
                 case None => None)
  {
    var shown := ShownCarts(q, rows);
    if q.items.Some? && Plain(q.items.value) {
      PlainItems(q.items.value, shown, i, items);
      var answer := Answer(q, rows, items, users);
      assert forall j :: 0 <= j < |answer| ==> answer[j].row == shown[j];
      assert (forall j :: i < j < |answer| ==> answer[j].row.id != answer[i].row.id) <==>
             forall j :: i < j < |shown| ==> shown[j].id != shown[i].id;
    }
    if q.users.Some? && Plain(q.users.value) {
      PlainUser(q.users.value, shown, i, users);
    }
  }

  lemma PlainItems(s: Side<ItemRow>, shown: seq<CartRow>, i: nat, items: seq<ItemRow>)
    requires i < |shown| && Plain(s)
    ensures forall item :: item in ItemsShown(Some(s), shown, i, items) <==>
              && item in items && s.keep(item) && item.cartId == shown[i].id
              && forall j :: i < j < |shown| ==> shown[j].id != shown[i].id
  {
    var served := ItemsServed(s, shown);
    var rows := Matching(items, s.keep, CartOf, served.lists);
    MatchingIn(items, s.keep, CartOf, served.lists);
    assert served.lists == [CartKeys(shown)] && SideRows(served, items, CartOf) == rows;
    assert ShownItems([], rows) == rows by {
      forall k | 0 <= k < |rows| ensures ShownItem([], rows[k]) == rows[k] {
        assert Kept([], rows[k].rest) == rows[k].rest;
      }
    }
    forall item ensures item in ItemsOf(rows, shown[i].id) <==> item in rows && item.cartId == shown[i].id {
      ItemsOfHas(rows, shown[i].id, item);
    }
    assert shown[i] in shown && shown[i].id in CartKeys(shown);
    forall item ensures item in rows && item.cartId == shown[i].id <==>
                        item in items && s.keep(item) && item.cartId == shown[i].id {
      assert CartOf(item) == item.cartId;
    }
  }

  lemma PlainUser(s: Side<Uuid>, shown: seq<CartRow>, i: nat, users: seq<Uuid>)
    requires i < |shown| && Plain(s)
    ensures UserShown(Some(s), shown, i, users) ==
            match shown[i].userId
            case Some(u) => if u in users && s.keep(u) then Some(u) else None
            case None => None
  {
    var served := UsersServed(s, shown);
    MatchingIn(users, s.keep, Same, served.lists);
    if shown[i].userId.Some? {
      assert shown[i] in shown && shown[i].userId.value in UserKeys(shown);
      assert served.lists == [UserKeys(shown)];
    }
  }

  // ---------------------------------------------------------------------------------------
  // Using a query again

  /** How many rows the query's conditions select, past its offset. */
  function Count(q: Query, rows: seq<CartRow>): nat { if q.offset <= |rows| then |rows| - q.offset else 0 }

  /** A stored cart: its status is never empty, and the id is no other column. */
  predicate Stored(row: CartRow) { "status" in row.rest && "id" !in row.rest }

  /** Serving the same carts a second time makes no difference. */
  lemma ServedTwice(s: Side<ItemRow>, shown: seq<CartRow>, table: seq<ItemRow>)
    ensures var once, twice := ItemsServed(s, shown), ItemsServed(ItemsServed(s, shown), shown);
            once.fields == twice.fields && SideRows(once, table, CartOf) == SideRows(twice, table, CartOf)
  {
    MatchingTwice(table, s.keep, CartOf, s.lists, CartKeys(shown));
  }

  lemma UsersServedTwice(s: Side<Uuid>, shown: seq<CartRow>, table: seq<Uuid>)
    ensures SideRows(UsersServed(s, shown), table, Same) == SideRows(UsersServed(UsersServed(s, shown), shown), table, Same)
  {
    MatchingTwice(table, s.keep, Same, s.lists, UserKeys(shown));
  }

  /** A query that has served a load answers the same again. */
  lemma ServedAgain(q: Query, rows: seq<CartRow>, items: seq<ItemRow>, users: seq<Uuid>)
    ensures Answer(Served(q, rows), rows, items, users) == Answer(q, rows, items, users)
  {
    var shown := ShownCarts(q, rows);
    var again := Served(q, rows);
    assert ShownCarts(again, rows) == shown;
    if shown != [] {
      if q.items.Some? { ServedTwice(q.items.value, shown, items); }
      if q.users.Some? { UsersServedTwice(q.users.value, shown, users); }
    }
    forall i | 0 <= i < |shown|
      ensures ItemsShown(again.items, shown, i, items) == ItemsShown(q.items, shown, i, items)
      ensures UserShown(again.users, shown, i, users) == UserShown(q.users, shown, i, users)
    {
    }
  }

  /** After a use that limits the query to k rows and loads its edges, All answers as before exactly when the two
      limits let the same number of rows through. */
  lemma LimitedAgreesIff(q: Query, k: nat, rows: seq<CartRow>, items: seq<ItemRow>, users: seq<Uuid>)
    requires k > 0
    ensures Answer(Served(q.(limit := Some(k)), rows), rows, items, users) == Answer(q, rows, items, users) <==>
            |Window(rows, q.offset, Some(k))| == |Window(rows, q.offset, q.limit)|
  {
    var limited := q.(limit := Some(k));
    if |Window(rows, q.offset, Some(k))| == |Window(rows, q.offset, q.limit)| {
      assert Window(rows, q.offset, Some(k)) == Window(rows, q.offset, q.limit);
      assert ShownCarts(limited, rows) == ShownCarts(q, rows);
      ServedAgain(limited, rows, items, users);
      forall i | 0 <= i < |ShownCarts(q, rows)|
        ensures Answer(limited, rows, items, users)[i] == Answer(q, rows, items, users)[i]
      {
      }
    }
  }

  lemma FirstAgreesIff(q: Query, rows: seq<CartRow>, items: seq<ItemRow>, users: seq<Uuid>)
    ensures Answer(Served(q.(limit := Some(1)), rows), rows, items, users) == Answer(q, rows, items, users) <==>
            Count(q, rows) <= 1 || q.limit == Some(1)
  {
    LimitedAgreesIff(q, 1, rows, items, users);
  }

  lemma OnlyAgreesIff(q: Query, rows: seq<CartRow>, items: seq<ItemRow>, users: seq<Uuid>)
    ensures Answer(Served(q.(limit := Some(2)), rows), rows, items, users) == Answer(q, rows, items, users) <==>
            Count(q, rows) <= 1 || q.limit == Some(2) || (Count(q, rows) == 2 && q.limit != Some(1))
  {
    LimitedAgreesIff(q, 2, rows, items, users);
  }

  /** The query as Exist leaves it. */
  function Checked(q: Query): Query { q.(limit := Some(1), fields := q.fields + ["id"]) }

  /** After Exist, All answers as before exactly when at most one row is there or the limit was one already, and,
      if there is a row, some columns had been selected: otherwise only its id is left of it. */
  lemma ExistAgreesIff(q: Query, rows: seq<CartRow>, items: seq<ItemRow>, users: seq<Uuid>)
    requires forall r :: r in rows ==> Stored(r)
    ensures Answer(Checked(q), rows, items, users) == Answer(q, rows, items, users) <==>
            (Count(q, rows) <= 1 || q.limit == Some(1)) && (Count(q, rows) == 0 || q.fields != [])
  {
    var after := Checked(q);
    var found, was := Window(rows, q.offset, Some(1)), Window(rows, q.offset, q.limit);
    WindowIn(rows, q.offset, q.limit);
    if |found| == |was| {
      assert found == was;
      forall k | 0 <= k < |found|
        ensures ShownCart(after.fields, q.users.Some?, found[k]) == ShownCart(q.fields, q.users.Some?, found[k]) <==>
                q.fields != []
      {
        assert found[k] in rows;
        IdSelected(q.fields, q.users.Some?, found[k]);
      }
      if q.fields != [] || found == [] {
        assert ShownCarts(after, rows) == ShownCarts(q, rows);
        forall i | 0 <= i < |found| ensures Answer(after, rows, items, users)[i] == Answer(q, rows, items, users)[i] {
        }
      } else {
        assert Answer(after, rows, items, users)[0].row != Answer(q, rows, items, users)[0].row;
      }
    }
  }

  /** Selecting the id as well changes a node exactly when nothing had been selected. */
  lemma IdSelected(fields: seq<string>, withUser: bool, row: CartRow)
    requires Stored(row)
    ensures ShownCart(fields + ["id"], withUser, row) == ShownCart(fields, withUser, row) <==> fields != []
  {
    var more := fields + ["id"];
    forall c ensures c in more <==> c in fields || c == "id" {
    }
    assert "status" != "id" && "user_id" != "id" by {
      assert |"status"| == 6 && |"user_id"| == 7 && |"id"| == 2;
    }
    if fields == [] {
      assert "status" in Kept(fields, row.rest) && "status" !in Kept(more, row.rest);
    } else {
      assert Kept(more, row.rest) == Kept(fields, row.rest);
    }
  }

  /** One stored cart, nothing selected, no limit, no edges: after Exist, All gives a cart without its status. */
  lemma ExistSpoilsAll() returns (q: Query, rows: seq<CartRow>)
    ensures Count(q, rows) == 1 && q == Query(0, None, [], None, None) && forall r :: r in rows ==> Stored(r)
    ensures var before, after := Answer(q, rows, [], []), Answer(Checked(q), rows, [], []);
            |before| == |after| == 1 && "status" in before[0].row.rest && after[0].row.rest == map[]
  {
    q, rows := Query(0, None, [], None, None), [CartRow(Uuid(1), None, map["status" := "active"])];
    assert |"status"| == 6 && |"id"| == 2;
    assert [] + ["id"] == ["id"];
    assert Kept(["id"], map["status" := "active"]) == map[];
  }

  // ---------------------------------------------------------------------------------------
  // The code

  /** `ScanError`: more than one column for a list of identifiers. */
  datatype QueryError = NotFoundError | NotSingularError | ScanError

  ghost function SideOf<T(!new)>(q: EdgeQuery<T>): Side<T> reads q {
    Side(q.keep, q.offset, q.limit, q.fields, q.lists)
  }

  /** What a node shows. */
  ghost function PictureOf(n: Cart): Picture reads n {
    Picture(n.row, RowsOf(n.items), UserOf(n))
  }

  ghost predicate Depicts(nodes: seq<Cart>, pictures: seq<Picture>) reads nodes {
    |nodes| == |pictures| && forall i :: 0 <= i < |nodes| ==> PictureOf(nodes[i]) == pictures[i]
  }

  class CartQuery {
    const offset: nat
    var limit: Option<nat>
    var fields: seq<string>
    var withItems: EdgeQuery?<ItemRow>
    var withUser: EdgeQuery?<Uuid>

    constructor (offset: nat, limit: Option<nat>, fields: seq<string>, withItems: EdgeQuery?<ItemRow>,
          withUser: EdgeQuery?<Uuid>)
      ensures this.offset == offset && this.limit == limit && this.fields == fields
      ensures this.withItems == withItems && this.withUser == withUser
    {
      this.offset, this.limit, this.fields := offset, limit, fields;
      this.withItems, this.withUser := withItems, withUser;
    }

    ghost function ItemsEdge(): set<object> reads this { if withItems == null then {} else {withItems} }

    ghost function UserEdge(): set<object> reads this { if withUser == null then {} else {withUser} }

    ghost function Edges(): set<object> reads this { ItemsEdge() + UserEdge() }

    ghost function State(): Query reads this, Edges() {
      Query(offset, limit, fields, if withItems == null then None else Some(SideOf(withItems)),
            if withUser == null then None else Some(SideOf(withUser)))
    }

    method Scan(rows: seq<CartRow>) returns (nodes: seq<Cart>)
      ensures |nodes| == |ShownCarts(State(), rows)| && NoDup(nodes)
      ensures forall i :: 0 <= i < |nodes| ==> FromRow(State(), rows, i, nodes[i].row)
      ensures forall i :: 0 <= i < |nodes| ==>
        fresh(nodes[i]) && nodes[i].row == ShownCarts(State(), rows)[i] && nodes[i].items == [] && nodes[i].user == null
    {
      var found := Window(rows, offset, limit);
      AnswerRows(State(), rows, [], []);
      nodes := [];
      for i := 0 to |found|
        invariant |nodes| == i && NoDup(nodes)
        invariant forall k :: 0 <= k < i ==> fresh(nodes[k]) && nodes[k].items == [] && nodes[k].user == null
        invariant forall k :: 0 <= k < i ==> nodes[k].row == ShownCart(fields, withUser != null, found[k])
      {
        var node := new Cart(ShownCart(fields, withUser != null, found[i]));
        NoDupAppend(nodes, node);
        nodes := nodes + [node];
      }
    }

    /** The items edge of sqlAll. */
    method LoadItemsEdge(nodes: seq<Cart>, items: seq<ItemRow>) returns (err: Option<string>)
      requires withItems != null && NoDup(nodes)
      modifies withItems, nodes`items
      ensures err.None?
      ensures SideOf(withItems) == ItemsServed(old(SideOf(withItems)), RowsOfCarts(nodes))
      ensures forall i :: 0 <= i < |nodes| ==>
        RowsOf(nodes[i].items) == ItemsShown(Some(old(SideOf(withItems))), RowsOfCarts(nodes), i, items)
    {
      KeysOf(nodes);
      ghost var was := SideOf(withItems);
      err := LoadItems(withItems, nodes, items);
      assert SideOf(withItems) == ItemsServed(was, RowsOfCarts(nodes));
      assert ItemsFound(withItems, items) ==
             ShownItems(SideOf(withItems).fields, SideRows(SideOf(withItems), items, CartOf));
      LoadedIs(nodes, was, items);
    }

    /** The user edge of sqlAll. */
    method LoadUserEdge(nodes: seq<Cart>, users: seq<Uuid>) returns (err: Option<string>)
      requires withUser != null && forall n :: n in nodes ==> n.user == null
      modifies withUser`lists, nodes`user
      ensures err.None?
      ensures SideOf(withUser) == UsersServed(old(SideOf(withUser)), RowsOfCarts(nodes))
      ensures forall i :: 0 <= i < |nodes| ==>
        UserOf(nodes[i]) == UserShown(Some(old(SideOf(withUser))), RowsOfCarts(nodes), i, users)
      ensures forall n, m :: n in nodes && m in nodes && n.row.userId == m.row.userId ==> n.user == m.user
    {
      ghost var shown := RowsOfCarts(nodes);
      assert UserKeys(shown) == UserIds(nodes) by { KeysOf(nodes); }
      err := LoadUser(withUser, nodes, users);
      ghost var found := SideRows(SideOf(withUser), users, Same);
      assert withUser.Selected(users, Same) == found;
      forall i | 0 <= i < |nodes|
        ensures UserOf(nodes[i]) == UserShown(Some(old(SideOf(withUser))), shown, i, users)
      {
        assert nodes[i] in nodes && shown[i] == nodes[i].row;
        assert FindsUser(withUser, users, nodes[i].row.userId) <==>
          nodes[i].row.userId.Some? && nodes[i].row.userId.value in found;
      }
    }

    /** Both edges, of nodes that are still bare. */
    method LoadEdges(nodes: seq<Cart>, items: seq<ItemRow>, users: seq<Uuid>) returns (err: Option<string>)
      requires NoDup(nodes) && forall n :: n in nodes ==> n.items == [] && n.user == null
      modifies ItemsEdge(), UserEdge(), nodes`items, nodes`user
      ensures err.None?
      ensures withItems != null ==> SideOf(withItems) == ItemsServed(old(SideOf(withItems)), RowsOfCarts(nodes))
      ensures withUser != null ==> SideOf(withUser) == UsersServed(old(SideOf(withUser)), RowsOfCarts(nodes))
      ensures forall i :: 0 <= i < |nodes| ==>
        RowsOf(nodes[i].items) == ItemsShown(old(State()).items, RowsOfCarts(nodes), i, items)
      ensures forall i :: 0 <= i < |nodes| ==> UserOf(nodes[i]) == UserShown(old(State()).users, RowsOfCarts(nodes), i, users)
      ensures forall n, m :: n in nodes && m in nodes && n.row.userId == m.row.userId ==> n.user == m.user
    {
      ghost var was := State();
      err := None;
      if withItems != null {
        err := LoadItemsEdge(nodes, items);
        if err.Some? {
          return;
        }
      }
      if withUser != null {
        assert SideOf(withUser) == was.users.value;
        err := LoadUserEdge(nodes, users);
      }
    }

    /** sqlAll: new nodes for the selected rows, with the requested edges; carts with one user share it. */
    method All(rows: seq<CartRow>, items: seq<ItemRow>, users: seq<Uuid>) returns (nodes: seq<Cart>, err: Option<string>)
      modifies Edges()
      ensures err.None? && forall n :: n in nodes ==> fresh(n)
      ensures var left := if offset <= |rows| then |rows| - offset else 0;
              |nodes| == if old(limit).Some? && 0 < old(limit).value < left then old(limit).value else left
      ensures forall i :: 0 <= i < |nodes| ==> FromRow(old(State()), rows, i, nodes[i].row)
      ensures Depicts(nodes, Answer(old(State()), rows, items, users))
      ensures forall n, m :: n in nodes && m in nodes && n.row.userId == m.row.userId ==> n.user == m.user
      ensures State() == Served(old(State()), rows)
    {
      AnswerRows(State(), rows, items, users);
      nodes := Scan(rows);
      assert RowsOfCarts(nodes) == ShownCarts(State(), rows);
      if |nodes| == 0 {
        return nodes, None;
      }
      err := LoadEdges(nodes, items, users);
      if err.Some? {
        return [], err;
      }
    }

    /** The first result of the query without its limit, with its edges. */
    method First(rows: seq<CartRow>, items: seq<ItemRow>, users: seq<Uuid>) returns (r: Result<Cart, QueryError>)
      modifies this`limit, Edges()
      ensures State() == Served(old(State()).(limit := Some(1)), rows)
      ensures var answer := Answer(old(State()).(limit := Some(1)), rows, items, users);
        && (Count(old(State()), rows) == 0 <==> answer == [])
        && if answer == [] then r == Err(NotFoundError) else r.Ok? && fresh(r.value) && PictureOf(r.value) == answer[0]
    {
      limit := Some(1);
      ghost var answer := Answer(State(), rows, items, users);
      var nodes, err := All(rows, items, users);
      if |nodes| == 0 {
        return Err(NotFoundError);
      }
      assert nodes[0] in nodes && PictureOf(nodes[0]) == answer[0];
      return Ok(nodes[0]);
    }

    /** Succeeds exactly when the query has one result, whatever limit was set before. */
    method Only(rows: seq<CartRow>, items: seq<ItemRow>, users: seq<Uuid>) returns (r: Result<Cart, QueryError>)
      modifies this`limit, Edges()
      ensures State() == Served(old(State()).(limit := Some(2)), rows)
      ensures match r
        case Ok(node) => Count(old(State()), rows) == 1 && fresh(node) &&
                         [PictureOf(node)] == Answer(old(State()).(limit := Some(2)), rows, items, users)
        case Err(e) => e == if Count(old(State()), rows) == 0 then NotFoundError else NotSingularError
      ensures r.Err? ==> Count(old(State()), rows) != 1
    {
      limit := Some(2);
      ghost var answer := Answer(State(), rows, items, users);
      var nodes, err := All(rows, items, users);
      match |nodes| {
        case 1 =>
          assert nodes[0] in nodes && PictureOf(nodes[0]) == answer[0];
          return Ok(nodes[0]);
        case 0 => return Err(NotFoundError);
        case _ => return Err(NotSingularError);
      }
    }

    /** Select(...).Scan into a list of identifiers: the query's columns, which must be one. Unlike in All, a
        limit of zero lets nothing through here. */
    method IDs(rows: seq<CartRow>) returns (r: Result<seq<Uuid>, QueryError>)
      modifies this`fields
      ensures fields == old(fields) + ["id"]
      ensures r == if old(fields) != [] then Err(ScanError)
                   else if limit == Some(0) then Ok([])
                   else Ok(IdsOf(Window(rows, offset, limit)))
    {
      fields := fields + ["id"];
      if |fields| > 1 {
        return Err(ScanError);
      }
      if limit == Some(0) {
        return Ok([]);
      }
      return Ok(IdsOf(Window(rows, offset, limit)));
    }

    method FirstID(rows: seq<CartRow>) returns (r: Result<Uuid, QueryError>)
      modifies this`limit, this`fields
      ensures limit == Some(1) && fields == old(fields) + ["id"]
      ensures r == if old(fields) != [] then Err(ScanError)
                   else if |rows| <= offset then Err(NotFoundError)
                   else Ok(rows[offset].id)
    {
      limit := Some(1);
      var ids := IDs(rows);
      if ids.Err? {
        return Err(ids.error);
      }
      if |ids.value| == 0 {
        return Err(NotFoundError);
      }
      return Ok(ids.value[0]);
    }

    /** True exactly when the query without its limit has a result. It fails when columns were selected, and it
        leaves both its limit and the selected id on the query. */
    method Exist(rows: seq<CartRow>) returns (r: Result<bool, QueryError>)
      modifies this`limit, this`fields
      ensures State() == Checked(old(State()))
      ensures r == if old(fields) != [] then Err(ScanError) else Ok(Count(old(State()), rows) > 0)
    {
      var id := FirstID(rows);
      match id {
        case Ok(_) => r := Ok(true);
        case Err(NotFoundError) => r := Ok(false);
        case Err(e) => r := Err(e);
      }
    }
  }

  function IdsOf(rows: seq<CartRow>): (r: seq<Uuid>)
    ensures |r| == |rows|
  {
    seq(|rows|, k requires 0 <= k < |rows| => rows[k].id)
  }

  // ---------------------------------------------------------------------------------------
  // Using a query twice

  /** First and then All: the nodes are those that All would have given, exactly when at most one row is there or
      the limit was one already. */
  method FirstThenAll(q: CartQuery, rows: seq<CartRow>, items: seq<ItemRow>, users: seq<Uuid>)
    returns (first: Result<Cart, QueryError>, nodes: seq<Cart>)
    modifies q`limit, q.Edges()
    ensures Depicts(nodes, Answer(old(q.State()), rows, items, users)) <==>
            Count(old(q.State()), rows) <= 1 || old(q.limit) == Some(1)
  {
    ghost var was := q.State();
    first := q.First(rows, items, users);
    var err;
    nodes, err := q.All(rows, items, users);
    FirstAgreesIff(was, rows, items, users);
    DepictsOne(nodes, Answer(Served(was.(limit := Some(1)), rows), rows, items, users), Answer(was, rows, items, users));
  }

  /** Only and then All: exactly when at most one row is there, or two and the limit let them through, or the limit
      was two already. */
  method OnlyThenAll(q: CartQuery, rows: seq<CartRow>, items: seq<ItemRow>, users: seq<Uuid>)
    returns (only: Result<Cart, QueryError>, nodes: seq<Cart>)
    modifies q`limit, q.Edges()
    ensures var n, limit := Count(old(q.State()), rows), old(q.limit);
      Depicts(nodes, Answer(old(q.State()), rows, items, users)) <==>
      n <= 1 || limit == Some(2) || (n == 2 && limit != Some(1))
  {
    ghost var was := q.State();
    only := q.Only(rows, items, users);
    var err;
    nodes, err := q.All(rows, items, users);
    OnlyAgreesIff(was, rows, items, users);
    DepictsOne(nodes, Answer(Served(was.(limit := Some(2)), rows), rows, items, users), Answer(was, rows, items, users));
  }

  /** Exist and then All: moreover, some columns must have been selected, or no row be there; but then Exist had
      failed. */
  method ExistThenAll(q: CartQuery, rows: seq<CartRow>, items: seq<ItemRow>, users: seq<Uuid>)
    returns (exist: Result<bool, QueryError>, nodes: seq<Cart>)
    requires forall r :: r in rows ==> Stored(r)
    modifies q`limit, q`fields, q.Edges()
    ensures var n, limit := Count(old(q.State()), rows), old(q.limit);
      Depicts(nodes, Answer(old(q.State()), rows, items, users)) <==>
      (n <= 1 || limit == Some(1)) && (n == 0 || old(q.fields) != [])
    ensures exist.Ok? && exist.value ==> !Depicts(nodes, Answer(old(q.State()), rows, items, users))
  {
    ghost var was := q.State();
    exist := q.Exist(rows);
    var err;
    nodes, err := q.All(rows, items, users);
    ExistAgreesIff(was, rows, items, users);
    DepictsOne(nodes, Answer(Checked(was), rows, items, users), Answer(was, rows, items, users));
  }

  /** Nodes depict one list of pictures. */
  lemma DepictsOne(nodes: seq<Cart>, a: seq<Picture>, b: seq<Picture>)
    requires Depicts(nodes, a)
    ensures Depicts(nodes, b) <==> a == b
  {
  }

  function RowsOfCarts(nodes: seq<Cart>): (r: seq<CartRow>)
    ensures |r| == |nodes|
  {
    seq(|nodes|, k requires 0 <= k < |nodes| => nodes[k].row)
  }

  function UserOf(n: Cart): Option<Uuid> reads n {
    if n.user == null then None else Some(n.user.id)
  }

  lemma LoadedIs(nodes: seq<Cart>, was: Side<ItemRow>, items: seq<ItemRow>)
    requires var served := ItemsServed(was, RowsOfCarts(nodes));
      Loaded(nodes, ShownItems(served.fields, SideRows(served, items, CartOf)))
    ensures forall i :: 0 <= i < |nodes| ==> RowsOf(nodes[i].items) == ItemsShown(Some(was), RowsOfCarts(nodes), i, items)
  {
    forall i | 0 <= i < |nodes| ensures LastAt(RowsOfCarts(nodes), i) <==> LastWithId(nodes, i) {
      assert forall j :: i < j < |nodes| ==> RowsOfCarts(nodes)[j].id == nodes[j].row.id;
    }
  }

  lemma KeysOf(nodes: seq<Cart>)
    ensures CartKeys(RowsOfCarts(nodes)) == Ids(nodes) && UserKeys(RowsOfCarts(nodes)) == UserIds(nodes)
  {
    var shown := RowsOfCarts(nodes);
    forall r | r in shown ensures exists n :: n in nodes && n.row == r {
      var k :| 0 <= k < |shown| && shown[k] == r;
      assert nodes[k] in nodes;
    }
    forall n | n in nodes ensures n.row in shown {
      var k :| 0 <= k < |nodes| && nodes[k] == n;
      assert shown[k] == n.row;
    }
  }
}
