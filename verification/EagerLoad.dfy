/** Eager loading (internal/ent/cart_query.go, cartitem_query.go): the joins that query builders
    run in memory after the main query. */
module EagerLoad {
  import opened Base

  // ---------------------------------------------------------------------------------------
  // Rows and entities

  /** The columns of a row that the loads do not look at, those at zero left out. */
  type Rest = map<string, string>

  datatype ItemRow = ItemRow(id: Uuid, cartId: Uuid, rest: Rest)

  datatype CartRow = CartRow(id: Uuid, userId: Option<Uuid>, rest: Rest)

  const ZERO := Uuid(0)

  function CartOf(row: ItemRow): Uuid { row.cartId }

  function IdOf(row: CartRow): Uuid { row.id }

  function Same(id: Uuid): Uuid { id }

  /** Nothing selected means everything. */
  predicate Selects(fields: seq<string>, column: string) { fields == [] || column in fields }

  function Kept(fields: seq<string>, rest: Rest): Rest {
    map c | c in rest && Selects(fields, c) :: rest[c]
  }

  /** A row as scanned into a node: the id always, unselected columns at zero. */
  function ShownItem(fields: seq<string>, row: ItemRow): ItemRow {
    ItemRow(row.id, if Selects(fields, "cart_id") then row.cartId else ZERO, Kept(fields, row.rest))
  }

  /** The same for a cart; loading the user adds its key to the selection. */
  function ShownCart(fields: seq<string>, withUser: bool, row: CartRow): CartRow {
    CartRow(row.id, if withUser || Selects(fields, "user_id") then row.userId else None, Kept(fields, row.rest))
  }

  function ShownItems(fields: seq<string>, rows: seq<ItemRow>): (r: seq<ItemRow>)
    ensures |r| == |rows|
  {
    seq(|rows|, k requires 0 <= k < |rows| => ShownItem(fields, rows[k]))
  }

  function Elements<T>(s: seq<T>): set<T> { set x | x in s }

  class User {
    const id: Uuid
    constructor (id: Uuid) ensures this.id == id { this.id := id; }
  }

  class CartItem {
    const row: ItemRow
    var cart: Cart?
    constructor (row: ItemRow)
      ensures this.row == row && cart == null
    {
      this.row := row;
      cart := null;
    }
  }

  class Cart {
    const row: CartRow
    var items: seq<CartItem>
    var user: User?
    constructor (row: CartRow)
      ensures this.row == row && items == [] && user == null
    {
      this.row := row;
      items := [];
      user := null;
    }
  }

  // ---------------------------------------------------------------------------------------
  // Queries for the other side of an edge

  /** The rows satisfying the caller's own conditions and lying in every given list of keys. */
  function Matching<T>(rows: seq<T>, keep: T -> bool, key: T -> Uuid, lists: seq<set<Uuid>>): seq<T> {
    if rows == [] then []
    else
      var last := rows[|rows| - 1];
      Matching(rows[..|rows| - 1], keep, key, lists) +
      if keep(last) && forall s :: s in lists ==> key(last) in s then [last] else []
  }

  /** OFFSET and LIMIT; a limit of zero is none, since the spec carries it as a plain number. */
  function Window<T>(rows: seq<T>, offset: nat, limit: Option<nat>): seq<T> {
    var tail := if offset <= |rows| then rows[offset..] else [];
    if limit.Some? && 0 < limit.value < |tail| then tail[..limit.value] else tail
  }

  /** A query. The conditions of every load it served stay in `lists`. */
  class EdgeQuery<T(!new)> {
    const keep: T -> bool
    const offset: nat
    const limit: Option<nat>
    var fields: seq<string>
    var lists: seq<set<Uuid>>

    constructor (keep: T -> bool, offset: nat, limit: Option<nat>, fields: seq<string>)
      ensures this.keep == keep && this.offset == offset && this.limit == limit && this.fields == fields && lists == []
    {
      this.keep, this.offset, this.limit, this.fields := keep, offset, limit, fields;
      lists := [];
    }

    function Selected(table: seq<T>, key: T -> Uuid): seq<T> reads this {
      Window(Matching(table, keep, key, lists), offset, limit)
    }
  }

  lemma {:induction false} MatchingIn<T(!new)>(rows: seq<T>, keep: T -> bool, key: T -> Uuid, lists: seq<set<Uuid>>)
    ensures forall r :: r in Matching(rows, keep, key, lists) <==>
              r in rows && keep(r) && forall s :: s in lists ==> key(r) in s
  {
    if rows != [] {
      var init, last := rows[..|rows| - 1], rows[|rows| - 1];
      assert rows == init + [last];
      MatchingIn(init, keep, key, lists);
    }
  }

  lemma WindowIn<T(!new)>(rows: seq<T>, offset: nat, limit: Option<nat>)
    ensures forall r :: r in Window(rows, offset, limit) ==> r in rows
  {
  }

  /** What a query selects satisfies all its conditions. */
  lemma SelectedIn<T(!new)>(query: EdgeQuery<T>, table: seq<T>, key: T -> Uuid)
    ensures forall r :: r in query.Selected(table, key) ==>
              r in table && query.keep(r) && forall s :: s in query.lists ==> key(r) in s
    ensures query.offset == 0 && query.limit.None? ==> forall r :: r in query.Selected(table, key) <==>
              r in table && query.keep(r) && forall s :: s in query.lists ==> key(r) in s
  {
    MatchingIn(table, query.keep, key, query.lists);
    WindowIn(Matching(table, query.keep, key, query.lists), query.offset, query.limit);
  }

  /** An offset skips the first rows, and a limit above zero then takes as many as it says from the front. */
  lemma WindowAt<T>(rows: seq<T>, offset: nat, limit: Option<nat>)
    ensures var left := if offset <= |rows| then |rows| - offset else 0;
            |Window(rows, offset, limit)| == if limit.Some? && 0 < limit.value < left then limit.value else left
    ensures forall k :: 0 <= k < |Window(rows, offset, limit)| ==>
              offset + k < |rows| && Window(rows, offset, limit)[k] == rows[offset + k]
  {
  }

  /** The rows that satisfy all conditions keep their order, each as often as it is there. */
  lemma {:induction false} MatchingAt<T(!new)>(rows: seq<T>, keep: T -> bool, key: T -> Uuid, lists: seq<set<Uuid>>)
    returns (at: seq<nat>)
    ensures Picked(rows, Matching(rows, keep, key, lists), at)
    ensures forall k :: 0 <= k < |rows| ==> (k in at <==> keep(rows[k]) && forall s :: s in lists ==> key(rows[k]) in s)
  {
    at := [];
    if rows != [] {
      var init, last := rows[..|rows| - 1], rows[|rows| - 1];
      at := MatchingAt(init, keep, key, lists);
      assert rows == init + [last];
      PickedNext(init, Matching(init, keep, key, lists), at, last);
      if keep(last) && forall s :: s in lists ==> key(last) in s {
        at := at + [|init|];
      }
    }
  }

  /** What a query selects, by where it stands in the table: of the places of the rows that satisfy its conditions,
      those past its offset, cut to its limit. */
  lemma SelectedAt<T(!new)>(query: EdgeQuery<T>, table: seq<T>, key: T -> Uuid) returns (at: seq<nat>)
    ensures forall j, k :: 0 <= j < k < |at| ==> at[j] < at[k]
    ensures forall j :: 0 <= j < |at| ==> at[j] < |table|
    ensures forall k :: 0 <= k < |table| ==>
              (k in at <==> query.keep(table[k]) && forall s :: s in query.lists ==> key(table[k]) in s)
    ensures var left := if query.offset <= |at| then |at| - query.offset else 0;
            |query.Selected(table, key)| ==
            if query.limit.Some? && 0 < query.limit.value < left then query.limit.value else left
    ensures forall k :: 0 <= k < |query.Selected(table, key)| ==>
              query.offset + k < |at| && query.Selected(table, key)[k] == table[at[query.offset + k]]
  {
    at := MatchingAt(table, query.keep, key, query.lists);
    WindowAt(Matching(table, query.keep, key, query.lists), query.offset, query.limit);
  }

  /** What a node shows of its row: the id always, any other column if it or nothing was selected, and the user key
      also when the user is loaded. */
  lemma CartColumns(fields: seq<string>, withUser: bool, row: CartRow)
    ensures var shown := ShownCart(fields, withUser, row);
            && shown.id == row.id
            && shown.userId == (if fields == [] || "user_id" in fields || withUser then row.userId else None)
            && (forall c :: c in shown.rest <==> c in row.rest && (fields == [] || c in fields))
            && (forall c :: c in shown.rest ==> shown.rest[c] == row.rest[c])
  {
  }

  lemma ItemColumns(fields: seq<string>, row: ItemRow)
    ensures var shown := ShownItem(fields, row);
            && shown.id == row.id
            && shown.cartId == (if fields == [] || "cart_id" in fields then row.cartId else Uuid(0))
            && (forall c :: c in shown.rest <==> c in row.rest && (fields == [] || c in fields))
            && (forall c :: c in shown.rest ==> shown.rest[c] == row.rest[c])
  {
  }

  /** A condition that is added twice is as good as once. */
  lemma {:induction false} MatchingTwice<T>(rows: seq<T>, keep: T -> bool, key: T -> Uuid, lists: seq<set<Uuid>>,
        s: set<Uuid>)
    ensures Matching(rows, keep, key, lists + [s] + [s]) == Matching(rows, keep, key, lists + [s])
  {
    if rows != [] {
      MatchingTwice(rows[..|rows| - 1], keep, key, lists, s);
      assert forall x :: x in lists + [s] + [s] <==> x in lists + [s];
    }
  }

  // ---------------------------------------------------------------------------------------
  // One to many: loadItems

  /** The rows of one cart, in result order. */
  function ItemsOf(rows: seq<ItemRow>, cart: Uuid): seq<ItemRow> {
    if rows == [] then []
    else ItemsOf(rows[..|rows| - 1], cart) + if rows[|rows| - 1].cartId == cart then [rows[|rows| - 1]] else []
  }

  lemma {:induction false} ItemsOfAt(rows: seq<ItemRow>, cart: Uuid) returns (at: seq<nat>)
    ensures Picked(rows, ItemsOf(rows, cart), at)
    ensures forall k :: 0 <= k < |rows| ==> (k in at <==> rows[k].cartId == cart)
  {
    at := [];
    if rows != [] {
      var init, last := rows[..|rows| - 1], rows[|rows| - 1];
      at := ItemsOfAt(init, cart);
      assert rows == init + [last];
      PickedNext(init, ItemsOf(init, cart), at, last);
      if last.cartId == cart {
        at := at + [|init|];
      }
    }
  }

  /** The nodes a query for items gives, as rows. */
  ghost function ItemsFound(query: EdgeQuery<ItemRow>, table: seq<ItemRow>): seq<ItemRow> reads query {
    ShownItems(query.fields, query.Selected(table, CartOf))
  }

  /** The item query without edges of its own. */
  method AllItemNodes(query: EdgeQuery<ItemRow>, table: seq<ItemRow>) returns (nodes: seq<CartItem>)
    ensures RowsOf(nodes) == ItemsFound(query, table)
    ensures forall k :: 0 <= k < |nodes| ==> fresh(nodes[k]) && nodes[k].cart == null
  {
    var rows := query.Selected(table, CartOf);
    nodes := [];
    for k := 0 to |rows|
      invariant |nodes| == k
      invariant forall i :: 0 <= i < k ==> nodes[i].row == ShownItem(query.fields, rows[i])
      invariant forall i :: 0 <= i < k ==> fresh(nodes[i]) && nodes[i].cart == null
    {
      var node := new CartItem(ShownItem(query.fields, rows[k]));
      nodes := nodes + [node];
    }
  }

  function RowsOf(nodes: seq<CartItem>): (r: seq<ItemRow>)
    ensures |r| == |nodes|
  {
    seq(|nodes|, k requires 0 <= k < |nodes| => nodes[k].row)
  }

  /** Carts whose id is not used again later in the list. */
  predicate LastWithId(nodes: seq<Cart>, i: nat)
    requires i < |nodes|
  {
    forall j :: i < j < |nodes| ==> nodes[j].row.id != nodes[i].row.id
  }

  function Ids(nodes: seq<Cart>): set<Uuid> { set n | n in nodes :: n.row.id }

  /** The last cart with the id. */
  function LastCart(nodes: seq<Cart>, id: Uuid): Option<Cart> {
    if nodes == [] then None
    else if nodes[|nodes| - 1].row.id == id then Some(nodes[|nodes| - 1])
    else LastCart(nodes[..|nodes| - 1], id)
  }

  lemma {:induction false} LastCartIs(nodes: seq<Cart>, i: nat)
    requires i < |nodes| && NoDup(nodes)
    ensures LastCart(nodes, nodes[i].row.id) == Some(nodes[i]) <==> LastWithId(nodes, i)
  {
    var n := |nodes| - 1;
    var init := nodes[..n];
    if i < n && nodes[n].row.id != nodes[i].row.id {
      assert init[i] == nodes[i];
      LastCartIs(init, i);
      assert LastWithId(nodes, i) <==> LastWithId(init, i);
    }
  }

  lemma {:induction false} LastCartHasId(nodes: seq<Cart>, id: Uuid)
    ensures LastCart(nodes, id).Some? <==> id in Ids(nodes)
    ensures LastCart(nodes, id).Some? ==> LastCart(nodes, id).value in nodes && LastCart(nodes, id).value.row.id == id
  {
    if nodes != [] {
      var init, last := nodes[..|nodes| - 1], nodes[|nodes| - 1];
      assert nodes == init + [last];
      LastCartHasId(init, id);
    }
  }

  /** The lookup map of loadItems: for each id the last cart that has it. */
  ghost predicate Indexes(nodeids: map<Uuid, Cart>, nodes: seq<Cart>) {
    forall id :: LastCart(nodes, id) == if id in nodeids then Some(nodeids[id]) else None
  }

  /** First loop of loadItems: index the carts and empty their items. */
  method IndexCarts(nodes: seq<Cart>) returns (nodeids: map<Uuid, Cart>)
    modifies nodes`items
    ensures Indexes(nodeids, nodes) && forall n :: n in nodes ==> n.items == []
  {
    nodeids := map[];
    for i := 0 to |nodes|
      invariant Indexes(nodeids, nodes[..i])
      invariant forall k :: 0 <= k < i ==> nodes[k].items == []
    {
      nodeids := nodeids[nodes[i].row.id := nodes[i]];
      nodes[i].items := [];
      assert nodes[..i + 1][..i] == nodes[..i];
    }
    assert nodes[..|nodes|] == nodes;
  }

  /** What a cart holds once the rows have been handed out. */
  ghost predicate Holds(n: Cart, nodeids: map<Uuid, Cart>, rows: seq<ItemRow>)
    reads n
  {
    RowsOf(n.items) == if Owns(nodeids, n) then ItemsOf(rows, n.row.id) else []
  }

  ghost predicate AllHold(carts: set<Cart>, nodeids: map<Uuid, Cart>, rows: seq<ItemRow>)
    reads carts
  {
    forall n :: n in carts ==> Holds(n, nodeids, rows)
  }

  predicate Owns(nodeids: map<Uuid, Cart>, n: Cart) { n.row.id in nodeids && nodeids[n.row.id] == n }

  method AddItem(node: Cart, item: CartItem)
    modifies node`items
    ensures RowsOf(node.items) == old(RowsOf(node.items)) + [item.row]
  {
    node.items := node.items + [item];
  }

  /** An entry of the lookup map is one of the carts, under its own id. */
  ghost predicate KeyOk(nodeids: map<Uuid, Cart>, carts: set<Cart>, id: Uuid) {
    id in nodeids ==> nodeids[id] in carts && nodeids[id].row.id == id
  }

  ghost predicate Keyed(nodeids: map<Uuid, Cart>, carts: set<Cart>) {
    forall id :: KeyOk(nodeids, carts, id)
  }

  /** One row goes to the cart that its foreign key names, if any. */
  method HandOut(item: CartItem, nodeids: map<Uuid, Cart>, ghost carts: set<Cart>, ghost before: seq<ItemRow>)
    returns (ok: bool)
    requires Keyed(nodeids, carts) && AllHold(carts, nodeids, before)
    modifies carts`items
    ensures ok <==> item.row.cartId in nodeids
    ensures ok ==> AllHold(carts, nodeids, before + [item.row])
  {
    if item.row.cartId !in nodeids {
      return false;
    }
    assert KeyOk(nodeids, carts, item.row.cartId);
    var node := nodeids[item.row.cartId];
    AddItem(node, item);
    forall n | n in carts ensures Holds(n, nodeids, before + [item.row]) {
      AppendItem(before, item.row, n.row.id);
      if n == node {
        assert RowsOf(n.items) == ItemsOf(before, n.row.id) + [item.row];
      } else {
        assert n.items == old(n.items);
      }
    }
    return true;
  }

  predicate NamesCarts(rows: seq<ItemRow>, nodeids: map<Uuid, Cart>) {
    forall r :: r in rows ==> r.cartId in nodeids
  }

  /** Second loop of loadItems: hand each row to the cart its foreign key names. */
  method Distribute(neighbors: seq<CartItem>, nodeids: map<Uuid, Cart>, ghost carts: set<Cart>)
    returns (err: Option<string>)
    requires Keyed(nodeids, carts) && AllHold(carts, nodeids, [])
    modifies carts`items
    ensures err.None? <==> NamesCarts(RowsOf(neighbors), nodeids)
    ensures err.None? ==> AllHold(carts, nodeids, RowsOf(neighbors))
  {
    ghost var rows := RowsOf(neighbors);
    ghost var given: seq<ItemRow> := [];
    for k := 0 to |neighbors|
      invariant given == rows[..k]
      invariant NamesCarts(given, nodeids) && AllHold(carts, nodeids, given)
    {
      var ok := HandOut(neighbors[k], nodeids, carts, given);
      if !ok {
        assert rows[k] in rows;
        return Some("unexpected referenced foreign-key");
      }
      given := given + [neighbors[k].row];
    }
    assert given == rows;
    err := None;
  }

  /** The query of loadItems: the foreign key is selected, the carts are added to the conditions. */
  method FetchItems(query: EdgeQuery<ItemRow>, ids: set<Uuid>, table: seq<ItemRow>) returns (neighbors: seq<CartItem>)
    modifies query
    ensures query.lists == old(query.lists) + [ids]
    ensures query.fields ==
            old(query.fields) + if old(query.fields) == [] || "cart_id" in old(query.fields) then [] else ["cart_id"]
    ensures query.fields == WithKey(old(query.fields))
    ensures forall k :: 0 <= k < |neighbors| ==> fresh(neighbors[k])
    ensures RowsOf(neighbors) == ItemsFound(query, table)
    ensures forall r :: r in ItemsFound(query, table) ==> r.cartId in ids
  {
    if query.fields != [] && "cart_id" !in query.fields {
      query.fields := query.fields + ["cart_id"];
    }
    query.lists := query.lists + [ids];
    neighbors := AllItemNodes(query, table);
    FoundInList(query, ids, table);
  }

  /** The selection with the foreign key in it. */
  function WithKey(fields: seq<string>): seq<string> {
    if Selects(fields, "cart_id") then fields else fields + ["cart_id"]
  }

  lemma FoundInList(query: EdgeQuery<ItemRow>, ids: set<Uuid>, table: seq<ItemRow>)
    requires ids in query.lists && Selects(query.fields, "cart_id")
    ensures forall r :: r in ItemsFound(query, table) ==> r.cartId in ids
  {
    SelectedIn(query, table, CartOf);
    var rows := query.Selected(table, CartOf);
    forall k | 0 <= k < |rows| ensures ItemsFound(query, table)[k].cartId in ids {
      assert rows[k] in rows && CartOf(rows[k]) in ids;
    }
  }

  /** The rows under all the carts, cart after cart. */
  ghost function Gathered(nodes: seq<Cart>): seq<ItemRow>
    reads nodes
  {
    if nodes == [] then [] else RowsOf(nodes[0].items) + Gathered(nodes[1..])
  }

  /** What loadItems leaves: each cart has exactly its rows in result order, except that of several carts with
      one id only the last does. */
  ghost predicate Loaded(nodes: seq<Cart>, rows: seq<ItemRow>)
    reads nodes
  {
    forall i :: 0 <= i < |nodes| ==>
      RowsOf(nodes[i].items) == if LastWithId(nodes, i) then ItemsOf(rows, nodes[i].row.id) else []
  }

  /** loadItems: one query for all carts, distributed by foreign key. The error branch cannot be reached, and
      every row of the result is under exactly one cart. */
  method LoadItems(query: EdgeQuery<ItemRow>, nodes: seq<Cart>, table: seq<ItemRow>) returns (err: Option<string>)
    requires NoDup(nodes)
    modifies query, nodes`items
    ensures query.lists == old(query.lists) + [Ids(nodes)]
    ensures query.fields == WithKey(old(query.fields))
    ensures err.None?
    ensures Loaded(nodes, ItemsFound(query, table))
    ensures forall r :: r in ItemsFound(query, table) ==> r.cartId in Ids(nodes)
    ensures multiset(Gathered(nodes)) == multiset(ItemsFound(query, table))
    ensures |Gathered(nodes)| == |ItemsFound(query, table)|
  {
    var nodeids := IndexCarts(nodes);
    IndexIsLast(nodeids, nodes);
    var neighbors := FetchItems(query, nodeids.Keys, table);
    ghost var carts := Elements(nodes);
    assert NamesCarts(RowsOf(neighbors), nodeids);
    assert Keyed(nodeids, carts);
    err := Distribute(neighbors, nodeids, carts);
    HeldIsLoaded(nodes, nodeids, carts, RowsOf(neighbors));
    LoadConserves(nodes, RowsOf(neighbors));
  }

  lemma HeldIsLoaded(nodes: seq<Cart>, nodeids: map<Uuid, Cart>, carts: set<Cart>, rows: seq<ItemRow>)
    requires forall n :: n in nodes ==> n in carts
    requires AllHold(carts, nodeids, rows)
    requires forall i :: 0 <= i < |nodes| ==> (Owns(nodeids, nodes[i]) <==> LastWithId(nodes, i))
    ensures Loaded(nodes, rows)
  {
    forall i | 0 <= i < |nodes|
      ensures RowsOf(nodes[i].items) == if LastWithId(nodes, i) then ItemsOf(rows, nodes[i].row.id) else []
    {
      assert Holds(nodes[i], nodeids, rows);
    }
  }

  lemma IndexIsLast(nodeids: map<Uuid, Cart>, nodes: seq<Cart>)
    requires Indexes(nodeids, nodes) && NoDup(nodes)
    ensures nodeids.Keys == Ids(nodes)
    ensures forall id :: id in nodeids ==> nodeids[id] in nodes && nodeids[id].row.id == id
    ensures forall i :: 0 <= i < |nodes| ==> (Owns(nodeids, nodes[i]) <==> LastWithId(nodes, i))
  {
    forall id ensures id in nodeids <==> id in Ids(nodes)
      ensures id in nodeids ==> nodeids[id] in nodes && nodeids[id].row.id == id
    {
      LastCartHasId(nodes, id);
    }
    forall i | 0 <= i < |nodes| ensures Owns(nodeids, nodes[i]) <==> LastWithId(nodes, i) {
      LastCartIs(nodes, i);
    }
  }

  // ---------------------------------------------------------------------------------------
  // What the one-to-many load means

  lemma {:induction false} ItemsUnderLists(table: seq<ItemRow>, keep: ItemRow -> bool, lists: seq<set<Uuid>>, cart: Uuid)
    ensures ItemsOf(Matching(table, keep, CartOf, lists), cart) ==
            if forall s :: s in lists ==> cart in s then ItemsOf(Matching(table, keep, CartOf, []), cart) else []
  {
    if table != [] {
      var init, last := table[..|table| - 1], table[|table| - 1];
      assert table == init + [last];
      ItemsUnderLists(init, keep, lists, cart);
      ItemsOfNext(init, last, keep, lists, cart);
      ItemsOfNext(init, last, keep, [], cart);
      assert (forall s: set<Uuid> :: s in [] ==> cart in s);
    }
  }

  lemma ItemsOfNext(table: seq<ItemRow>, row: ItemRow, keep: ItemRow -> bool, lists: seq<set<Uuid>>, cart: Uuid)
    ensures ItemsOf(Matching(table + [row], keep, CartOf, lists), cart) ==
            ItemsOf(Matching(table, keep, CartOf, lists), cart) +
            if row.cartId == cart && keep(row) && (forall s :: s in lists ==> cart in s) then [row] else []
  {
    assert (table + [row])[..|table|] == table;
    AppendItem(Matching(table, keep, CartOf, lists), row, cart);
    assert Matching(table, keep, CartOf, lists) + [] == Matching(table, keep, CartOf, lists);
  }

  lemma AppendItem(rows: seq<ItemRow>, row: ItemRow, cart: Uuid)
    ensures ItemsOf(rows + [row], cart) == ItemsOf(rows, cart) + if row.cartId == cart then [row] else []
  {
    assert (rows + [row])[..|rows|] == rows;
  }

  /** Showing a cart's rows is taking the cart's of the shown rows, once the foreign key is selected. */
  lemma {:induction false} ItemsOfShown(fields: seq<string>, rows: seq<ItemRow>, cart: Uuid)
    requires Selects(fields, "cart_id")
    ensures ItemsOf(ShownItems(fields, rows), cart) == ShownItems(fields, ItemsOf(rows, cart))
  {
    if rows != [] {
      var init, last := rows[..|rows| - 1], rows[|rows| - 1];
      ItemsOfShown(fields, init, cart);
      ShownAppend(fields, init, last);
      ShownAppend(fields, ItemsOf(init, cart), last);
      assert rows == init + [last];
      AppendItem(init, last, cart);
      AppendItem(ShownItems(fields, init), ShownItem(fields, last), cart);
      assert ItemsOf(init, cart) + [] == ItemsOf(init, cart);
    }
  }

  lemma ShownAppend(fields: seq<string>, rows: seq<ItemRow>, row: ItemRow)
    ensures ShownItems(fields, rows + [row]) == ShownItems(fields, rows) + [ShownItem(fields, row)]
  {
  }

  /** A query without a limit that has served earlier loads: what it finds for a cart is what the cart's own
      query would, if and only if every earlier load included that cart, or it has no rows. */
  lemma ReusedQueryAgreesIff(query: EdgeQuery<ItemRow>, table: seq<ItemRow>, earlier: seq<set<Uuid>>, ids: set<Uuid>,
        cart: Uuid)
    requires query.offset == 0 && query.limit.None? && Selects(query.fields, "cart_id")
    requires query.lists == earlier + [ids] && cart in ids
    ensures var naive := ItemsOf(Matching(table, query.keep, CartOf, []), cart);
            ItemsOf(ItemsFound(query, table), cart) == ShownItems(query.fields, naive) <==>
            (forall s :: s in earlier ==> cart in s) || naive == []
  {
    ItemsUnderLists(table, query.keep, query.lists, cart);
    ItemsOfShown(query.fields, Matching(table, query.keep, CartOf, query.lists), cart);
    assert query.Selected(table, CartOf) == Matching(table, query.keep, CartOf, query.lists);
    if forall s :: s in earlier ==> cart in s {
      assert forall s :: s in query.lists ==> cart in s;
    } else {
      var s :| s in earlier && cart !in s;
      assert s in query.lists;
    }
  }

  /** A limit on the query counts over all carts: it leaves every cart its rows if and only if it does not cut. */
  lemma LimitedLoadAgreesIff(rows: seq<ItemRow>, limit: Option<nat>)
    ensures (forall cart :: ItemsOf(Window(rows, 0, limit), cart) == ItemsOf(rows, cart)) <==>
            limit.None? || limit.value == 0 || |rows| <= limit.value
  {
    if limit.Some? && 0 < limit.value < |rows| {
      CutLoses(rows, limit.value);
    } else {
      assert Window(rows, 0, limit) == rows;
    }
  }

  /** The cart of the first row cut off has fewer rows. */
  lemma CutLoses(rows: seq<ItemRow>, n: nat)
    requires n < |rows|
    ensures |ItemsOf(rows[..n], rows[n].cartId)| < |ItemsOf(rows, rows[n].cartId)|
  {
    assert rows == rows[..n] + rows[n..];
    ItemsOfSplit(rows[..n], rows[n..], rows[n].cartId);
    ItemsOfHas(rows[n..], rows[n].cartId, rows[n]);
  }

  lemma {:induction false} ItemsOfSplit(rows: seq<ItemRow>, more: seq<ItemRow>, cart: Uuid)
    ensures ItemsOf(rows + more, cart) == ItemsOf(rows, cart) + ItemsOf(more, cart)
  {
    if more == [] {
      assert rows + more == rows;
    } else {
      var init, last := more[..|more| - 1], more[|more| - 1];
      ItemsOfSplit(rows, init, cart);
      assert rows + more == (rows + init) + [last];
      AppendItem(rows + init, last, cart);
    }
  }

  lemma {:induction false} ItemsOfHas(rows: seq<ItemRow>, cart: Uuid, item: ItemRow)
    ensures item in ItemsOf(rows, cart) <==> item in rows && item.cartId == cart
  {
    if rows != [] {
      var init, last := rows[..|rows| - 1], rows[|rows| - 1];
      assert rows == init + [last];
      ItemsOfHas(init, cart, item);
    }
  }

  /** The rows of these carts, cart after cart. */
  function AllItems(rows: seq<ItemRow>, carts: seq<Uuid>): seq<ItemRow> {
    if carts == [] then [] else ItemsOf(rows, carts[0]) + AllItems(rows, carts[1..])
  }

  lemma {:induction false} AppendToAll(rows: seq<ItemRow>, row: ItemRow, all: seq<ItemRow>, carts: seq<Uuid>)
    requires NoDup(carts) && all == rows + [row]
    ensures multiset(AllItems(all, carts)) ==
            multiset(AllItems(rows, carts)) + if row.cartId in carts then multiset{row} else multiset{}
  {
    if carts != [] {
      var first, rest := carts[0], carts[1..];
      AppendToAll(rows, row, all, rest);
      AppendItem(rows, row, first);
      var more := if row.cartId == first then [row] else [];
      MultisetParts(ItemsOf(rows, first), more, AllItems(rows, rest), AllItems(all, rest));
      assert row.cartId in carts <==> row.cartId == first || row.cartId in rest by {
        assert carts == [first] + rest;
      }
      assert row.cartId == first ==> row.cartId !in rest;
    }
  }

  lemma MultisetParts<T>(a: seq<T>, more: seq<T>, b: seq<T>, c: seq<T>)
    ensures multiset(a + more + c) == multiset(a) + multiset(more) + multiset(c)
    ensures multiset(a + b) == multiset(a) + multiset(b)
  {
  }

  lemma {:induction false} NoItems(carts: seq<Uuid>)
    ensures AllItems([], carts) == []
  {
    if carts != [] {
      NoItems(carts[1..]);
    }
  }

  lemma {:induction false} AllItemsConserve(rows: seq<ItemRow>, carts: seq<Uuid>)
    requires NoDup(carts) && forall r :: r in rows ==> r.cartId in carts
    ensures multiset(AllItems(rows, carts)) == multiset(rows)
  {
    if rows == [] {
      NoItems(carts);
    } else {
      var init, last := rows[..|rows| - 1], rows[|rows| - 1];
      assert rows == init + [last];
      AllItemsConserve(init, carts);
      AppendToAll(init, last, rows, carts);
    }
  }

  /** The ids of the carts that are last with them. */
  function LastIds(nodes: seq<Cart>): (ids: seq<Uuid>)
    ensures NoDup(ids) && forall id :: id in ids <==> id in Ids(nodes)
  {
    if nodes == [] then []
    else
      var rest := LastIds(nodes[1..]);
      assert nodes == [nodes[0]] + nodes[1..];
      if nodes[0].row.id in rest then rest else [nodes[0].row.id] + rest
  }

  lemma {:induction false} GatheredIs(nodes: seq<Cart>, rows: seq<ItemRow>)
    requires Loaded(nodes, rows)
    ensures Gathered(nodes) == AllItems(rows, LastIds(nodes))
  {
    if nodes != [] {
      var rest := nodes[1..];
      forall i | 0 <= i < |rest|
        ensures RowsOf(rest[i].items) == if LastWithId(rest, i) then ItemsOf(rows, rest[i].row.id) else []
      {
        assert LastWithId(rest, i) <==> LastWithId(nodes, i + 1) by {
          assert forall j :: i < j < |rest| ==> rest[j] == nodes[j + 1];
          assert forall j :: i + 1 < j < |nodes| ==> nodes[j] == rest[j - 1];
        }
        assert rest[i] == nodes[i + 1];
      }
      GatheredIs(rest, rows);
      FirstIsLastIff(nodes);
    }
  }

  lemma FirstIsLastIff(nodes: seq<Cart>)
    requires nodes != []
    ensures LastWithId(nodes, 0) <==> nodes[0].row.id !in Ids(nodes[1..])
  {
    if n :| n in nodes[1..] && n.row.id == nodes[0].row.id {
      var j :| 0 <= j < |nodes[1..]| && nodes[1..][j] == n;
      assert nodes[j + 1] == n;
    }
    forall j | 0 < j < |nodes| ensures nodes[j] in nodes[1..] {
      assert nodes[1..][j - 1] == nodes[j];
    }
  }

  /** Loading conserves rows: every row of the result is under exactly one cart. */
  lemma LoadConserves(nodes: seq<Cart>, rows: seq<ItemRow>)
    requires Loaded(nodes, rows) && forall r :: r in rows ==> r.cartId in Ids(nodes)
    ensures multiset(Gathered(nodes)) == multiset(rows)
    ensures |Gathered(nodes)| == |rows|
  {
    GatheredIs(nodes, rows);
    AllItemsConserve(rows, LastIds(nodes));
    assert |multiset(Gathered(nodes))| == |multiset(rows)|;
  }

  // ---------------------------------------------------------------------------------------
  // Many to one: loadUser and loadCart

  /** The grouping loop of both loads: foreign keys in order of first use, and who has them. */
  method GroupBy<N(==)>(nodes: seq<N>, key: N -> Option<Uuid>) returns (ids: seq<Uuid>, groups: map<Uuid, seq<N>>)
    ensures NoDup(ids) && forall id :: id in ids <==> id in groups
    ensures forall id :: id in groups <==> exists n :: n in nodes && key(n) == Some(id)
    ensures forall id, n :: id in groups ==> (n in groups[id] <==> n in nodes && key(n) == Some(id))
  {
    ids, groups := [], map[];
    for i := 0 to |nodes|
      invariant NoDup(ids) && forall id :: id in ids <==> id in groups
      invariant forall id :: id in groups <==> exists n :: n in nodes[..i] && key(n) == Some(id)
      invariant forall id, n :: id in groups ==> (n in groups[id] <==> n in nodes[..i] && key(n) == Some(id))
    {
      assert nodes[..i + 1] == nodes[..i] + [nodes[i]];
      if key(nodes[i]).Some? {
        var fk := key(nodes[i]).value;
        if fk !in groups {
          NoDupAppend(ids, fk);
          ids := ids + [fk];
          groups := groups[fk := []];
        }
        groups := groups[fk := groups[fk] + [nodes[i]]];
      }
    }
    assert nodes[..|nodes|] == nodes;
  }

  /** The user among the query's results that has the id. */
  function FoundUser(neighbors: seq<User>, id: Option<Uuid>): (u: User?)
    ensures u != null ==> u in neighbors && Some(u.id) == id
  {
    if neighbors == [] then null
    else if Some(neighbors[|neighbors| - 1].id) == id then neighbors[|neighbors| - 1]
    else FoundUser(neighbors[..|neighbors| - 1], id)
  }

  lemma FoundUserNext(neighbors: seq<User>, k: nat, id: Option<Uuid>)
    requires k < |neighbors|
    ensures FoundUser(neighbors[..k + 1], id) ==
            if Some(neighbors[k].id) == id then neighbors[k] else FoundUser(neighbors[..k], id)
  {
    assert neighbors[..k + 1][..k] == neighbors[..k];
  }

  lemma {:induction false} FoundUserIff(neighbors: seq<User>, found: seq<Uuid>, id: Option<Uuid>)
    requires |neighbors| == |found| && forall k :: 0 <= k < |found| ==> neighbors[k].id == found[k]
    ensures FoundUser(neighbors, id) != null <==> id.Some? && id.value in found
  {
    if found != [] {
      var n := |found| - 1;
      assert found == found[..n] + [found[n]];
      FoundUserIff(neighbors[..n], found[..n], id);
    }
  }

  /** The query of loadUser: users by id. */
  method FetchUsers(query: EdgeQuery<Uuid>, ids: seq<Uuid>, table: seq<Uuid>) returns (neighbors: seq<User>)
    modifies query`lists
    ensures query.lists == old(query.lists) + [Elements(ids)]
    ensures forall n :: n in neighbors ==> fresh(n) && n.id in ids
    ensures |neighbors| == |query.Selected(table, Same)|
    ensures forall k :: 0 <= k < |neighbors| ==> neighbors[k].id == query.Selected(table, Same)[k]
  {
    var wanted := Elements(ids);
    query.lists := query.lists + [wanted];
    var found := query.Selected(table, Same);
    SelectedIn(query, table, Same);
    assert wanted in query.lists;
    neighbors := [];
    for k := 0 to |found|
      invariant query.lists == old(query.lists) + [wanted]
      invariant |neighbors| == k && forall n :: n in neighbors ==> fresh(n) && n.id in ids
      invariant forall i :: 0 <= i < k ==> neighbors[i].id == found[i]
    {
      assert found[k] in found && Same(found[k]) in wanted;
      var n := new User(found[k]);
      neighbors := neighbors + [n];
    }
  }

  /** The foreign keys in use. */
  function UserIds(nodes: seq<Cart>): set<Uuid> {
    set n | n in nodes && n.row.userId.Some? :: n.row.userId.value
  }

  /** A group is exactly the carts with its key. */
  ghost predicate CartGroup(groups: map<Uuid, seq<Cart>>, nodes: set<Cart>, id: Uuid) {
    id in groups ==>
      && (forall n :: n in groups[id] ==> n in nodes && n.row.userId == Some(id))
      && (forall n :: n in nodes && n.row.userId == Some(id) ==> n in groups[id])
  }

  /** The cart's user is the one found for it, if any, otherwise the one it had. */
  ghost predicate UserGiven(n: Cart, neighbors: seq<User>, was: User?) reads n {
    n.user == if FoundUser(neighbors, n.row.userId) != null then FoundUser(neighbors, n.row.userId) else was
  }

  /** The assignment loops of loadUser. */
  method AssignUsers(neighbors: seq<User>, groups: map<Uuid, seq<Cart>>, ghost nodes: set<Cart>)
    returns (err: Option<string>)
    requires forall id :: CartGroup(groups, nodes, id)
    modifies nodes`user
    ensures err.None? <==> forall k :: 0 <= k < |neighbors| ==> neighbors[k].id in groups
    ensures err.None? ==> forall n :: n in nodes ==> UserGiven(n, neighbors, old(n.user))
  {
    for k := 0 to |neighbors|
      invariant forall i :: 0 <= i < k ==> neighbors[i].id in groups
      invariant forall n :: n in nodes ==> UserGiven(n, neighbors[..k], old(n.user))
    {
      if neighbors[k].id !in groups {
        return Some("unexpected foreign-key");
      }
      var group := groups[neighbors[k].id];
      assert CartGroup(groups, nodes, neighbors[k].id);
      label before:
      SetUser(group, neighbors[k]);
      forall n | n in nodes ensures UserGiven(n, neighbors[..k + 1], old(n.user)) {
        FoundUserNext(neighbors, k, n.row.userId);
        var was := old(n.user);
        assert old@before(UserGiven(n, neighbors[..k], was));
      }
    }
    assert neighbors[..|neighbors|] == neighbors;
    err := None;
  }

  method SetUser(group: seq<Cart>, value: User)
    modifies group`user
    ensures forall n :: n in group ==> n.user == value
  {
    for i := 0 to |group|
      invariant forall k :: 0 <= k < i ==> group[k].user == value
    {
      group[i].user := value;
    }
  }

  method GroupCarts(nodes: seq<Cart>) returns (ids: seq<Uuid>, groups: map<Uuid, seq<Cart>>)
    ensures NoDup(ids) && Elements(ids) == UserIds(nodes) == groups.Keys
    ensures forall id :: CartGroup(groups, Elements(nodes), id)
  {
    var key := (n: Cart) => n.row.userId;
    ids, groups := GroupBy(nodes, key);
    forall id ensures CartGroup(groups, Elements(nodes), id) {
      assert forall n :: n in nodes ==> key(n) == n.row.userId;
    }
    forall id ensures id in UserIds(nodes) <==> id in groups {
      if n :| n in nodes && n.row.userId == Some(id) {
        assert key(n) == Some(id);
      }
      if n :| n in nodes && key(n) == Some(id) {
        assert n.row.userId == Some(id);
      }
    }
  }

  /** The query finds the user of the cart. */
  predicate FindsUser(query: EdgeQuery<Uuid>, table: seq<Uuid>, userId: Option<Uuid>) reads query {
    userId.Some? && userId.value in query.Selected(table, Same)
  }

  /** loadUser: carts are grouped by user, each user is fetched once, and every cart whose user the query finds
      gets that user, the same object for the same id; the others keep theirs. The error branch cannot be
      reached. */
  method LoadUser(query: EdgeQuery<Uuid>, nodes: seq<Cart>, table: seq<Uuid>) returns (err: Option<string>)
    modifies query`lists, nodes`user
    ensures err.None?
    ensures query.lists == if UserIds(nodes) == {} then old(query.lists) else old(query.lists) + [UserIds(nodes)]
    ensures forall n :: n in nodes && FindsUser(query, table, n.row.userId) ==>
              n.user != null && Some(n.user.id) == n.row.userId
    ensures forall n, m :: n in nodes && m in nodes && FindsUser(query, table, n.row.userId) && n.row.userId == m.row.userId ==>
              n.user == m.user
    ensures forall n :: n in nodes && !FindsUser(query, table, n.row.userId) ==> n.user == old(n.user)
  {
    var ids, groups := GroupCarts(nodes);
    assert forall n :: n in nodes && n.row.userId.Some? ==> n.row.userId.value in UserIds(nodes);
    if |ids| == 0 {
      return None;
    }
    assert ids[0] in Elements(ids);
    var neighbors := FetchUsers(query, ids, table);
    ghost var carts := Elements(nodes);
    assert forall n :: n in neighbors ==> n.id in Elements(ids);
    err := AssignUsers(neighbors, groups, carts);
    forall n | n in nodes
      ensures n in carts && (FoundUser(neighbors, n.row.userId) != null <==> FindsUser(query, table, n.row.userId))
    {
      FoundUserIff(neighbors, query.Selected(table, Same), n.row.userId);
    }
  }

  /** The cart among the query's results that has the id. */
  function FoundCart(neighbors: seq<Cart>, id: Uuid): (c: Cart?)
    ensures c != null ==> c in neighbors && c.row.id == id
  {
    if neighbors == [] then null
    else if neighbors[|neighbors| - 1].row.id == id then neighbors[|neighbors| - 1]
    else FoundCart(neighbors[..|neighbors| - 1], id)
  }

  ghost predicate HasCart(found: seq<CartRow>, id: Uuid) { exists r :: r in found && r.id == id }

  /** The row shows one of the found carts with the id. */
  ghost predicate ShowsOne(found: seq<CartRow>, fields: seq<string>, id: Uuid, row: CartRow) {
    exists r :: r in found && r.id == id && row == ShownCart(fields, false, r)
  }

  lemma FoundCartNext(neighbors: seq<Cart>, k: nat, id: Uuid)
    requires k < |neighbors|
    ensures FoundCart(neighbors[..k + 1], id) ==
            if neighbors[k].row.id == id then neighbors[k] else FoundCart(neighbors[..k], id)
  {
    assert neighbors[..k + 1][..k] == neighbors[..k];
  }

  lemma {:induction false} FoundCartIff(neighbors: seq<Cart>, found: seq<CartRow>, fields: seq<string>, id: Uuid)
    requires |neighbors| == |found|
    requires forall k :: 0 <= k < |found| ==> neighbors[k].row == ShownCart(fields, false, found[k])
    ensures FoundCart(neighbors, id) != null <==> HasCart(found, id)
    ensures FoundCart(neighbors, id) != null ==> ShowsOne(found, fields, id, FoundCart(neighbors, id).row)
  {
    if found != [] {
      var n := |found| - 1;
      assert found == found[..n] + [found[n]];
      FoundCartIff(neighbors[..n], found[..n], fields, id);
    }
  }

  /** The query of loadCart: carts by id. */
  method FetchCarts(query: EdgeQuery<CartRow>, ids: seq<Uuid>, table: seq<CartRow>) returns (neighbors: seq<Cart>)
    modifies query`lists
    ensures query.lists == old(query.lists) + [Elements(ids)]
    ensures forall n :: n in neighbors ==> fresh(n) && n.row.id in ids
    ensures |neighbors| == |query.Selected(table, IdOf)|
    ensures forall k :: 0 <= k < |neighbors| ==>
              neighbors[k].row == ShownCart(query.fields, false, query.Selected(table, IdOf)[k])
  {
    var wanted := Elements(ids);
    query.lists := query.lists + [wanted];
    var found := query.Selected(table, IdOf);
    SelectedIn(query, table, IdOf);
    assert wanted in query.lists;
    neighbors := [];
    for k := 0 to |found|
      invariant query.lists == old(query.lists) + [wanted]
      invariant |neighbors| == k && forall n :: n in neighbors ==> fresh(n) && n.row.id in ids
      invariant forall i :: 0 <= i < k ==> neighbors[i].row == ShownCart(query.fields, false, found[i])
    {
      assert found[k] in found && IdOf(found[k]) in wanted;
      var n := new Cart(ShownCart(query.fields, false, found[k]));
      neighbors := neighbors + [n];
    }
  }

  function CartIds(nodes: seq<CartItem>): set<Uuid> { set n | n in nodes :: n.row.cartId }

  ghost predicate ItemGroup(groups: map<Uuid, seq<CartItem>>, nodes: set<CartItem>, id: Uuid) {
    id in groups ==>
      && (forall n :: n in groups[id] ==> n in nodes && n.row.cartId == id)
      && (forall n :: n in nodes && n.row.cartId == id ==> n in groups[id])
  }

  ghost predicate CartGiven(n: CartItem, neighbors: seq<Cart>, was: Cart?) reads n {
    n.cart == if FoundCart(neighbors, n.row.cartId) != null then FoundCart(neighbors, n.row.cartId) else was
  }

  /** The assignment loops of loadCart. */
  method AssignCarts(neighbors: seq<Cart>, groups: map<Uuid, seq<CartItem>>, ghost nodes: set<CartItem>)
    returns (err: Option<string>)
    requires forall id :: ItemGroup(groups, nodes, id)
    modifies nodes`cart
    ensures err.None? <==> forall k :: 0 <= k < |neighbors| ==> neighbors[k].row.id in groups
    ensures err.None? ==> forall n :: n in nodes ==> CartGiven(n, neighbors, old(n.cart))
  {
    for k := 0 to |neighbors|
      invariant forall i :: 0 <= i < k ==> neighbors[i].row.id in groups
      invariant forall n :: n in nodes ==> CartGiven(n, neighbors[..k], old(n.cart))
    {
      if neighbors[k].row.id !in groups {
        return Some("unexpected foreign-key");
      }
      var group := groups[neighbors[k].row.id];
      assert ItemGroup(groups, nodes, neighbors[k].row.id);
      label before:
      SetCart(group, neighbors[k]);
      forall n | n in nodes ensures CartGiven(n, neighbors[..k + 1], old(n.cart)) {
        FoundCartNext(neighbors, k, n.row.cartId);
        var was := old(n.cart);
        assert old@before(CartGiven(n, neighbors[..k], was));
      }
    }
    assert neighbors[..|neighbors|] == neighbors;
    err := None;
  }

  method SetCart(group: seq<CartItem>, value: Cart)
    modifies group`cart
    ensures forall n :: n in group ==> n.cart == value
  {
    for i := 0 to |group|
      invariant forall k :: 0 <= k < i ==> group[k].cart == value
    {
      group[i].cart := value;
    }
  }

  method GroupItems(nodes: seq<CartItem>) returns (ids: seq<Uuid>, groups: map<Uuid, seq<CartItem>>)
    ensures NoDup(ids) && Elements(ids) == CartIds(nodes) == groups.Keys
    ensures forall id :: ItemGroup(groups, Elements(nodes), id)
  {
    var key := (n: CartItem) => Some(n.row.cartId);
    ids, groups := GroupBy(nodes, key);
    forall id ensures ItemGroup(groups, Elements(nodes), id) {
      assert forall n :: n in nodes ==> key(n) == Some(n.row.cartId);
    }
    forall id ensures id in CartIds(nodes) <==> id in groups {
      if n :| n in nodes && n.row.cartId == id {
        assert key(n) == Some(id);
      }
      if n :| n in nodes && key(n) == Some(id) {
        assert n.row.cartId == id;
      }
    }
  }

  /** The query finds the cart with the id. */
  ghost predicate FindsCart(query: EdgeQuery<CartRow>, table: seq<CartRow>, id: Uuid) reads query {
    HasCart(query.Selected(table, IdOf), id)
  }

  /** loadCart: the same for the cart of an item. */
  method LoadCart(query: EdgeQuery<CartRow>, nodes: seq<CartItem>, table: seq<CartRow>) returns (err: Option<string>)
    modifies query`lists, nodes`cart
    ensures err.None?
    ensures query.lists == if nodes == [] then old(query.lists) else old(query.lists) + [CartIds(nodes)]
    ensures forall n :: n in nodes && FindsCart(query, table, n.row.cartId) ==>
              n.cart != null && ShowsOne(query.Selected(table, IdOf), query.fields, n.row.cartId, n.cart.row)
    ensures forall n, m :: n in nodes && m in nodes && FindsCart(query, table, n.row.cartId) && n.row.cartId == m.row.cartId ==>
              n.cart == m.cart
    ensures forall n :: n in nodes && !FindsCart(query, table, n.row.cartId) ==> n.cart == old(n.cart)
  {
    var ids, groups := GroupItems(nodes);
    assert forall n :: n in nodes ==> n.row.cartId in CartIds(nodes);
    assert nodes != [] ==> nodes[0].row.cartId in CartIds(nodes);
    if |ids| == 0 {
      return None;
    }
    assert ids[0] in Elements(ids);
    var neighbors := FetchCarts(query, ids, table);
    ghost var items := Elements(nodes);
    assert forall n :: n in neighbors ==> n.row.id in Elements(ids);
    err := AssignCarts(neighbors, groups, items);
    var found := query.Selected(table, IdOf);
    forall n | n in nodes
      ensures n in items && (FoundCart(neighbors, n.row.cartId) != null <==> FindsCart(query, table, n.row.cartId))
      ensures FoundCart(neighbors, n.row.cartId) != null ==>
        ShowsOne(found, query.fields, n.row.cartId, FoundCart(neighbors, n.row.cartId).row)
    {
      FoundCartIff(neighbors, found, query.fields, n.row.cartId);
    }
  }

  // ---------------------------------------------------------------------------------------
  // Both directions of one edge

  /** The cart and the item name each other: the item's row is among the cart's, the cart's row is the item's. */
  ghost predicate Lists(cart: Cart, item: CartItem) reads cart {
    item.row in RowsOf(cart.items)
  }

  ghost predicate Names(item: CartItem, cart: Cart) reads item {
    item.cart != null && item.cart.row.id == cart.row.id
  }

  ghost predicate DistinctIds(nodes: seq<Cart>) {
    forall i, j :: 0 <= i < j < |nodes| ==> nodes[i].row.id != nodes[j].row.id
  }

  lemma {:induction false} ListsIff(nodes: seq<Cart>, rows: seq<ItemRow>, cart: Cart, item: CartItem)
    requires DistinctIds(nodes) && Loaded(nodes, rows) && cart in nodes
    ensures Lists(cart, item) <==> item.row in rows && item.row.cartId == cart.row.id
  {
    var i :| 0 <= i < |nodes| && nodes[i] == cart;
    assert LastWithId(nodes, i);
    ItemsOfHas(rows, cart.row.id, item.row);
  }

  /** Exactly when the cart lists the item, exactly when the item names the cart, and so exactly when the two
      agree: unless the item is the cart's and one query let the pair through and the other did not. */
  ghost predicate PairExact(cart: Cart, item: CartItem, found: seq<ItemRow>, carts: seq<CartRow>)
    reads cart, item
  {
    var both := item.row.cartId == cart.row.id;
    && (Lists(cart, item) <==> both && item.row in found)
    && (Names(item, cart) <==> both && HasCart(carts, cart.row.id))
    && ((Lists(cart, item) <==> Names(item, cart)) <==>
        (both ==> (item.row in found <==> HasCart(carts, cart.row.id))))
  }

  /** The two loads of the edge on the same data, whatever the queries select, limit or still carry. */
  method LoadBothWays(toItems: EdgeQuery<ItemRow>, toCart: EdgeQuery<CartRow>, nodes: seq<Cart>, items: seq<CartItem>,
        itemTable: seq<ItemRow>, cartTable: seq<CartRow>)
    returns (err: Option<string>)
    requires NoDup(nodes) && DistinctIds(nodes) && forall n :: n in items ==> n.cart == null
    modifies toItems, toCart, nodes`items, items`cart
    ensures err.None?
    ensures toItems.lists == old(toItems.lists) + [Ids(nodes)] && toItems.fields == WithKey(old(toItems.fields))
    ensures toCart.lists == if items == [] then old(toCart.lists) else old(toCart.lists) + [CartIds(items)]
    ensures toCart.fields == old(toCart.fields)
    ensures forall c, n :: c in nodes && n in items ==>
      PairExact(c, n, ItemsFound(toItems, itemTable), toCart.Selected(cartTable, IdOf))
    ensures forall n :: n in items && n.cart != null ==>
      ShowsOne(toCart.Selected(cartTable, IdOf), toCart.fields, n.row.cartId, n.cart.row)
  {
    err := LoadLists(toItems, nodes, itemTable, items);
    if err.Some? {
      return;
    }
    err := LoadNames(toCart, items, cartTable, nodes);
  }

  method LoadLists(toItems: EdgeQuery<ItemRow>, nodes: seq<Cart>, itemTable: seq<ItemRow>, ghost items: seq<CartItem>)
    returns (err: Option<string>)
    requires NoDup(nodes) && DistinctIds(nodes)
    modifies toItems, nodes`items
    ensures err.None?
    ensures toItems.lists == old(toItems.lists) + [Ids(nodes)] && toItems.fields == WithKey(old(toItems.fields))
    ensures forall c, n :: c in nodes && n in items ==>
      (Lists(c, n) <==> n.row.cartId == c.row.id && n.row in ItemsFound(toItems, itemTable))
  {
    err := LoadItems(toItems, nodes, itemTable);
    forall c, n | c in nodes && n in items
      ensures Lists(c, n) <==> n.row.cartId == c.row.id && n.row in ItemsFound(toItems, itemTable)
    {
      ListsIff(nodes, ItemsFound(toItems, itemTable), c, n);
    }
  }

  method LoadNames(toCart: EdgeQuery<CartRow>, items: seq<CartItem>, cartTable: seq<CartRow>, ghost nodes: seq<Cart>)
    returns (err: Option<string>)
    requires forall n :: n in items ==> n.cart == null
    modifies toCart`lists, items`cart
    ensures err.None?
    ensures toCart.lists == if items == [] then old(toCart.lists) else old(toCart.lists) + [CartIds(items)]
    ensures forall c, n :: c in nodes && n in items ==>
      (Names(n, c) <==> n.row.cartId == c.row.id && HasCart(toCart.Selected(cartTable, IdOf), c.row.id))
    ensures forall n :: n in items && n.cart != null ==>
      ShowsOne(toCart.Selected(cartTable, IdOf), toCart.fields, n.row.cartId, n.cart.row)
  {
    err := LoadCart(toCart, items, cartTable);
    forall c, n | c in nodes && n in items
      ensures Names(n, c) <==> n.row.cartId == c.row.id && HasCart(toCart.Selected(cartTable, IdOf), c.row.id)
    {
      assert FindsCart(toCart, cartTable, n.row.cartId) <==> HasCart(toCart.Selected(cartTable, IdOf), n.row.cartId);
    }
  }

  predicate Unrestricted<T(!new)>(query: EdgeQuery<T>) reads query {
    query.offset == 0 && query.limit.None? && query.fields == [] && query.lists == []
  }

  /** With queries that carry no conditions but their own, over the rows they let through: a row is under a cart
      if and only if the item of that row has that cart. */
  method LoadInverse(toItems: EdgeQuery<ItemRow>, toCart: EdgeQuery<CartRow>, nodes: seq<Cart>, items: seq<CartItem>,
        itemTable: seq<ItemRow>, cartTable: seq<CartRow>)
    returns (err: Option<string>)
    requires NoDup(nodes) && DistinctIds(nodes) && forall n :: n in items ==> n.cart == null
    requires Unrestricted(toItems) && Unrestricted(toCart)
    requires forall r, q :: r in cartTable && q in cartTable && r.id == q.id ==> r == q
    requires forall n :: n in items ==> n.row in itemTable && toItems.keep(n.row)
    requires forall c :: c in nodes ==> c.row in cartTable && toCart.keep(c.row)
    modifies toItems, toCart, nodes`items, items`cart
    ensures err.None?
    ensures forall c, n :: c in nodes && n in items ==>
      (n.row in RowsOf(c.items) <==> n.cart != null && n.cart.row == c.row)
  {
    err := LoadBothWays(toItems, toCart, nodes, items, itemTable, cartTable);
    SelectedIn(toItems, itemTable, CartOf);
    SelectedIn(toCart, cartTable, IdOf);
    forall c, n | c in nodes && n in items
      ensures n.row in RowsOf(c.items) <==> n.cart != null && n.cart.row == c.row
    {
      assert PairExact(c, n, ItemsFound(toItems, itemTable), toCart.Selected(cartTable, IdOf));
      if n.row.cartId == c.row.id {
        ItemFound(toItems, itemTable, Ids(nodes), n.row);
        CartFound(toCart, cartTable, CartIds(items), c.row);
      }
    }
  }

  lemma ItemFound(query: EdgeQuery<ItemRow>, table: seq<ItemRow>, ids: set<Uuid>, row: ItemRow)
    requires query.offset == 0 && query.limit.None? && query.fields == [] && query.lists == [ids]
    requires row in table && query.keep(row) && row.cartId in ids
    ensures row in ItemsFound(query, table)
  {
    SelectedIn(query, table, CartOf);
    assert CartOf(row) in ids;
    var rows := query.Selected(table, CartOf);
    var k :| 0 <= k < |rows| && rows[k] == row;
    assert ShownItem([], row) == row;
    assert ItemsFound(query, table)[k] == row;
  }

  lemma CartFound(query: EdgeQuery<CartRow>, table: seq<CartRow>, ids: set<Uuid>, row: CartRow)
    requires query.offset == 0 && query.limit.None? && query.fields == [] && query.lists == [ids]
    requires row in table && query.keep(row) && row.id in ids
    requires forall r, q :: r in table && q in table && r.id == q.id ==> r == q
    ensures HasCart(query.Selected(table, IdOf), row.id)
    ensures forall shown :: ShowsOne(query.Selected(table, IdOf), query.fields, row.id, shown) ==> shown == row
  {
    SelectedIn(query, table, IdOf);
    assert IdOf(row) in ids;
    assert ShownCart([], false, row) == row;
  }
}
