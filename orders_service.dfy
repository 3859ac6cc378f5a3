/** The orders service's request handlers (orders/orders.py:224-506), over a
    store of orders kept in memory in place of the `orders` table. The product
    and user lookups are OrdersFetch.GetByIds; the remote services' answers are
    parameters. Prices and totals are integers. */
module OrdersService {
  import opened Text
  import opened TtlCache
  import opened OrdersCodec
  import opened OrdersFetch
  import opened RequestValues

  /** A row of the `orders` table, without its id. */
  datatype Order = Order(userId: int, productIds: string, total: int, status: string)

  /** The JSON reply of a handler and its HTTP status. */
  datatype Reply =
    | Created(message: string, id: int, total: int)   // 201
    | Done(message: string)                            // 200
    | Failed(code: int, error: string)

  /** The outcome of a chain of request checks. */
  datatype Checked<T> = Pass(value: T) | Reject(reply: Reply)

  const InvalidFormat: string := "Invalid data format"
  const UserIdNotPositive: string := "User ID must be positive"
  const NoProducts: string := "Please select at least one product"
  const IdNotPositive: string := "ID must be positive"
  const IdTaken: string := "ID already exists"
  const NotFound: string := "Order not found"
  /** The text of an uncaught Python exception (here only `int(None)`); its exact wording is not modelled. */
  const InternalError: string := "internal error"

  /** The status a new order gets. */
  const Pending: string := "Pending"

  /** The auto-increment ids stay above every stored id: the table's identity counter. */
  predicate IdsBelow(orders: map<int, Order>, lastId: int) {
    lastId >= 0 && forall id :: id in orders ==> 1 <= id <= lastId
  }

  // ---- create_order ----

  /** The body of `POST /orders`: `user_id`, `product_ids` (a list, a
      comma-separated string, or null; [] when absent) and an optional `id`. */
  datatype CreateRequest = CreateRequest(userId: Json, productIds: IdsField, id: Json)

  /** The product ids as `create_order` first reads them: a string is parsed,
      a list is kept, null stays empty. */
  function RequestedIds(f: IdsField): Option<seq<int>> {
    match f
    case IdsText(_) => ParseProductIdsField(f)
    case IdsList(l) => Some(l)
    case NoIds => Some([])
  }

  /** The checks `create_order` makes before it looks the products up, in its
      order: the product string parses, the user id is given and positive, the
      product list is not empty. */
  function CreateCheck(req: CreateRequest): Checked<(int, seq<int>)> {
    var ids := RequestedIds(req.productIds);
    if ids.None? then Reject(Failed(400, InvalidFormat))
    else if !Truthy(req.userId) then Reject(Failed(400, UserIdNotPositive))
    else
      match PyIntOf(req.userId)
      case IsInt(uid) =>
        if uid <= 0 then Reject(Failed(400, UserIdNotPositive))
        else if ids.value == [] then Reject(Failed(400, NoProducts))
        else Pass((uid, ids.value))
      case _ => Reject(Failed(400, InvalidFormat))
  }

  /** What one product adds to the total: its price when the lookup found it
      with a price, otherwise nothing. */
  function PriceOf(prods: map<int, Cached>, pid: int): int {
    if pid in prods && prods[pid].Some? && prods[pid].value.price.Some? then prods[pid].value.price.value else 0
  }

  /** The order total: the prices of the listed products, a product listed
      twice counting twice. */
  function OrderTotal(prods: map<int, Cached>, ids: seq<int>): int {
    if ids == [] then 0 else OrderTotal(prods, ids[..|ids| - 1]) + PriceOf(prods, ids[|ids| - 1])
  }

  /** The store after `create_order` has its user, products and total: the id
      check and the insert. A falsy `id` asks for the next identity value; a
      given one must be a positive integer not yet used, and moves the identity
      counter up to it. */
  function CreateEffect(orders: map<int, Order>, lastId: int, uid: int, ids: seq<int>, total: int, customId: Json)
    : (Reply, map<int, Order>, int)
  {
    var row := Order(uid, ProductListToField(ids), total, Pending);
    if !Truthy(customId) then
      (Created("Order created", lastId + 1, total), orders[lastId + 1 := row], lastId + 1)
    else
      match PyIntOf(customId)
      case IsInt(cid) =>
        if cid <= 0 then (Failed(400, IdNotPositive), orders, lastId)
        else if cid in orders then (Failed(409, IdTaken), orders, lastId)
        else (Created("Order created with custom ID", cid, total), orders[cid := row], if cid > lastId then cid else lastId)
      case _ => (Failed(400, InvalidFormat), orders, lastId)
  }

  /** The loop of `create_order` and `update_order` that adds up the prices. */
  method SumPrices(prods: map<int, Cached>, ids: seq<int>) returns (total: int)
    ensures total == OrderTotal(prods, ids)
  {
    total := 0;
    var i := 0;
    while i < |ids|
      invariant 0 <= i <= |ids|
      invariant total == OrderTotal(prods, ids[..i])
    {
      assert ids[..i + 1][..i] == ids[..i];
      total := total + PriceOf(prods, ids[i]);
      i := i + 1;
    }
    assert ids[..i] == ids;
  }

  // ---- list_orders ----

  /** The `search` filter of `list_orders`: blank keeps every order, an
      integer keeps the orders with that id or that user id, anything else
      keeps every order. */
  predicate Listed(id: int, o: Order, search: string) {
    var t := Strip(search);
    t == "" || PyInt(t).None? || id == PyInt(t).value || o.userId == PyInt(t).value
  }

  function ListOrders(orders: map<int, Order>, search: string): (r: map<int, Order>)
    ensures forall id :: id in r ==> id in orders && r[id] == orders[id]
  {
    map id | id in orders && Listed(id, orders[id], search) :: orders[id]
  }

  /** One entry of `product_list` in a listed order. */
  datatype ProductInfo = ProductInfo(id: int, name: Option<string>, price: Option<int>)

  /** The `product_list` of a listed order: one entry per stored id, in order,
      with the product's name and price when the lookup found it. */
  function ProductInfos(products: map<int, Cached>, pids: seq<int>): (r: seq<ProductInfo>)
    ensures |r| == |pids|
    ensures forall i :: 0 <= i < |pids| ==> r[i].id == pids[i]
    ensures forall i :: 0 <= i < |pids| && !(pids[i] in products && products[pids[i]].Some?) ==>
      r[i].name == None && r[i].price == None
    ensures forall i :: 0 <= i < |pids| && pids[i] in products && products[pids[i]].Some? ==>
      r[i].name == products[pids[i]].value.name && r[i].price == products[pids[i]].value.price
  {
    if pids == [] then []
    else
      var pid := pids[0];
      var info := if pid in products && products[pid].Some?
        then ProductInfo(pid, products[pid].value.name, products[pid].value.price)
        else ProductInfo(pid, None, None);
      [info] + ProductInfos(products, pids[1..])
  }

  /** The `user_name` of a listed order: the user's name when the lookup found
      the user, "Unknown" otherwise. */
  function UserNameOf(users: map<int, Cached>, uid: int): (r: Option<string>)
    ensures !(uid in users && users[uid].Some?) ==> r == Some("Unknown")
    ensures uid in users && users[uid].Some? ==> r == users[uid].value.name
  {
    if uid in users && users[uid].Some? then users[uid].value.name else Some("Unknown")
  }

  /** An order as `get_order` and `list_orders` show it: the stored row with
      its products' names and prices and its user's name. */
  datatype OrderView = OrderView(id: int, userId: int, userName: Option<string>, productIds: string,
                                 productList: seq<ProductInfo>, total: int, status: string)

  function OrderViewOf(id: int, o: Order, pids: seq<int>, products: map<int, Cached>, users: map<int, Cached>): OrderView {
    OrderView(id, o.userId, UserNameOf(users, o.userId), o.productIds, ProductInfos(products, pids), o.total, o.status)
  }

  /** The answer of `get_order`: the order's view, or an error reply. */
  datatype Lookup = Found(view: OrderView) | NotThere(reply: Reply)

  /** The view of an order stored from a product list lists those products,
      in their order, each with what the lookup found for it. */
  lemma StoredOrderView(id: int, o: Order, ids: seq<int>, products: map<int, Cached>, users: map<int, Cached>)
    requires o.productIds == ProductListToField(ids)
    ensures ParseProductIdsField(IdsText(o.productIds)) == Some(ids)
    ensures var v := OrderViewOf(id, o, ids, products, users);
      |v.productList| == |ids| &&
      (forall i :: 0 <= i < |ids| ==> v.productList[i].id == ids[i]) &&
      (forall i :: 0 <= i < |ids| && ids[i] in products && products[ids[i]].Some? ==>
        v.productList[i].name == products[ids[i]].value.name && v.productList[i].price == products[ids[i]].value.price)
  {
    ProductIdsRoundTrip(ids);
  }

  // ---- update_order (the branch that keeps the id) ----

  /** The body of `PUT /orders/<id>`: each field is absent (None) or given. */
  datatype UpdateRequest = UpdateRequest(userId: Option<Json>, productIds: Option<IdsField>, status: Option<string>)

  /** The checks of an in-place update, in the handler's order: `int(user_id)`
      when given (a ValueError is a 400, `int(None)` an uncaught 500), then the
      product ids when given (a list as it is, anything else parsed). */
  function UpdateCheck(req: UpdateRequest): Checked<(Option<int>, Option<seq<int>>)> {
    var uid: Checked<Option<int>> :=
      if req.userId.None? then Pass(None)
      else match PyIntOf(req.userId.value)
        case IsInt(n) => Pass(Some(n))
        case ValueError => Reject(Failed(400, InvalidFormat))
        case TypeError => Reject(Failed(500, InternalError));
    if uid.Reject? then Reject(uid.reply)
    else if req.productIds.None? then Pass((uid.value, None))
    else
      match ParseProductIdsField(req.productIds.value)
      case None => Reject(Failed(400, InvalidFormat))
      case Some(ids) => Pass((uid.value, Some(ids)))
  }

  /** The row after an in-place update: a field changes exactly when the
      request gives it; a new product list brings its new total. */
  function UpdatedOrder(o: Order, uid: Option<int>, products: Option<(seq<int>, int)>, status: Option<string>): (r: Order)
    ensures r.userId == (if uid.Some? then uid.value else o.userId)
    ensures r.productIds == (if products.Some? then ProductListToField(products.value.0) else o.productIds)
    ensures r.total == (if products.Some? then products.value.1 else o.total)
    ensures r.status == (if status.Some? then status.value else o.status)
  {
    var o1 := if uid.Some? then o.(userId := uid.value) else o;
    var o2 := if products.Some? then o1.(productIds := ProductListToField(products.value.0), total := products.value.1) else o1;
    if status.Some? then o2.(status := status.value) else o2
  }

  /** The `orders` table and its identity counter. */
  class OrderStore {
    var orders: map<int, Order>
    var lastId: int

    ghost predicate Valid()
      reads this
    {
      IdsBelow(orders, lastId)
    }

    constructor ()
      ensures orders == map[] && lastId == 0 && Valid()
    {
      orders := map[];
      lastId := 0;
    }

    /** `create_order`: the checks, the product lookup, the total and the insert.
        A request rejected before the lookup leaves the cache alone; one
        rejected at the id check has already filled it. */
    method CreateOrder(cache: Cache<Key, Cached>, req: CreateRequest, now: int,
                       batch: Option<map<int, Doc>>, single: map<int, Doc>)
      returns (reply: Reply)
      requires Valid()
      modifies this, cache
      ensures Valid()
      ensures CreateCheck(req).Reject? ==>
        reply == CreateCheck(req).reply && orders == old(orders) && lastId == old(lastId) && cache.entries == old(cache.entries)
      ensures CreateCheck(req).Pass? ==>
        var uid := CreateCheck(req).value.0;
        var ids := CreateCheck(req).value.1;
        var prods := Answer(old(cache.entries), Product, Elems(ids), now, batch, single);
        cache.entries == old(cache.entries) + FreshEntries(Product, Misses(old(cache.entries), Product, Elems(ids), now), batch, single, now) &&
        (reply, orders, lastId) == CreateEffect(old(orders), old(lastId), uid, ids, OrderTotal(prods, ids), req.id)
    {
      var checked := CreateCheck(req);
      if checked.Reject? {
        return checked.reply;
      }
      var uid := checked.value.0;
      var ids := checked.value.1;
      var prods, _ := GetByIds(cache, Product, ids, now, batch, single);
      var total := SumPrices(prods, ids);
      reply := Insert(uid, ids, total, req.id);
    }

    /** The end of `create_order`: the id check and the insert of a "Pending" row. */
    method Insert(uid: int, ids: seq<int>, total: int, customId: Json) returns (reply: Reply)
      requires Valid()
      modifies this
      ensures Valid()
      ensures (reply, orders, lastId) == CreateEffect(old(orders), old(lastId), uid, ids, total, customId)
    {
      CreateKeepsIdsBelow(orders, lastId, uid, ids, total, customId);
      var row := Order(uid, ProductListToField(ids), total, Pending);
      if !Truthy(customId) {
        lastId := lastId + 1;
        orders := orders[lastId := row];
        return Created("Order created", lastId, total);
      }
      var conv := PyIntOf(customId);
      if !conv.IsInt? {
        return Failed(400, InvalidFormat);
      }
      var cid := conv.n;
      if cid <= 0 {
        return Failed(400, IdNotPositive);
      }
      if cid in orders {
        return Failed(409, IdTaken);
      }
      orders := orders[cid := row];
      if cid > lastId {
        lastId := cid;
      }
      reply := Created("Order created with custom ID", cid, total);
    }

    /** `get_order`: 404 for an unknown id; otherwise the stored product list is
        read (a malformed one is an uncaught error), its products are looked
        up when there are any, then the order's user. */
    method GetOrder(cache: Cache<Key, Cached>, id: int, now: int,
                    productBatch: Option<map<int, Doc>>, productSingle: map<int, Doc>,
                    userBatch: Option<map<int, Doc>>, userSingle: map<int, Doc>)
      returns (r: Lookup)
      modifies cache
      ensures id !in orders ==> r == NotThere(Failed(404, NotFound)) && cache.entries == old(cache.entries)
      ensures id in orders && ParseProductIdsField(IdsText(orders[id].productIds)).None? ==>
        r == NotThere(Failed(500, InternalError)) && cache.entries == old(cache.entries)
      ensures id in orders && ParseProductIdsField(IdsText(orders[id].productIds)).Some? ==>
        var o := orders[id];
        var pids := ParseProductIdsField(IdsText(o.productIds)).value;
        var e0 := old(cache.entries);
        var prods := if pids == [] then map[] else Answer(e0, Product, Elems(pids), now, productBatch, productSingle);
        var e1 := if pids == [] then e0 else e0 + FreshEntries(Product, Misses(e0, Product, Elems(pids), now), productBatch, productSingle, now);
        var users := Answer(e1, User, Elems([o.userId]), now, userBatch, userSingle);
        r == Found(OrderViewOf(id, o, pids, prods, users)) &&
        cache.entries == e1 + FreshEntries(User, Misses(e1, User, Elems([o.userId]), now), userBatch, userSingle, now)
    {
      if id !in orders {
        return NotThere(Failed(404, NotFound));
      }
      var o := orders[id];
      var parsed := ParseProductIdsField(IdsText(o.productIds));
      if parsed.None? {
        return NotThere(Failed(500, InternalError));
      }
      var pids := parsed.value;
      var prods: map<int, Cached> := map[];
      if pids != [] {
        ghost var fetched;
        prods, fetched := GetByIds(cache, Product, pids, now, productBatch, productSingle);
      }
      var users, _ := GetByIds(cache, User, [o.userId], now, userBatch, userSingle);
      r := Found(OrderViewOf(id, o, pids, prods, users));
    }

    /** `update_order` when the request does not move the order to another id. */
    method UpdateOrder(cache: Cache<Key, Cached>, id: int, req: UpdateRequest, now: int,
                       batch: Option<map<int, Doc>>, single: map<int, Doc>)
      returns (reply: Reply)
      requires Valid()
      modifies this, cache
      ensures Valid() && lastId == old(lastId)
      ensures id !in old(orders) ==>
        reply == Failed(404, NotFound) && orders == old(orders) && cache.entries == old(cache.entries)
      ensures id in old(orders) && UpdateCheck(req).Reject? ==>
        reply == UpdateCheck(req).reply && orders == old(orders) && cache.entries == old(cache.entries)
      ensures id in old(orders) && UpdateCheck(req).Pass? && UpdateCheck(req).value.1.None? ==>
        reply == Done("Order updated") && cache.entries == old(cache.entries) &&
        orders == old(orders)[id := UpdatedOrder(old(orders)[id], UpdateCheck(req).value.0, None, req.status)]
      ensures id in old(orders) && UpdateCheck(req).Pass? && UpdateCheck(req).value.1.Some? ==>
        var ids := UpdateCheck(req).value.1.value;
        var prods := Answer(old(cache.entries), Product, Elems(ids), now, batch, single);
        reply == Done("Order updated") &&
        cache.entries == old(cache.entries) + FreshEntries(Product, Misses(old(cache.entries), Product, Elems(ids), now), batch, single, now) &&
        orders == old(orders)[id := UpdatedOrder(old(orders)[id], UpdateCheck(req).value.0, Some((ids, OrderTotal(prods, ids))), req.status)]
    {
      if id !in orders {
        return Failed(404, NotFound);
      }
      var checked := UpdateCheck(req);
      if checked.Reject? {
        return checked.reply;
      }
      var (uid, given) := checked.value;
      var products: Option<(seq<int>, int)> := None;
      if given.Some? {
        var ids := given.value;
        var prods, _ := GetByIds(cache, Product, ids, now, batch, single);
        var total := SumPrices(prods, ids);
        products := Some((ids, total));
      }
      orders := orders[id := UpdatedOrder(orders[id], uid, products, req.status)];
      reply := Done("Order updated");
    }

    /** `delete_order`. */
    method DeleteOrder(id: int) returns (reply: Reply)
      requires Valid()
      modifies this
      ensures Valid() && lastId == old(lastId)
      ensures id !in old(orders) ==> reply == Failed(404, NotFound) && orders == old(orders)
      ensures id in old(orders) ==> reply == Done("Order deleted") && orders == old(orders) - {id}
    {
      if id !in orders {
        return Failed(404, NotFound);
      }
      orders := orders - {id};
      reply := Done("Order deleted");
    }
  }

  // ---- Properties of the create rules ----

  /** A request passes the checks before the lookup exactly when its products
      parse, its user id is a positive integer and it names a product. */
  lemma CreateCheckPassIff(req: CreateRequest)
    ensures CreateCheck(req).Pass? <==>
      RequestedIds(req.productIds).Some? && Truthy(req.userId) &&
      PyIntOf(req.userId).IsInt? && PyIntOf(req.userId).n > 0 && RequestedIds(req.productIds).value != []
    ensures CreateCheck(req).Pass? ==>
      CreateCheck(req).value == (PyIntOf(req.userId).n, RequestedIds(req.productIds).value)
  {
  }

  /** A missing, zero or negative user id is refused with 400 once the
      products parse, whatever the products are. */
  lemma CreateRefusesBadUser(req: CreateRequest)
    requires RequestedIds(req.productIds).Some?
    requires !Truthy(req.userId) || (PyIntOf(req.userId).IsInt? && PyIntOf(req.userId).n <= 0)
    ensures CreateCheck(req) == Reject(Failed(400, UserIdNotPositive))
  {
  }

  /** An empty product list, null, "" or all-blank, is refused with 400 for a valid user. */
  lemma CreateRefusesNoProducts(req: CreateRequest)
    requires RequestedIds(req.productIds) == Some([])
    requires Truthy(req.userId) && PyIntOf(req.userId).IsInt? && PyIntOf(req.userId).n > 0
    ensures CreateCheck(req) == Reject(Failed(400, NoProducts))
  {
  }

  /** A given id that is zero or below is refused with 400, and a taken one
      with 409; neither changes the store. */
  lemma CreateRefusesBadCustomId(orders: map<int, Order>, lastId: int, uid: int, ids: seq<int>, total: int, customId: Json)
    requires Truthy(customId) && PyIntOf(customId).IsInt?
    requires PyIntOf(customId).n <= 0 || PyIntOf(customId).n in orders
    ensures var (reply, orders', lastId') := CreateEffect(orders, lastId, uid, ids, total, customId);
      orders' == orders && lastId' == lastId &&
      reply == (if PyIntOf(customId).n <= 0 then Failed(400, IdNotPositive) else Failed(409, IdTaken))
  {
  }

  /** Whatever the request, the identity counter stays above every stored id. */
  lemma CreateKeepsIdsBelow(orders: map<int, Order>, lastId: int, uid: int, ids: seq<int>, total: int, customId: Json)
    requires IdsBelow(orders, lastId)
    ensures var e := CreateEffect(orders, lastId, uid, ids, total, customId); IdsBelow(e.1, e.2)
  {
  }

  /** A created order takes an id no order had, is "Pending", stores its
      product list so that it reads back unchanged, and leaves every other
      order as it was. */
  lemma CreateStoresPending(orders: map<int, Order>, lastId: int, uid: int, ids: seq<int>, total: int, customId: Json)
    requires IdsBelow(orders, lastId)
    requires CreateEffect(orders, lastId, uid, ids, total, customId).0.Created?
    ensures var e := CreateEffect(orders, lastId, uid, ids, total, customId);
      e.0.id !in orders && e.0.total == total &&
      e.1 == orders[e.0.id := Order(uid, ProductListToField(ids), total, Pending)] &&
      ParseProductIdsField(IdsText(e.1[e.0.id].productIds)) == Some(ids)
  {
    var e := CreateEffect(orders, lastId, uid, ids, total, customId);
    var row := Order(uid, ProductListToField(ids), total, Pending);
    assert e.1 == orders[e.0.id := row];
    assert e.1[e.0.id].productIds == ProductListToField(ids);
    ProductIdsRoundTrip(ids);
  }

  /** A refused insert changes nothing. */
  lemma CreateFailureKeepsStore(orders: map<int, Order>, lastId: int, uid: int, ids: seq<int>, total: int, customId: Json)
    requires CreateEffect(orders, lastId, uid, ids, total, customId).0.Failed?
    ensures var e := CreateEffect(orders, lastId, uid, ids, total, customId); e.1 == orders && e.2 == lastId
  {
  }

  /** The total of two product lists together is the sum of their totals. */
  lemma {:induction false} OrderTotalAppend(prods: map<int, Cached>, a: seq<int>, b: seq<int>)
    ensures OrderTotal(prods, a + b) == OrderTotal(prods, a) + OrderTotal(prods, b)
    decreases |b|
  {
    if b == [] {
      assert a + b == a;
    } else {
      var b' := b[..|b| - 1];
      assert (a + b)[..|a + b| - 1] == a + b';
      OrderTotalAppend(prods, a, b');
    }
  }

  /** Products the lookup did not find, or found without a price, add nothing. */
  lemma {:induction false} OrderTotalOfUnpriced(prods: map<int, Cached>, ids: seq<int>)
    requires forall i :: 0 <= i < |ids| ==> PriceOf(prods, ids[i]) == 0
    ensures OrderTotal(prods, ids) == 0
  {
    if ids != [] {
      OrderTotalOfUnpriced(prods, ids[..|ids| - 1]);
    }
  }

  /** With non-negative prices the total is at least the price of every listed product. */
  lemma {:induction false} OrderTotalBoundsEachPrice(prods: map<int, Cached>, ids: seq<int>, k: int)
    requires forall pid :: PriceOf(prods, pid) >= 0
    requires 0 <= k < |ids|
    ensures OrderTotal(prods, ids) >= PriceOf(prods, ids[k])
  {
    assert ids == ids[..k] + ids[k..];
    OrderTotalAppend(prods, ids[..k], ids[k..]);
    assert ids[k..] == [ids[k]] + ids[k + 1..];
    OrderTotalAppend(prods, [ids[k]], ids[k + 1..]);
    OrderTotalNonNegative(prods, ids[..k]);
    OrderTotalNonNegative(prods, ids[k + 1..]);
    assert OrderTotal(prods, [ids[k]]) == OrderTotal(prods, []) + PriceOf(prods, ids[k]);
  }

  lemma {:induction false} OrderTotalNonNegative(prods: map<int, Cached>, ids: seq<int>)
    requires forall pid :: PriceOf(prods, pid) >= 0
    ensures OrderTotal(prods, ids) >= 0
  {
    if ids != [] {
      OrderTotalNonNegative(prods, ids[..|ids| - 1]);
    }
  }

  // ---- Properties of the list filter ----

  /** A blank or non-numeric search keeps every order. */
  lemma ListKeepsAllUnlessNumeric(orders: map<int, Order>, search: string)
    requires Strip(search) == "" || PyInt(Strip(search)).None?
    ensures ListOrders(orders, search) == orders
  {
  }

  /** A numeric search keeps exactly the orders whose id or user id is that number. */
  lemma ListNumericMatchesIdOrUser(orders: map<int, Order>, search: string, n: int)
    requires Strip(search) != "" && PyInt(Strip(search)) == Some(n)
    ensures forall id :: id in ListOrders(orders, search) <==> id in orders && (id == n || orders[id].userId == n)
  {
  }

  // ---- Properties of the update rules ----

  /** The checks of an update fail only on a user id that is not an integer
      or on a product string that does not parse; a request that gives
      neither always passes. */
  lemma UpdateCheckRejects(req: UpdateRequest)
    ensures UpdateCheck(req).Reject? <==>
      (req.userId.Some? && !PyIntOf(req.userId.value).IsInt?) ||
      (req.productIds.Some? && ParseProductIdsField(req.productIds.value).None?)
    ensures UpdateCheck(req).Pass? ==>
      (UpdateCheck(req).value.0.Some? <==> req.userId.Some?) &&
      (UpdateCheck(req).value.1.Some? <==> req.productIds.Some?)
  {
  }

  /** An update that gives no field leaves the order exactly as it was. */
  lemma EmptyUpdateKeepsOrder(o: Order)
    ensures UpdatedOrder(o, None, None, None) == o
  {
  }

  /** Applying the same update twice is the same as applying it once. */
  lemma UpdateIdempotent(o: Order, uid: Option<int>, products: Option<(seq<int>, int)>, status: Option<string>)
    ensures UpdatedOrder(UpdatedOrder(o, uid, products, status), uid, products, status) == UpdatedOrder(o, uid, products, status)
  {
  }

  /** A new product list stored by an update reads back unchanged. */
  lemma UpdatedProductsRoundTrip(o: Order, uid: Option<int>, ids: seq<int>, total: int, status: Option<string>)
    ensures ParseProductIdsField(IdsText(UpdatedOrder(o, uid, Some((ids, total)), status).productIds)) == Some(ids)
  {
    ProductIdsRoundTrip(ids);
  }

  // ---- Properties of the listed orders ----

  /** A listed order shows "Unknown" exactly when its user was not found
      (a found user's name may itself be missing). */
  lemma UnknownUserName(users: map<int, Cached>, uid: int)
    requires forall u :: u in users && users[u].Some? ==> users[u].value.name.Some? && users[u].value.name.value != "Unknown"
    ensures UserNameOf(users, uid) == Some("Unknown") <==> !(uid in users && users[uid].Some?)
  {
  }
}
