/**
 * Order creation and valuation, status update, deletion, total sales and
 * a user's order list. Orders are kept in the collection's natural order;
 * order items are a map from item id to record; product prices, in minor
 * units, are read from a map from product id to price.
 */
module Orders {
  import opened Wrappers

  /** One requested line: a product and how many of it. */
  datatype LineRequest = LineRequest(product: string, quantity: int)

  datatype OrderItem = OrderItem(quantity: int, product: string)

  datatype Order = Order(
    id: string, orderItems: seq<string>,
    shippingAddress1: string, shippingAddress2: string, city: string, zip: string,
    country: string, phone: string, status: string, totalPrice: int, user: string,
    dateOrdered: nat)

  /** The fields of a create request. */
  datatype OrderBody = OrderBody(
    orderItems: seq<LineRequest>,
    shippingAddress1: string, shippingAddress2: string, city: string, zip: string,
    country: string, phone: string, status: string, user: string)

  // ---------------------------------------------------------------------
  // valuation
  // ---------------------------------------------------------------------

  /**
   * The per-item totals, price times quantity, in item order; `None` when
   * an item's product no longer exists, where reading its price throws.
   */
  function LineTotals(items: seq<OrderItem>, prices: map<string, int>): (r: Option<seq<int>>)
    ensures r.Some? <==> forall i :: 0 <= i < |items| ==> items[i].product in prices
    ensures r.Some? ==> |r.value| == |items|
    ensures r.Some? ==> forall i :: 0 <= i < |items| ==> r.value[i] == prices[items[i].product] * items[i].quantity
  {
    if |items| == 0 then Some([])
    else
      var rest := LineTotals(items[1..], prices);
      if items[0].product !in prices || rest.None? then
        assert rest.None? ==> exists i :: 1 <= i < |items| && items[i].product !in prices by {
          if rest.None? {
            var j :| 0 <= j < |items[1..]| && items[1..][j].product !in prices;
            assert items[j + 1].product !in prices;
          }
        }
        None
      else Some([prices[items[0].product] * items[0].quantity] + rest.value)
  }

  /** Adding up from the left, starting at zero. */
  function Sum(xs: seq<int>): int
  {
    if |xs| == 0 then 0 else Sum(xs[..|xs| - 1]) + xs[|xs| - 1]
  }

  /** The reference valuation: first line's price times quantity plus the valuation of the rest. */
  function Valuation(items: seq<OrderItem>, prices: map<string, int>): int
    requires forall i :: 0 <= i < |items| ==> items[i].product in prices
  {
    if |items| == 0 then 0 else prices[items[0].product] * items[0].quantity + Valuation(items[1..], prices)
  }

  /** The order's total: the sum of the per-item totals. */
  function OrderTotal(items: seq<OrderItem>, prices: map<string, int>): Option<int>
  {
    match LineTotals(items, prices)
    case None => None
    case Some(totals) => Some(Sum(totals))
  }

  lemma {:induction false} SumCons(x: int, xs: seq<int>)
    ensures Sum([x] + xs) == x + Sum(xs)
    decreases |xs|
  {
    if |xs| > 0 {
      var ys := [x] + xs;
      assert ys[..|ys| - 1] == [x] + xs[..|xs| - 1];
      SumCons(x, xs[..|xs| - 1]);
    }
  }

  /**
   * The total is defined whenever every item's product exists, and then it
   * equals the sum of price times quantity over the items; no items total 0.
   */
  lemma {:induction false} OrderTotalIsValuation(items: seq<OrderItem>, prices: map<string, int>)
    ensures OrderTotal(items, prices).Some? <==> forall i :: 0 <= i < |items| ==> items[i].product in prices
    ensures OrderTotal(items, prices).Some? ==> OrderTotal(items, prices).value == Valuation(items, prices)
    ensures items == [] ==> OrderTotal(items, prices) == Some(0)
    decreases |items|
  {
    if |items| > 0 && OrderTotal(items, prices).Some? {
      OrderTotalIsValuation(items[1..], prices);
      var totals := LineTotals(items, prices).value;
      assert totals == [totals[0]] + LineTotals(items[1..], prices).value;
      SumCons(totals[0], LineTotals(items[1..], prices).value);
    }
  }

  /** With non-negative prices and quantities the total is never negative. */
  lemma {:induction false} ValuationNonNegative(items: seq<OrderItem>, prices: map<string, int>)
    requires forall i :: 0 <= i < |items| ==> items[i].product in prices
    requires forall i :: 0 <= i < |items| ==> prices[items[i].product] >= 0 && items[i].quantity >= 0
    ensures Valuation(items, prices) >= 0
    decreases |items|
  {
    if |items| > 0 {
      ValuationNonNegative(items[1..], prices);
    }
  }

  /** The items a create request saves, one per requested line, in request order. */
  function ItemsOf(lines: seq<LineRequest>): (items: seq<OrderItem>)
    ensures |items| == |lines|
    ensures forall i :: 0 <= i < |lines| ==>
      items[i].quantity == lines[i].quantity && items[i].product == lines[i].product
  {
    seq(|lines|, i requires 0 <= i < |lines| => OrderItem(lines[i].quantity, lines[i].product))
  }

  /** The order a create request saves. */
  function NewOrder(id: string, body: OrderBody, itemIds: seq<string>, total: int, now: nat): (o: Order)
    ensures o.id == id && o.orderItems == itemIds && o.totalPrice == total && o.dateOrdered == now
    ensures o.user == body.user && o.status == body.status
    ensures o.shippingAddress1 == body.shippingAddress1 && o.shippingAddress2 == body.shippingAddress2
    ensures o.city == body.city && o.zip == body.zip && o.country == body.country && o.phone == body.phone
  {
    Order(id, itemIds, body.shippingAddress1, body.shippingAddress2, body.city, body.zip,
          body.country, body.phone, body.status, total, body.user, now)
  }

  // ---------------------------------------------------------------------
  // queries
  // ---------------------------------------------------------------------

  predicate HasId(orders: seq<Order>, id: string) {
    exists i :: 0 <= i < |orders| && orders[i].id == id
  }

  /** Position of the order with id `id`. */
  function IndexOfId(orders: seq<Order>, id: string): (r: Option<nat>)
    ensures r.Some? ==> r.value < |orders| && orders[r.value].id == id
    ensures r.None? <==> !HasId(orders, id)
  {
    if |orders| == 0 then None
    else if orders[0].id == id then Some(0)
    else match IndexOfId(orders[1..], id)
      case None =>
        assert !HasId(orders, id) by {
          forall i | 0 <= i < |orders| ensures orders[i].id != id {
            if i > 0 { assert orders[1..][i - 1] == orders[i]; }
          }
        }
        None
      case Some(j) => Some(j + 1)
  }

  /** The sum of every order's total, as the grouping stage adds it up. */
  function SumTotals(orders: seq<Order>): int
  {
    if |orders| == 0 then 0 else orders[0].totalPrice + SumTotals(orders[1..])
  }

  /**
   * GET /get/totalsales as written: the grouping stage returns no group for
   * an empty collection, and reading the total of the missing group throws.
   */
  function TotalSalesAsWritten(orders: seq<Order>): Option<int>
  {
    if |orders| == 0 then None else Some(SumTotals(orders))
  }

  /** With no order at all the route throws instead of answering 0. */
  lemma TotalSalesEmptyThrows()
    ensures TotalSalesAsWritten([]) == None
    ensures TotalSales([]) == 0
  {
  }

  /** GET /get/totalsales as intended: the sum of every order's total, 0 when there is none. */
  function TotalSales(orders: seq<Order>): (total: int)
    ensures orders != [] ==> Some(total) == TotalSalesAsWritten(orders)
    ensures (forall i :: 0 <= i < |orders| ==> orders[i].totalPrice >= 0) ==> total >= 0
  {
    SumTotalsNonNegative(orders);
    SumTotals(orders)
  }

  lemma {:induction false} SumTotalsNonNegative(orders: seq<Order>)
    ensures (forall i :: 0 <= i < |orders| ==> orders[i].totalPrice >= 0) ==> SumTotals(orders) >= 0
    decreases |orders|
  {
    if |orders| > 0 {
      SumTotalsNonNegative(orders[1..]);
    }
  }

  /** Adding an order to the collection adds its total to the sales. */
  lemma {:induction false} TotalSalesAppend(orders: seq<Order>, o: Order)
    ensures TotalSales(orders + [o]) == TotalSales(orders) + o.totalPrice
  {
    SumTotalsAppend(orders, o);
  }

  lemma {:induction false} SumTotalsAppend(orders: seq<Order>, o: Order)
    ensures SumTotals(orders + [o]) == SumTotals(orders) + o.totalPrice
    decreases |orders|
  {
    if |orders| > 0 {
      assert (orders + [o])[1..] == orders[1..] + [o];
      SumTotalsAppend(orders[1..], o);
    } else {
      assert orders + [o] == [o];
    }
  }

  /** Removing the order at `i` removes its total from the sales. */
  lemma TotalSalesRemove(orders: seq<Order>, i: nat)
    requires i < |orders|
    ensures TotalSales(orders[..i] + orders[i + 1..]) == TotalSales(orders) - orders[i].totalPrice
  {
    SumTotalsRemove(orders, i);
  }

  lemma {:induction false} SumTotalsRemove(orders: seq<Order>, i: nat)
    requires i < |orders|
    ensures SumTotals(orders[..i] + orders[i + 1..]) == SumTotals(orders) - orders[i].totalPrice
    decreases i
  {
    if i == 0 {
      assert orders[..0] + orders[1..] == orders[1..];
    } else {
      var rest := orders[1..];
      assert orders[..i] + orders[i + 1..] == [orders[0]] + (rest[..i - 1] + rest[i..]);
      SumTotalsRemove(rest, i - 1);
    }
  }

  /** The orders of one user, in collection order. */
  function OrdersOf(orders: seq<Order>, user: string): (r: seq<Order>)
    ensures forall o :: o in r <==> o in orders && o.user == user
    ensures forall o :: multiset(r)[o] == if o.user == user then multiset(orders)[o] else 0
  {
    if |orders| == 0 then []
    else
      var rest := OrdersOf(orders[1..], user);
      assert orders == [orders[0]] + orders[1..];
      if orders[0].user == user then [orders[0]] + rest else rest
  }

  /** Newest `dateOrdered` first. */
  predicate NewestFirst(s: seq<Order>) {
    forall i, j :: 0 <= i < j < |s| ==> s[i].dateOrdered >= s[j].dateOrdered
  }

  /** Puts `o` into a newest-first list, after every order at least as new. */
  function InsertByDate(o: Order, s: seq<Order>): seq<Order>
  {
    if |s| == 0 then [o]
    else if s[0].dateOrdered < o.dateOrdered then [o] + s
    else [s[0]] + InsertByDate(o, s[1..])
  }

  /** Insertion adds exactly `o`. */
  lemma {:induction false} InsertByDateElements(o: Order, s: seq<Order>)
    ensures multiset(InsertByDate(o, s)) == multiset(s) + multiset{o}
    decreases |s|
  {
    if |s| > 0 && s[0].dateOrdered >= o.dateOrdered {
      InsertByDateElements(o, s[1..]);
      assert s == [s[0]] + s[1..];
    }
  }

  /** Insertion keeps a newest-first list newest first. */
  lemma {:induction false} InsertByDateSorted(o: Order, s: seq<Order>)
    requires NewestFirst(s)
    ensures NewestFirst(InsertByDate(o, s))
    ensures |InsertByDate(o, s)| > 0
    ensures InsertByDate(o, s)[0] == (if |s| > 0 && s[0].dateOrdered >= o.dateOrdered then s[0] else o)
    decreases |s|
  {
    if |s| > 0 && s[0].dateOrdered >= o.dateOrdered {
      var rest := InsertByDate(o, s[1..]);
      InsertByDateSorted(o, s[1..]);
      InsertByDateElements(o, s[1..]);
      forall j | 0 <= j < |rest|
        ensures s[0].dateOrdered >= rest[j].dateOrdered
      {
        assert rest[j] in multiset(s[1..]) + multiset{o};
        if rest[j] != o {
          assert rest[j] in s[1..];
        }
      }
    }
  }

  /** The list sorted newest first, by insertion. */
  function SortNewestFirst(s: seq<Order>): seq<Order>
  {
    if |s| == 0 then [] else InsertByDate(s[0], SortNewestFirst(s[1..]))
  }

  /** Sorting gives a newest-first permutation of its input. */
  lemma {:induction false} SortNewestFirstCorrect(s: seq<Order>)
    ensures NewestFirst(SortNewestFirst(s))
    ensures multiset(SortNewestFirst(s)) == multiset(s)
    decreases |s|
  {
    if |s| > 0 {
      var t := SortNewestFirst(s[1..]);
      SortNewestFirstCorrect(s[1..]);
      assert NewestFirst(SortNewestFirst(s)) by {
        InsertByDateSorted(s[0], t);
      }
      assert multiset(SortNewestFirst(s)) == multiset(s) by {
        InsertByDateElements(s[0], t);
        assert s == [s[0]] + s[1..];
      }
    }
  }

  /**
   * GET /get/userorders/:userid: exactly the orders of that user, each as
   * often as stored, newest first.
   */
  function UserOrders(orders: seq<Order>, user: string): (r: seq<Order>)
    ensures NewestFirst(r)
    ensures forall o :: o in r <==> o in orders && o.user == user
    ensures forall o :: multiset(r)[o] == if o.user == user then multiset(orders)[o] else 0
  {
    var mine := OrdersOf(orders, user);
    var r := SortNewestFirst(mine);
    SortNewestFirstCorrect(mine);
    forall o
      ensures o in r <==> o in mine
    {
      assert o in r <==> o in multiset(r);
      assert o in mine <==> o in multiset(mine);
    }
    r
  }

  // ---------------------------------------------------------------------
  // the store
  // ---------------------------------------------------------------------

  class OrderStore {
    var orders: seq<Order>
    var items: map<string, OrderItem>

    /** Order ids are unique. */
    ghost predicate Valid()
      reads this
    {
      forall i, j :: 0 <= i < j < |orders| ==> orders[i].id != orders[j].id
    }

    constructor ()
      ensures Valid() && orders == [] && items == map[]
    {
      orders := [];
      items := map[];
    }

    /**
     * POST /: one item is saved per requested line, then each saved item
     * is read back with its product's price and the order is saved with the
     * sum as its total. `itemIds` and `orderId` are the ids the store
     * assigns, `now` the creation time. A line whose product is gone makes
     * the read-back throw after the items were saved.
     */
    method Create(body: OrderBody, itemIds: seq<string>, orderId: string, now: nat,
                  prices: map<string, int>) returns (reply: Reply)
      requires Valid() && !HasId(orders, orderId)
      requires |itemIds| == |body.orderItems|
      requires forall i, j :: 0 <= i < j < |itemIds| ==> itemIds[i] != itemIds[j]
      requires forall i :: 0 <= i < |itemIds| ==> itemIds[i] !in items
      modifies this
      ensures Valid()
      ensures items.Keys == old(items.Keys) + set i | 0 <= i < |itemIds| :: itemIds[i]
      ensures forall i :: 0 <= i < |itemIds| ==> items[itemIds[i]] == ItemsOf(body.orderItems)[i]
      ensures forall k :: k in old(items) ==> items[k] == old(items)[k]
      ensures OrderTotal(ItemsOf(body.orderItems), prices).None? ==>
        reply == NoReply && orders == old(orders)
      ensures OrderTotal(ItemsOf(body.orderItems), prices).Some? ==>
        reply == Sent(200, "")
        && orders == old(orders) + [NewOrder(orderId, body, itemIds, OrderTotal(ItemsOf(body.orderItems), prices).value, now)]
    {
      SaveItems(itemIds, body.orderItems);
      var stored := items;
      var saved := seq(|itemIds|, j requires 0 <= j < |itemIds| && itemIds[j] in stored => stored[itemIds[j]]);
      assert saved == ItemsOf(body.orderItems);
      match OrderTotal(saved, prices)
      case None =>
        reply := NoReply;
      case Some(total) =>
        var o := NewOrder(orderId, body, itemIds, total, now);
        orders := orders + [o];
        reply := Sent(200, "");
    }

    /** The `Promise.all` over the request's lines: each is saved as an item under its assigned id. */
    method SaveItems(itemIds: seq<string>, lines: seq<LineRequest>)
      requires |itemIds| == |lines|
      requires forall i, j :: 0 <= i < j < |itemIds| ==> itemIds[i] != itemIds[j]
      requires forall i :: 0 <= i < |itemIds| ==> itemIds[i] !in items
      modifies this`items
      ensures items.Keys == old(items.Keys) + set i | 0 <= i < |itemIds| :: itemIds[i]
      ensures forall i :: 0 <= i < |itemIds| ==> items[itemIds[i]] == ItemsOf(lines)[i]
      ensures forall k :: k in old(items) ==> items[k] == old(items)[k]
    {
      var i := 0;
      while i < |lines|
        invariant 0 <= i <= |lines|
        invariant items.Keys == old(items.Keys) + set j | 0 <= j < i :: itemIds[j]
        invariant forall j :: 0 <= j < i ==> items[itemIds[j]] == ItemsOf(lines)[j]
        invariant forall k :: k in old(items) ==> items[k] == old(items)[k]
      {
        items := items[itemIds[i] := OrderItem(lines[i].quantity, lines[i].product)];
        i := i + 1;
      }
    }

    /** PUT /:id: only the status of that order changes; 404 when there is no such order. */
    method UpdateStatus(id: string, status: string) returns (reply: Reply)
      requires Valid()
      modifies this`orders
      ensures Valid()
      ensures !HasId(old(orders), id) ==> reply == Sent(404, "the order cannot be updated!") && orders == old(orders)
      ensures HasId(old(orders), id) ==>
        var i := IndexOfId(old(orders), id).value;
        reply == Sent(200, "") && orders == old(orders)[i := old(orders)[i].(status := status)]
    {
      match IndexOfId(orders, id)
      case None =>
        reply := Sent(404, "the order cannot be updated!");
      case Some(i) =>
        orders := orders[i := orders[i].(status := status)];
        reply := Sent(200, "");
    }

    /** DELETE /:id: the order and each of its items are removed; 404 when there is no such order. */
    method Delete(id: string) returns (reply: Reply)
      requires Valid()
      modifies this
      ensures Valid()
      ensures !HasId(old(orders), id) ==>
        reply == Sent(404, "order not found!") && orders == old(orders) && items == old(items)
      ensures HasId(old(orders), id) ==>
        var i := IndexOfId(old(orders), id).value;
        && reply == Sent(200, "the order is deleted!")
        && orders == old(orders)[..i] + old(orders)[i + 1..]
        && items == old(items) - set k | k in old(orders)[i].orderItems
        && !HasId(orders, id)
    {
      match IndexOfId(orders, id)
      case None =>
        reply := Sent(404, "order not found!");
      case Some(i) =>
        var gone := orders[i];
        ghost var before := orders;
        orders := orders[..i] + orders[i + 1..];
        assert forall j :: 0 <= j < |orders| ==> orders[j] == (if j < i then before[j] else before[j + 1]);
        assert !HasId(orders, id);
        var k := 0;
        while k < |gone.orderItems|
          invariant 0 <= k <= |gone.orderItems|
          invariant orders == before[..i] + before[i + 1..]
          invariant items == old(items) - set m | m in gone.orderItems[..k]
        {
          items := items - {gone.orderItems[k]};
          assert gone.orderItems[..k + 1] == gone.orderItems[..k] + [gone.orderItems[k]];
          k := k + 1;
        }
        assert gone.orderItems[..k] == gone.orderItems;
        reply := Sent(200, "the order is deleted!");
    }
  }
}
