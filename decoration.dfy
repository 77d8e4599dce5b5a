/** Display attributes added to an order: which amount is which, the price,
    the side and its colour. */
module Decoration {
  import opened Orders

  /** Prices carry five decimal places: a price `p` stands for `p / Precision`. */
  const Precision: nat := 100000

  /** The two colour constants, GREEN and RED. */
  datatype Colour = Green | Red

  datatype Side = Buy | Sell

  /** An order with its two amounts assigned to the market's tokens and its
      price. `token0Amount` and `token1Amount` stay in minor units; the
      record's own fields are kept in `order`. */
  datatype DecoratedOrder = DecoratedOrder(order: RawOrder, token0Amount: nat, token1Amount: nat, tokenPrice: nat)

  /** A decorated order of the account's own open-order list. */
  datatype MyOrder = MyOrder(d: DecoratedOrder, orderType: Side, orderTypeClass: Colour)

  /** A decorated order of the order book; `orderFillAction` is what a taker
      of the order does. */
  datatype BookOrder = BookOrder(d: DecoratedOrder, orderType: Side, orderTypeClass: Colour, orderFillAction: Side)

  /** The amount the price divides by: `amountGive` when the order gives the
      second token, `amountGet` otherwise. */
  function Token0Amount(o: RawOrder, token1: Address): nat {
    if o.tokenGive == token1 then o.amountGive else o.amountGet
  }

  /** The orders of `orders` all have a non-zero divisor, so each has a price. */
  predicate Priced(orders: seq<RawOrder>, token1: Address) {
    forall i :: 0 <= i < |orders| ==> Token0Amount(orders[i], token1) > 0
  }

  /** `token1 / token0` scaled by `Precision` and rounded half up, which is
      `Math.round(token1 / token0 * Precision)` computed exactly. */
  function ScaledPrice(token0: nat, token1: nat): (p: nat)
    requires token0 > 0
    ensures 2 * p * token0 <= 2 * token1 * Precision + token0 < 2 * (p + 1) * token0
  {
    var n, d := 2 * token1 * Precision + token0, 2 * token0;
    assert n == d * (n / d) + n % d;
    n / d
  }

  /** `decorateOrder`: picks the amounts by whether the order gives the
      second token and computes the price from them. */
  function DecorateOrder(o: RawOrder, token1: Address): (d: DecoratedOrder)
    requires Token0Amount(o, token1) > 0
    ensures d.order == o
    ensures o.tokenGive == token1 ==> d.token0Amount == o.amountGive && d.token1Amount == o.amountGet
    ensures o.tokenGive != token1 ==> d.token0Amount == o.amountGet && d.token1Amount == o.amountGive
    ensures 2 * d.tokenPrice * d.token0Amount <= 2 * d.token1Amount * Precision + d.token0Amount
    ensures 2 * d.token1Amount * Precision + d.token0Amount < 2 * (d.tokenPrice + 1) * d.token0Amount
  {
    var token0Amount := Token0Amount(o, token1);
    var token1Amount := if o.tokenGive == token1 then o.amountGet else o.amountGive;
    DecoratedOrder(o, token0Amount, token1Amount, ScaledPrice(token0Amount, token1Amount))
  }

  /** The quantity of `token` that the order exchanges, given or received. */
  function QuantityOf(o: RawOrder, token: Address): nat {
    if o.tokenGive == token then o.amountGive else if o.tokenGet == token then o.amountGet else 0
  }

  /** For an order trading one token of the pair against the other,
      `token0Amount` is the quantity of the SECOND token and `token1Amount`
      the quantity of the FIRST, on both sides of the book; the price is
      therefore first-token units per second-token unit. */
  lemma DecoratedQuantities(o: RawOrder, token0: Address, token1: Address)
    requires token0 != token1
    requires (o.tokenGet == token0 && o.tokenGive == token1) || (o.tokenGet == token1 && o.tokenGive == token0)
    requires Token0Amount(o, token1) > 0
    ensures DecorateOrder(o, token1).token0Amount == QuantityOf(o, token1)
    ensures DecorateOrder(o, token1).token1Amount == QuantityOf(o, token0)
  {
  }

  /** The side rule: an order is a buy exactly when it gives the second token. */
  function OrderType(o: RawOrder, token1: Address): (s: Side)
    ensures s == Buy <==> o.tokenGive == token1
  {
    if o.tokenGive == token1 then Buy else Sell
  }

  function Opposite(s: Side): (t: Side)
    ensures t != s
  {
    if s == Buy then Sell else Buy
  }

  /** `decorateMyOpenOrder`: the side and its colour. */
  function DecorateMyOpenOrder(d: DecoratedOrder, token1: Address): (m: MyOrder)
    ensures m.d == d
    ensures m.orderType == Buy <==> d.order.tokenGive == token1
    ensures m.orderTypeClass == Green <==> m.orderType == Buy
  {
    var orderType := OrderType(d.order, token1);
    MyOrder(d, orderType, if orderType == Buy then Green else Red)
  }

  /** `decorateOrderBookOrder`: the side, its colour and the opposite side
      as the fill action. */
  function DecorateOrderBookOrder(d: DecoratedOrder, token1: Address): (b: BookOrder)
    ensures b.d == d
    ensures b.orderType == Buy <==> d.order.tokenGive == token1
    ensures b.orderTypeClass == Green <==> b.orderType == Buy
    ensures b.orderFillAction != b.orderType
  {
    var orderType := OrderType(d.order, token1);
    BookOrder(d, orderType, if orderType == Buy then Green else Red, Opposite(orderType))
  }

  /** `orders.map(o => decorateOrder(o, tokens))`. */
  function DecorateOrders(orders: seq<RawOrder>, token1: Address): (r: seq<DecoratedOrder>)
    requires Priced(orders, token1)
    ensures |r| == |orders|
    ensures forall i :: 0 <= i < |r| ==> r[i] == DecorateOrder(orders[i], token1)
  {
    seq(|orders|, i requires 0 <= i < |orders| => DecorateOrder(orders[i], token1))
  }

  /** `decorateMyOpenOrders`. */
  function DecorateMyOpenOrders(orders: seq<RawOrder>, token1: Address): (r: seq<MyOrder>)
    requires Priced(orders, token1)
    ensures |r| == |orders|
    ensures forall i :: 0 <= i < |r| ==>
      r[i].d.order == orders[i] && (r[i].orderType == Buy <==> orders[i].tokenGive == token1)
    ensures forall i :: 0 <= i < |r| ==> r[i] == DecorateMyOpenOrder(DecorateOrder(orders[i], token1), token1)
  {
    seq(|orders|, i requires 0 <= i < |orders| => DecorateMyOpenOrder(DecorateOrder(orders[i], token1), token1))
  }

  /** `decorateOrderBookOrders`. */
  function DecorateOrderBookOrders(orders: seq<RawOrder>, token1: Address): (r: seq<BookOrder>)
    requires Priced(orders, token1)
    ensures |r| == |orders|
    ensures forall i :: 0 <= i < |r| ==>
      r[i].d.order == orders[i] && (r[i].orderType == Buy <==> orders[i].tokenGive == token1)
      && r[i].orderFillAction != r[i].orderType
    ensures forall i :: 0 <= i < |r| ==> r[i] == DecorateOrderBookOrder(DecorateOrder(orders[i], token1), token1)
  {
    seq(|orders|, i requires 0 <= i < |orders| => DecorateOrderBookOrder(DecorateOrder(orders[i], token1), token1))
  }

  /** Reordering a list keeps every order in it priced. */
  lemma PricedPermutation(a: seq<RawOrder>, b: seq<RawOrder>, token1: Address)
    requires multiset(a) == multiset(b)
    requires Priced(a, token1)
    ensures Priced(b, token1)
  {
    forall i | 0 <= i < |b| ensures Token0Amount(b[i], token1) > 0 {
      assert b[i] in multiset(a);
      var j :| 0 <= j < |a| && a[j] == b[i];
    }
  }
}
