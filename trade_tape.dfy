/** `filledOrdersSelector`: the trade tape. Each trade is coloured against
    the trade before it in time, then the tape is shown newest first. */
module TradeTape {
  import opened Wrappers
  import opened Seqs
  import opened Mapping
  import opened Sorting
  import opened Orders
  import opened Decoration

  /** A filled order with its trend colour. */
  datatype FilledOrder = FilledOrder(d: DecoratedOrder, tokenPriceClass: Colour)

  /** The `previousOrder` of the walk. Before the first step it is the first
      order undecorated, which has no price yet. */
  datatype PreviousOrder = PreviousOrder(id: nat, tokenPrice: Option<nat>)

  /** The comparator `(a, b) => b.timestamp - a.timestamp` as a sort key. */
  function NewestFirst(f: FilledOrder): int {
    0 - f.d.order.timestamp as int
  }

  /** `tokenPriceClass`: GREEN against the order itself, otherwise GREEN
      when the price did not fall. A missing previous price compares false. */
  function TokenPriceClass(tokenPrice: nat, orderId: nat, previous: PreviousOrder): (c: Colour)
    ensures c == Green <==> previous.id == orderId || (previous.tokenPrice.Some? && previous.tokenPrice.value <= tokenPrice)
  {
    if previous.id == orderId then Green
    else if previous.tokenPrice.Some? && previous.tokenPrice.value <= tokenPrice then Green
    else Red
  }

  /** The colours of a walk over `ds`, position by position: position 0 is
      compared with the undecorated first order, every later position with
      the decorated order just before it. */
  function PreviousAt(ds: seq<DecoratedOrder>, i: nat): PreviousOrder
    requires 0 < |ds| && i <= |ds|
  {
    if i == 0 then PreviousOrder(ds[0].order.id, None) else PreviousOrder(ds[i - 1].order.id, Some(ds[i - 1].tokenPrice))
  }

  function TrendColours(ds: seq<DecoratedOrder>): (r: seq<FilledOrder>)
    ensures |r| == |ds|
    ensures forall i :: 0 <= i < |r| ==> r[i].d == ds[i]
    ensures |r| > 0 ==> r[0].tokenPriceClass == Green
    ensures forall i :: 0 < i < |r| ==>
      (r[i].tokenPriceClass == Green <==> ds[i - 1].order.id == ds[i].order.id || ds[i - 1].tokenPrice <= ds[i].tokenPrice)
  {
    seq(|ds|, i requires 0 <= i < |ds| =>
      FilledOrder(ds[i], TokenPriceClass(ds[i].tokenPrice, ds[i].order.id, PreviousAt(ds, i))))
  }

  /** `decorateFilledOrders`: one left-to-right pass that decorates each
      order and colours it against `previousOrder`, then makes it the new
      `previousOrder`. */
  method DecorateFilledOrders(orders: array<RawOrder>, token1: Address) returns (r: seq<FilledOrder>)
    requires Priced(orders[..], token1)
    ensures r == TrendColours(DecorateOrders(orders[..], token1))
  {
    ghost var ds := DecorateOrders(orders[..], token1);
    r := [];
    if orders.Length == 0 {
      return;
    }
    var previous := PreviousOrder(orders[0].id, None);
    var i := 0;
    while i < orders.Length
      invariant 0 <= i <= orders.Length
      invariant |r| == i
      invariant forall k :: 0 <= k < i ==> r[k] == TrendColours(ds)[k]
      invariant previous == PreviousAt(ds, i)
    {
      var order := DecorateOrder(orders[i], token1);
      assert order == ds[i];
      var filled := FilledOrder(order, TokenPriceClass(order.tokenPrice, order.order.id, previous));
      assert filled == TrendColours(ds)[i];
      r := r + [filled];
      previous := PreviousOrder(filled.d.order.id, Some(filled.d.tokenPrice));
      i := i + 1;
    }
  }

  /** The walk's result: the ascending orders decorated and coloured. */
  function Coloured(filled: seq<RawOrder>, token0: Address, token1: Address): seq<FilledOrder>
    requires Priced(PairOrders(filled, token0, token1), token1)
  {
    PricedPermutation(PairOrders(filled, token0, token1), Ascending(filled, token0, token1), token1);
    TrendColours(DecorateOrders(Ascending(filled, token0, token1), token1))
  }

  /** The order a trade was built from. */
  function OrderOf(t: FilledOrder): RawOrder
  {
    t.d.order
  }

  /** The tape holds exactly the pair's filled orders, one trade each. */
  lemma ColouredOrders(filled: seq<RawOrder>, token0: Address, token1: Address)
    requires Priced(PairOrders(filled, token0, token1), token1)
    ensures multiset(Map(Coloured(filled, token0, token1), OrderOf)) == multiset(PairOrders(filled, token0, token1))
  {
    var c := Coloured(filled, token0, token1);
    var asc := Ascending(filled, token0, token1);
    PricedPermutation(PairOrders(filled, token0, token1), asc, token1);
    forall i | 0 <= i < |c| ensures Map(c, OrderOf)[i] == asc[i] {
      MapAt(c, OrderOf, i);
    }
    assert Map(c, OrderOf) == asc;
  }

  /** The selector body. The source reads both token addresses without a
      guard, so both must be loaded. The pair's filled orders are sorted in
      place oldest first, coloured in one pass, and sorted in place newest
      first; the colours are not recomputed after the second sort. */
  method FilledOrdersSelector(tokens: Tokens, filled: seq<RawOrder>) returns (r: seq<FilledOrder>)
    requires tokens.Resolved()
    requires Priced(PairOrders(filled, tokens.token0.value, tokens.token1.value), tokens.token1.value)
    ensures multiset(Map(r, OrderOf)) == multiset(PairOrders(filled, tokens.token0.value, tokens.token1.value))
    ensures multiset(r) == multiset(Coloured(filled, tokens.token0.value, tokens.token1.value))
    ensures StableFor(r, Coloured(filled, tokens.token0.value, tokens.token1.value), NewestFirst)
    ensures forall i, j :: 0 <= i < j < |r| ==> r[i].d.order.timestamp >= r[j].d.order.timestamp
  {
    var token0, token1 := tokens.token0.value, tokens.token1.value;
    var orders := PairOrders(filled, token0, token1);
    var a := new RawOrder[|orders|](i requires 0 <= i < |orders| => orders[i]);
    assert a[..] == orders;
    SortInPlace(a, OldestFirst);
    assert a[..] == Ascending(filled, token0, token1);
    PricedPermutation(orders, a[..], token1);
    var coloured := DecorateFilledOrders(a, token1);
    assert coloured == Coloured(filled, token0, token1);
    r := SortList(coloured, NewestFirst);
    SortByFacts(coloured, NewestFirst);
    ColouredOrders(filled, token0, token1);
    SortByMapPermutes(coloured, NewestFirst, OrderOf);
  }
}
