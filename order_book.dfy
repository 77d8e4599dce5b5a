/** `orderBookSelector`: the pair's open orders split into the buy side and
    the sell side, each ranked by price. */
module OrderBook {
  import opened Wrappers
  import opened Seqs
  import opened Sorting
  import opened Orders
  import opened Decoration
  import opened OpenOrderResolver

  /** The `buyOrders` and `sellOrders` entries of the selector's result. */
  datatype Book = Book(buyOrders: seq<BookOrder>, sellOrders: seq<BookOrder>)

  /** The comparator `(a, b) => b.tokenPrice - a.tokenPrice` as a sort key. */
  function HighestPriceFirst(b: BookOrder): int {
    0 - b.d.tokenPrice as int
  }

  predicate IsBuy(b: BookOrder) {
    b.orderType == Buy
  }

  predicate IsSell(b: BookOrder) {
    b.orderType == Sell
  }

  /** `groupBy(orders, 'orderType')` read back with `get(orders, side, [])`:
      the orders of one side, in their original order, or none. */
  function Group(orders: seq<BookOrder>, side: Side): (r: seq<BookOrder>)
    ensures |r| <= |orders|
    ensures forall b :: b in r <==> b in orders && b.orderType == side
  {
    FilterMembershipAll(orders, IsBuy);
    FilterMembershipAll(orders, IsSell);
    if side == Buy then Filter(orders, IsBuy) else Filter(orders, IsSell)
  }

  /** What the selector demands of its input: every open order of the pair
      has a price. */
  predicate BookPriced(tokens: Tokens, all: seq<RawOrder>, filled: seq<RawOrder>, cancelled: seq<RawOrder>) {
    tokens.Resolved() ==>
      Priced(PairOrders(OpenOrders(all, filled, cancelled), tokens.token0.value, tokens.token1.value), tokens.token1.value)
  }

  /** The pair's open orders, decorated and classified, before grouping. */
  function Classified(tokens: Tokens, all: seq<RawOrder>, filled: seq<RawOrder>, cancelled: seq<RawOrder>): seq<BookOrder>
    requires tokens.Resolved() && BookPriced(tokens, all, filled, cancelled)
  {
    DecorateOrderBookOrders(PairOrders(OpenOrders(all, filled, cancelled), tokens.token0.value, tokens.token1.value),
                            tokens.token1.value)
  }

  /** The selector body. Returns nothing until both tokens are loaded;
      otherwise each side holds exactly the classified orders of that side,
      the two sides together hold every classified order once, and each side
      is sorted in place by price, highest first (the sell side too), with
      equal prices kept in their original order. */
  method OrderBookSelector(tokens: Tokens, all: seq<RawOrder>, filled: seq<RawOrder>, cancelled: seq<RawOrder>)
    returns (r: Option<Book>)
    requires BookPriced(tokens, all, filled, cancelled)
    ensures r.None? <==> !tokens.Resolved()
    ensures r.Some? ==> var ds := Classified(tokens, all, filled, cancelled);
      (forall b :: b in r.value.buyOrders <==> b in ds && b.orderType == Buy)
      && (forall b :: b in r.value.sellOrders <==> b in ds && b.orderType == Sell)
      && multiset(r.value.buyOrders) + multiset(r.value.sellOrders) == multiset(ds)
      && StableFor(r.value.buyOrders, Group(ds, Buy), HighestPriceFirst)
      && StableFor(r.value.sellOrders, Group(ds, Sell), HighestPriceFirst)
    ensures r.Some? ==> forall i, j :: 0 <= i < j < |r.value.buyOrders| ==>
      r.value.buyOrders[i].d.tokenPrice >= r.value.buyOrders[j].d.tokenPrice
    ensures r.Some? ==> forall i, j :: 0 <= i < j < |r.value.sellOrders| ==>
      r.value.sellOrders[i].d.tokenPrice >= r.value.sellOrders[j].d.tokenPrice
  {
    if !tokens.Resolved() {
      return None;
    }
    var token0, token1 := tokens.token0.value, tokens.token1.value;
    var orders := OpenOrders(all, filled, cancelled);
    orders := PairOrders(orders, token0, token1);
    var decorated := DecorateOrderBookOrders(orders, token1);
    var buy := Group(decorated, Buy);
    var sell := Group(decorated, Sell);
    var buyOrders := SortList(buy, HighestPriceFirst);
    var sellOrders := SortList(sell, HighestPriceFirst);
    SortByFacts(buy, HighestPriceFirst);
    SortByFacts(sell, HighestPriceFirst);
    FilterSplit(decorated, IsBuy, IsSell);
    forall b ensures b in buyOrders <==> b in decorated && b.orderType == Buy {
      assert b in buyOrders <==> b in multiset(buy);
      FilterMembership(decorated, IsBuy, b);
    }
    forall b ensures b in sellOrders <==> b in decorated && b.orderType == Sell {
      assert b in sellOrders <==> b in multiset(sell);
      FilterMembership(decorated, IsSell, b);
    }
    r := Some(Book(buyOrders, sellOrders));
  }
}
