/** The raw order records the exchange's events deliver, the configured
    token pair and the filters that every selector applies to them. */
module Orders {
  import opened Wrappers
  import opened Seqs
  import opened Sorting

  /** A token contract or account address, compared as a string. */
  type Address = string

  /** One order event: the order's id (a 256-bit unsigned integer), its
      maker, what it wants (`tokenGet`, `amountGet`) and what it offers
      (`tokenGive`, `amountGive`), amounts in minor units, and the Unix
      time at which it was made. */
  datatype RawOrder = RawOrder(
    id: nat,
    user: Address,
    tokenGet: Address,
    amountGet: nat,
    tokenGive: Address,
    amountGive: nat,
    timestamp: nat)

  /** The two entries of the loaded token-contract list; either may not be
      loaded yet. `token0` is the first token of the market, `token1` the
      second. */
  datatype Tokens = Tokens(token0: Option<Address>, token1: Option<Address>) {
    predicate Resolved() { token0.Some? && token1.Some? }
  }

  /** The decimal rendering of a non-negative integer, as `toString()`
      produces it for an order id. */
  function IdString(n: nat): (s: string)
    ensures |s| >= 1
    ensures n >= 10 ==> |s| >= 2
    ensures forall i :: 0 <= i < |s| ==> '0' <= s[i] <= '9'
  {
    if n < 10 then [Digit(n)] else IdString(n / 10) + [Digit(n % 10)]
  }

  function Digit(d: nat): char
    requires d < 10
  {
    (48 + d) as char
  }

  /** Comparing ids by their decimal strings is comparing them by value. */
  lemma {:induction false} IdStringInjective(a: nat, b: nat)
    ensures IdString(a) == IdString(b) <==> a == b
  {
    if IdString(a) == IdString(b) && a >= 10 && b >= 10 {
      var sa, sb := IdString(a), IdString(b);
      assert sa[..|sa| - 1] == IdString(a / 10);
      assert sb[..|sb| - 1] == IdString(b / 10);
      IdStringInjective(a / 10, b / 10);
      assert a % 10 == b % 10 by { assert sa[|sa| - 1] == sb[|sb| - 1]; }
    }
  }

  predicate GetInPair(o: RawOrder, token0: Address, token1: Address) {
    o.tokenGet == token0 || o.tokenGet == token1
  }

  predicate GiveInPair(o: RawOrder, token0: Address, token1: Address) {
    o.tokenGive == token0 || o.tokenGive == token1
  }

  /** The two successive token filters of the selectors: first on
      `tokenGet`, then on `tokenGive`. */
  function PairOrders(orders: seq<RawOrder>, token0: Address, token1: Address): (r: seq<RawOrder>)
    ensures |r| <= |orders|
  {
    Filter(Filter(orders, o => GetInPair(o, token0, token1)), o => GiveInPair(o, token0, token1))
  }

  /** An order survives the token filters exactly when both tokens it trades
      belong to the pair. */
  lemma PairOrdersMembership(orders: seq<RawOrder>, token0: Address, token1: Address, o: RawOrder)
    ensures o in PairOrders(orders, token0, token1) <==>
      o in orders && (o.tokenGet == token0 || o.tokenGet == token1) && (o.tokenGive == token0 || o.tokenGive == token1)
  {
    FilterMembership(orders, o => GetInPair(o, token0, token1), o);
    FilterMembership(Filter(orders, o => GetInPair(o, token0, token1)), o => GiveInPair(o, token0, token1), o);
  }

  /** The survivors keep their order: the pair's orders of a concatenation
      are those of each part in turn. */
  lemma PairOrdersAppend(a: seq<RawOrder>, b: seq<RawOrder>, token0: Address, token1: Address)
    ensures PairOrders(a + b, token0, token1) == PairOrders(a, token0, token1) + PairOrders(b, token0, token1)
  {
    FilterAppend(a, b, o => GetInPair(o, token0, token1));
    FilterAppend(Filter(a, o => GetInPair(o, token0, token1)), Filter(b, o => GetInPair(o, token0, token1)),
      o => GiveInPair(o, token0, token1));
  }

  /** The comparator `(a, b) => a.timestamp - b.timestamp` as a sort key. */
  function OldestFirst(o: RawOrder): int {
    o.timestamp
  }

  /** The pair's orders sorted oldest first, as the trade tape and the price
      chart both sort them before walking them. */
  function Ascending(orders: seq<RawOrder>, token0: Address, token1: Address): (asc: seq<RawOrder>)
    ensures multiset(asc) == multiset(PairOrders(orders, token0, token1))
    ensures forall i, j :: 0 <= i < j < |asc| ==> asc[i].timestamp <= asc[j].timestamp
    ensures StableFor(asc, PairOrders(orders, token0, token1), OldestFirst)
  {
    SortByFacts(PairOrders(orders, token0, token1), OldestFirst);
    SortBy(PairOrders(orders, token0, token1), OldestFirst)
  }
}
