/** `myOpenOrdersSelector`: the active account's open orders in the
    market's pair, decorated and newest first. */
module MyOpenOrders {
  import opened Wrappers
  import opened Seqs
  import opened Sorting
  import opened Orders
  import opened Decoration
  import opened OpenOrderResolver

  /** The comparator `(a, b) => b.timestamp - a.timestamp` as a sort key. */
  function NewestFirst(m: MyOrder): int {
    0 - m.d.order.timestamp as int
  }

  /** `o.user === account`; no order matches when there is no account. */
  predicate OwnedBy(o: RawOrder, account: Option<Address>) {
    account == Some(o.user)
  }

  /** The orders the selector decorates: open, made by the account, and
      trading only the pair's tokens, in their original order. */
  function Candidates(account: Option<Address>, token0: Address, token1: Address, open: seq<RawOrder>): seq<RawOrder> {
    PairOrders(Filter(open, o => OwnedBy(o, account)), token0, token1)
  }

  /** What the selector demands of its input: every order it decorates has a
      price (the source divides without a guard). */
  predicate CandidatesPriced(account: Option<Address>, tokens: Tokens, all: seq<RawOrder>, filled: seq<RawOrder>, cancelled: seq<RawOrder>) {
    tokens.Resolved() ==>
      Priced(Candidates(account, tokens.token0.value, tokens.token1.value, OpenOrders(all, filled, cancelled)), tokens.token1.value)
  }

  /** Every decorated candidate is an open order of the account that trades
      only the pair's tokens, and its side follows the side rule. */
  lemma CandidateFacts(account: Option<Address>, token0: Address, token1: Address,
                       all: seq<RawOrder>, filled: seq<RawOrder>, cancelled: seq<RawOrder>, m: MyOrder)
    requires Priced(Candidates(account, token0, token1, OpenOrders(all, filled, cancelled)), token1)
    requires m in DecorateMyOpenOrders(Candidates(account, token0, token1, OpenOrders(all, filled, cancelled)), token1)
    ensures account == Some(m.d.order.user)
    ensures m.d.order.tokenGet in {token0, token1} && m.d.order.tokenGive in {token0, token1}
    ensures m.d.order in all
    ensures forall i :: 0 <= i < |filled| ==> filled[i].id != m.d.order.id
    ensures forall i :: 0 <= i < |cancelled| ==> cancelled[i].id != m.d.order.id
    ensures m.orderType == Buy <==> m.d.order.tokenGive == token1
  {
    var open := OpenOrders(all, filled, cancelled);
    var own := Filter(open, o => OwnedBy(o, account));
    var cands := Candidates(account, token0, token1, open);
    var i :| 0 <= i < |cands| && DecorateMyOpenOrders(cands, token1)[i] == m;
    var o := cands[i];
    PairOrdersMembership(own, token0, token1, o);
    FilterMembership(open, o => OwnedBy(o, account), o);
    OpenOrdersMembership(all, filled, cancelled, o);
  }

  /** The selector body. Returns nothing until both tokens are loaded;
      otherwise the decorated candidates, re-sorted in place by timestamp,
      newest first, with ties kept in their original order. */
  method MyOpenOrdersSelector(account: Option<Address>, tokens: Tokens,
                              all: seq<RawOrder>, filled: seq<RawOrder>, cancelled: seq<RawOrder>)
    returns (r: Option<seq<MyOrder>>)
    requires CandidatesPriced(account, tokens, all, filled, cancelled)
    ensures r.None? <==> !tokens.Resolved()
    ensures r.Some? ==> forall m :: m in r.value ==>
      account == Some(m.d.order.user)
      && m.d.order.tokenGet in {tokens.token0.value, tokens.token1.value}
      && m.d.order.tokenGive in {tokens.token0.value, tokens.token1.value}
      && m.d.order in all
      && (forall i :: 0 <= i < |filled| ==> filled[i].id != m.d.order.id)
      && (forall i :: 0 <= i < |cancelled| ==> cancelled[i].id != m.d.order.id)
    ensures r.Some? ==>
      var decorated := DecorateMyOpenOrders(Candidates(account, tokens.token0.value, tokens.token1.value,
                                                       OpenOrders(all, filled, cancelled)), tokens.token1.value);
      multiset(r.value) == multiset(decorated) && StableFor(r.value, decorated, NewestFirst)
    ensures r.Some? ==> forall i, j :: 0 <= i < j < |r.value| ==> r.value[i].d.order.timestamp >= r.value[j].d.order.timestamp
  {
    if !tokens.Resolved() {
      return None;
    }
    var token0, token1 := tokens.token0.value, tokens.token1.value;
    var orders := OpenOrders(all, filled, cancelled);
    orders := Filter(orders, o => OwnedBy(o, account));
    orders := PairOrders(orders, token0, token1);
    var decorated := DecorateMyOpenOrders(orders, token1);
    var a := new MyOrder[|decorated|](i requires 0 <= i < |decorated| => decorated[i]);
    assert a[..] == decorated;
    SortInPlace(a, NewestFirst);
    SortByFacts(decorated, NewestFirst);
    forall m | m in a[..]
      ensures account == Some(m.d.order.user)
      ensures m.d.order.tokenGet in {token0, token1} && m.d.order.tokenGive in {token0, token1}
      ensures m.d.order in all
      ensures forall i :: 0 <= i < |filled| ==> filled[i].id != m.d.order.id
      ensures forall i :: 0 <= i < |cancelled| ==> cancelled[i].id != m.d.order.id
    {
      assert m in multiset(decorated);
      CandidateFacts(account, token0, token1, all, filled, cancelled, m);
    }
    r := Some(a[..]);
  }
}
