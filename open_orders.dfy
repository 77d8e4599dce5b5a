/** `openOrders`: the created orders that were neither filled nor cancelled. */
module OpenOrderResolver {
  import opened Orders
  import opened Seqs

  /** `list.some(o => o.id.toString() === id.toString())`. */
  predicate IdListed(id: nat, list: seq<RawOrder>) {
    exists i :: 0 <= i < |list| && IdString(list[i].id) == IdString(id)
  }

  /** The callback given to `reject`: the order was filled or cancelled. */
  predicate Closed(o: RawOrder, filled: seq<RawOrder>, cancelled: seq<RawOrder>) {
    IdListed(o.id, filled) || IdListed(o.id, cancelled)
  }

  /** Rejects every order whose id is listed among the filled or the
      cancelled orders. */
  function OpenOrders(all: seq<RawOrder>, filled: seq<RawOrder>, cancelled: seq<RawOrder>): (r: seq<RawOrder>)
    ensures |r| <= |all|
    ensures forall o :: o in r <==> o in all && !Closed(o, filled, cancelled)
  {
    FilterMembershipAll(all, (o: RawOrder) => !Closed(o, filled, cancelled));
    Filter(all, (o: RawOrder) => !Closed(o, filled, cancelled))
  }

  /** An order of `all` is open exactly when no filled and no cancelled
      order carries the same id value. */
  lemma OpenOrdersMembership(all: seq<RawOrder>, filled: seq<RawOrder>, cancelled: seq<RawOrder>, o: RawOrder)
    ensures o in OpenOrders(all, filled, cancelled) <==>
      o in all
      && (forall i :: 0 <= i < |filled| ==> filled[i].id != o.id)
      && (forall i :: 0 <= i < |cancelled| ==> cancelled[i].id != o.id)
  {
    FilterMembership(all, (o: RawOrder) => !Closed(o, filled, cancelled), o);
    forall i | 0 <= i < |filled| ensures IdString(filled[i].id) == IdString(o.id) <==> filled[i].id == o.id {
      IdStringInjective(filled[i].id, o.id);
    }
    forall i | 0 <= i < |cancelled| ensures IdString(cancelled[i].id) == IdString(o.id) <==> cancelled[i].id == o.id {
      IdStringInjective(cancelled[i].id, o.id);
    }
  }

  /** The open orders keep the relative order of the created orders: the
      open orders of a concatenation are those of each part, in turn. */
  lemma OpenOrdersAppend(a: seq<RawOrder>, b: seq<RawOrder>, filled: seq<RawOrder>, cancelled: seq<RawOrder>)
    ensures OpenOrders(a + b, filled, cancelled) == OpenOrders(a, filled, cancelled) + OpenOrders(b, filled, cancelled)
  {
    FilterAppend(a, b, (o: RawOrder) => !Closed(o, filled, cancelled));
  }

  /** A later fill or cancellation event can only close orders: the open
      orders after more events arrive are a sub-multiset of those before. */
  lemma {:induction false} OpenOrdersShrink(all: seq<RawOrder>, filled: seq<RawOrder>, cancelled: seq<RawOrder>,
                                            moreFilled: seq<RawOrder>, moreCancelled: seq<RawOrder>)
    ensures multiset(OpenOrders(all, filled + moreFilled, cancelled + moreCancelled)) <= multiset(OpenOrders(all, filled, cancelled))
  {
    if all != [] {
      OpenOrdersShrink(all[1..], filled, cancelled, moreFilled, moreCancelled);
      var o := all[0];
      if IdListed(o.id, filled) {
        var i :| 0 <= i < |filled| && IdString(filled[i].id) == IdString(o.id);
        assert (filled + moreFilled)[i] == filled[i];
      }
      if IdListed(o.id, cancelled) {
        var i :| 0 <= i < |cancelled| && IdString(cancelled[i].id) == IdString(o.id);
        assert (cancelled + moreCancelled)[i] == cancelled[i];
      }
    }
  }
}
