/** `priceChartSelector` and `buildGraphData`: the last price, its direction
    and hourly open-high-low-close candles over the pair's filled orders. */
module PriceChart {
  import opened Wrappers
  import opened Seqs
  import opened Sorting
  import opened Orders
  import opened Decoration

  /** The `'+'` and `'-'` of `lastPriceChange`. */
  datatype Direction = Up | Down

  /** One point of the chart: the hour `x` and `y = [open, high, low, close]`. */
  datatype Candle = Candle(x: nat, open: nat, high: nat, low: nat, close: nat)

  datatype Chart = Chart(lastPrice: nat, lastPriceChange: Direction, series: seq<Candle>)

  const SecondsPerHour: nat := 3600

  /** The start of the hour holding Unix time `t`. */
  function HourStart(t: nat): (h: nat)
    ensures h <= t < h + SecondsPerHour
    ensures h % SecondsPerHour == 0
  {
    t - t % SecondsPerHour
  }

  lemma HourStartMonotone(a: nat, b: nat)
    requires a <= b
    ensures HourStart(a) <= HourStart(b)
  {
    assert a == SecondsPerHour * (a / SecondsPerHour) + a % SecondsPerHour;
    assert b == SecondsPerHour * (b / SecondsPerHour) + b % SecondsPerHour;
  }

  /** `maxBy(group, 'tokenPrice').tokenPrice`. */
  function MaxPrice(group: seq<DecoratedOrder>): (p: nat)
    requires |group| > 0
    ensures exists i :: 0 <= i < |group| && group[i].tokenPrice == p
    ensures forall i :: 0 <= i < |group| ==> group[i].tokenPrice <= p
  {
    if |group| == 1 then group[0].tokenPrice
    else
      var m := MaxPrice(group[1..]);
      assert forall i :: 1 <= i < |group| ==> group[i] == group[1..][i - 1];
      if group[0].tokenPrice >= m then group[0].tokenPrice else m
  }

  /** `minBy(group, 'tokenPrice').tokenPrice`. */
  function MinPrice(group: seq<DecoratedOrder>): (p: nat)
    requires |group| > 0
    ensures exists i :: 0 <= i < |group| && group[i].tokenPrice == p
    ensures forall i :: 0 <= i < |group| ==> p <= group[i].tokenPrice
  {
    if |group| == 1 then group[0].tokenPrice
    else
      var m := MinPrice(group[1..]);
      assert forall i :: 1 <= i < |group| ==> group[i] == group[1..][i - 1];
      if group[0].tokenPrice <= m then group[0].tokenPrice else m
  }

  /** `Object.keys` of a `groupBy` result: each key once, in the order it
      first occurs. */
  function FirstOccurrences(keys: seq<nat>): (r: seq<nat>)
    ensures forall k :: k in r <==> k in keys
    ensures forall i, j :: 0 <= i < j < |r| ==> r[i] != r[j]
  {
    if keys == [] then []
    else
      var r := FirstOccurrences(keys[..|keys| - 1]);
      var k := keys[|keys| - 1];
      assert keys == keys[..|keys| - 1] + [k];
      if k in r then r else r + [k]
  }

  /** The position where `k` first occurs in `keys`. */
  function FirstIndex(keys: seq<nat>, k: nat): (r: nat)
    requires k in keys
    ensures r < |keys| && keys[r] == k
    ensures forall b :: 0 <= b < r ==> keys[b] != k
  {
    if keys[0] == k then 0 else 1 + FirstIndex(keys[1..], k)
  }

  /** Appending keys does not move the first occurrence of a key already
      present. */
  lemma {:induction false} FirstIndexPrefix(s: seq<nat>, t: seq<nat>, k: nat)
    requires k in s
    ensures FirstIndex(s + t, k) == FirstIndex(s, k)
  {
    if s[0] != k {
      assert (s + t)[1..] == s[1..] + t;
      FirstIndexPrefix(s[1..], t, k);
    }
  }

  /** `Object.keys` lists the keys in insertion order: a key listed before
      another first occurs in `keys` before it. */
  lemma {:induction false} FirstOccurrencesOrder(keys: seq<nat>)
    ensures forall i, j :: 0 <= i < j < |FirstOccurrences(keys)| ==>
      FirstIndex(keys, FirstOccurrences(keys)[i]) < FirstIndex(keys, FirstOccurrences(keys)[j])
  {
    if keys != [] {
      var init, k := keys[..|keys| - 1], keys[|keys| - 1];
      assert keys == init + [k];
      FirstOccurrencesOrder(init);
      var r := FirstOccurrences(init);
      forall x | x in r ensures FirstIndex(keys, x) == FirstIndex(init, x) {
        FirstIndexPrefix(init, [k], x);
      }
      if k !in r {
        assert FirstIndex(keys, k) == |keys| - 1;
      }
    }
  }

  /** Keys that never decrease are listed in strictly increasing order. */
  lemma {:induction false} FirstOccurrencesIncreasing(keys: seq<nat>)
    requires forall i, j :: 0 <= i < j < |keys| ==> keys[i] <= keys[j]
    ensures forall i, j :: 0 <= i < j < |FirstOccurrences(keys)| ==> FirstOccurrences(keys)[i] < FirstOccurrences(keys)[j]
  {
    if keys != [] {
      var init, k := keys[..|keys| - 1], keys[|keys| - 1];
      FirstOccurrencesIncreasing(init);
      var r := FirstOccurrences(init);
      forall i | 0 <= i < |r| ensures r[i] <= k {
        assert r[i] in init;
      }
    }
  }

  /** The hour of each order, in order. */
  function HourKeys(ds: seq<DecoratedOrder>): seq<nat> {
    seq(|ds|, i requires 0 <= i < |ds| => HourStart(ds[i].order.timestamp))
  }

  predicate InHour(d: DecoratedOrder, hour: nat) {
    HourStart(d.order.timestamp) == hour
  }

  /** The group of one hour in the `groupBy` result, in list order. */
  function HourGroup(ds: seq<DecoratedOrder>, hour: nat): seq<DecoratedOrder> {
    Filter(ds, d => InHour(d, hour))
  }

  lemma HourGroupNonEmpty(ds: seq<DecoratedOrder>, hour: nat)
    requires hour in HourKeys(ds)
    ensures |HourGroup(ds, hour)| > 0
  {
    var i :| 0 <= i < |ds| && HourKeys(ds)[i] == hour;
    FilterMembership(ds, d => InHour(d, hour), ds[i]);
  }

  /** One candle: the first price, the highest, the lowest and the last. */
  function CandleOf(hour: nat, group: seq<DecoratedOrder>): (c: Candle)
    requires |group| > 0
    ensures c.x == hour
    ensures c.low <= c.open <= c.high && c.low <= c.close <= c.high
  {
    Candle(hour, group[0].tokenPrice, MaxPrice(group), MinPrice(group), group[|group| - 1].tokenPrice)
  }

  /** `hours.map(...)` over the keys of the grouping. */
  function Candles(ds: seq<DecoratedOrder>, hours: seq<nat>): (r: seq<Candle>)
    requires forall i :: 0 <= i < |hours| ==> hours[i] in HourKeys(ds)
    ensures |r| == |hours|
    ensures forall i :: 0 <= i < |r| ==> r[i].x == hours[i]
    ensures forall i :: 0 <= i < |r| ==> r[i].low <= r[i].open <= r[i].high && r[i].low <= r[i].close <= r[i].high
  {
    if hours == [] then []
    else
      HourGroupNonEmpty(ds, hours[0]);
      [CandleOf(hours[0], HourGroup(ds, hours[0]))] + Candles(ds, hours[1..])
  }

  /** `buildGraphData`: one candle per hour that holds an order, and every
      order's hour has exactly one candle. */
  function BuildGraphData(ds: seq<DecoratedOrder>): (r: seq<Candle>)
    ensures forall i :: 0 <= i < |r| ==> r[i].low <= r[i].open <= r[i].high && r[i].low <= r[i].close <= r[i].high
    ensures forall i, j :: 0 <= i < j < |r| ==> r[i].x != r[j].x
    ensures forall i :: 0 <= i < |r| ==> exists k :: 0 <= k < |ds| && HourStart(ds[k].order.timestamp) == r[i].x
    ensures forall k :: 0 <= k < |ds| ==> exists i :: 0 <= i < |r| && r[i].x == HourStart(ds[k].order.timestamp)
  {
    var hours := FirstOccurrences(HourKeys(ds));
    var r := Candles(ds, hours);
    forall k | 0 <= k < |ds| ensures exists i :: 0 <= i < |r| && r[i].x == HourStart(ds[k].order.timestamp) {
      assert HourKeys(ds)[k] in hours;
      var i :| 0 <= i < |hours| && hours[i] == HourKeys(ds)[k];
      assert r[i].x == HourStart(ds[k].order.timestamp);
    }
    r
  }

  /** The candle of an hour that holds orders summarises them: `open` is the
      price of the hour's first order, `close` of its last, `high` and
      `low` the largest and smallest of its prices. */
  lemma CandleSummarisesHour(ds: seq<DecoratedOrder>, hour: nat)
    requires hour in HourKeys(ds)
    ensures |HourGroup(ds, hour)| > 0
    ensures exists i :: 0 <= i < |BuildGraphData(ds)| && BuildGraphData(ds)[i] == CandleOf(hour, HourGroup(ds, hour))
    ensures var c := CandleOf(hour, HourGroup(ds, hour));
      (exists j :: 0 <= j < |ds| && InHour(ds[j], hour) && ds[j].tokenPrice == c.open
                   && forall k :: 0 <= k < j ==> !InHour(ds[k], hour))
      && (exists j :: 0 <= j < |ds| && InHour(ds[j], hour) && ds[j].tokenPrice == c.close
                      && forall k :: j < k < |ds| ==> !InHour(ds[k], hour))
      && (exists j :: 0 <= j < |ds| && InHour(ds[j], hour) && ds[j].tokenPrice == c.high)
      && (exists j :: 0 <= j < |ds| && InHour(ds[j], hour) && ds[j].tokenPrice == c.low)
      && (forall j :: 0 <= j < |ds| && InHour(ds[j], hour) ==> c.low <= ds[j].tokenPrice <= c.high)
  {
    HourGroupNonEmpty(ds, hour);
    CandleInGraph(ds, hour);
    OpenAndClose(ds, hour);
    HighAndLow(ds, hour);
  }

  lemma CandleInGraph(ds: seq<DecoratedOrder>, hour: nat)
    requires hour in HourKeys(ds)
    ensures |HourGroup(ds, hour)| > 0
    ensures exists i :: 0 <= i < |BuildGraphData(ds)| && BuildGraphData(ds)[i] == CandleOf(hour, HourGroup(ds, hour))
  {
    var hours := FirstOccurrences(HourKeys(ds));
    var g := BuildGraphData(ds);
    assert g == Candles(ds, hours);
    assert hour in hours;
    var i :| 0 <= i < |hours| && hours[i] == hour;
    assert forall h :: 0 <= h < |hours| ==> hours[h] in HourKeys(ds) by {
      forall h | 0 <= h < |hours| ensures hours[h] in HourKeys(ds) {
        assert hours[h] in hours;
      }
    }
    CandlesAt(ds, hours, i);
    assert g[i] == CandleOf(hour, HourGroup(ds, hour));
  }

  lemma OpenAndClose(ds: seq<DecoratedOrder>, hour: nat)
    requires |HourGroup(ds, hour)| > 0
    ensures var c := CandleOf(hour, HourGroup(ds, hour));
      (exists j :: 0 <= j < |ds| && InHour(ds[j], hour) && ds[j].tokenPrice == c.open
                   && forall k :: 0 <= k < j ==> !InHour(ds[k], hour))
      && (exists j :: 0 <= j < |ds| && InHour(ds[j], hour) && ds[j].tokenPrice == c.close
                      && forall k :: j < k < |ds| ==> !InHour(ds[k], hour))
  {
    FilterFirst(ds, d => InHour(d, hour));
    FilterLast(ds, d => InHour(d, hour));
  }

  lemma HighAndLow(ds: seq<DecoratedOrder>, hour: nat)
    requires |HourGroup(ds, hour)| > 0
    ensures var c := CandleOf(hour, HourGroup(ds, hour));
      (exists j :: 0 <= j < |ds| && InHour(ds[j], hour) && ds[j].tokenPrice == c.high)
      && (exists j :: 0 <= j < |ds| && InHour(ds[j], hour) && ds[j].tokenPrice == c.low)
      && (forall j :: 0 <= j < |ds| && InHour(ds[j], hour) ==> c.low <= ds[j].tokenPrice <= c.high)
  {
    var p := d => InHour(d, hour);
    var group := HourGroup(ds, hour);
    var c := CandleOf(hour, group);
    var jh :| 0 <= jh < |group| && group[jh].tokenPrice == c.high;
    FilterMembership(ds, p, group[jh]);
    var jl :| 0 <= jl < |group| && group[jl].tokenPrice == c.low;
    FilterMembership(ds, p, group[jl]);
    forall j | 0 <= j < |ds| && InHour(ds[j], hour) ensures c.low <= ds[j].tokenPrice <= c.high {
      FilterMembership(ds, p, ds[j]);
      var g :| 0 <= g < |group| && group[g] == ds[j];
    }
  }

  lemma {:induction false} CandlesAt(ds: seq<DecoratedOrder>, hours: seq<nat>, i: nat)
    requires forall i :: 0 <= i < |hours| ==> hours[i] in HourKeys(ds)
    requires i < |hours|
    ensures |HourGroup(ds, hours[i])| > 0
    ensures Candles(ds, hours)[i] == CandleOf(hours[i], HourGroup(ds, hours[i]))
  {
    if i > 0 {
      CandlesAt(ds, hours[1..], i - 1);
    } else {
      HourGroupNonEmpty(ds, hours[0]);
    }
  }

  /** Orders sorted oldest first give candles in strictly increasing hour
      order. */
  lemma CandlesAscending(ds: seq<DecoratedOrder>)
    requires forall i, j :: 0 <= i < j < |ds| ==> ds[i].order.timestamp <= ds[j].order.timestamp
    ensures forall i, j :: 0 <= i < j < |BuildGraphData(ds)| ==> BuildGraphData(ds)[i].x < BuildGraphData(ds)[j].x
  {
    var keys := HourKeys(ds);
    forall i, j | 0 <= i < j < |keys| ensures keys[i] <= keys[j] {
      HourStartMonotone(ds[i].order.timestamp, ds[j].order.timestamp);
    }
    FirstOccurrencesIncreasing(keys);
  }

  /** The pair's filled orders, oldest first, decorated. */
  function ChartOrders(tokens: Tokens, filled: seq<RawOrder>): seq<DecoratedOrder>
    requires tokens.Resolved()
    requires Priced(PairOrders(filled, tokens.token0.value, tokens.token1.value), tokens.token1.value)
  {
    var token0, token1 := tokens.token0.value, tokens.token1.value;
    PricedPermutation(PairOrders(filled, token0, token1), Ascending(filled, token0, token1), token1);
    DecorateOrders(Ascending(filled, token0, token1), token1)
  }

  /** `Array.prototype.slice(begin, end)`: a negative bound counts from the
      end, and bounds are clamped to the list. */
  function Slice<T>(s: seq<T>, begin: int, end: int): (r: seq<T>)
    ensures |r| <= |s|
    ensures 0 <= begin <= end <= |s| ==> r == s[begin..end]
    ensures end == |s| && 0 < -begin <= |s| ==> r == s[|s| + begin..]
  {
    var b, e := Bound(begin, |s|), Bound(end, |s|);
    if b < e then s[b..e] else []
  }

  function Bound(i: int, len: nat): (r: nat)
    ensures r <= len
  {
    if i < 0 then (if len + i < 0 then 0 else len + i) else if i > len then len else i
  }

  /** A destructured array slot: `undefined` past the end. */
  function At<T>(s: seq<T>, i: nat): Option<T> {
    if i < |s| then Some(s[i]) else None
  }

  /** `get(order, 'tokenPrice', 0)`. */
  function PriceOrZero(order: Option<DecoratedOrder>): nat {
    if order.Some? then order.value.tokenPrice else 0
  }

  /** What `[secondLastOrder, lastOrder] = ds.slice(n - 2, n)` binds. */
  lemma LastTwo<T>(ds: seq<T>)
    ensures var lastTwo := Slice(ds, |ds| - 2, |ds|);
      (|ds| >= 2 ==> At(lastTwo, 0) == Some(ds[|ds| - 2]) && At(lastTwo, 1) == Some(ds[|ds| - 1]))
      && (|ds| == 1 ==> At(lastTwo, 0) == Some(ds[0]) && At(lastTwo, 1) == None)
      && (|ds| == 0 ==> At(lastTwo, 0) == None && At(lastTwo, 1) == None)
  {
  }

  /** What the selector demands of its input: every filled order of the pair
      has a price. */
  predicate ChartPriced(tokens: Tokens, filled: seq<RawOrder>) {
    tokens.Resolved() ==> Priced(PairOrders(filled, tokens.token0.value, tokens.token1.value), tokens.token1.value)
  }

  /** The selector body. Returns nothing until both tokens are loaded.
      `[secondLastOrder, lastOrder] = orders.slice(n - 2, n)`: with two or
      more orders these are the last two; with none both are missing; with
      exactly one, `slice(-1, 1)` yields that order as `secondLastOrder`, so
      the last price is 0 and the change is `'+'` only for a zero price. */
  method PriceChartSelector(tokens: Tokens, filled: seq<RawOrder>) returns (r: Option<Chart>)
    requires ChartPriced(tokens, filled)
    ensures r.None? <==> !tokens.Resolved()
    ensures r.Some? ==> var ds := ChartOrders(tokens, filled);
      (|ds| >= 2 ==> r.value.lastPrice == ds[|ds| - 1].tokenPrice
                     && (r.value.lastPriceChange == Up <==> ds[|ds| - 2].tokenPrice <= ds[|ds| - 1].tokenPrice))
      && (|ds| == 1 ==> r.value.lastPrice == 0 && (r.value.lastPriceChange == Up <==> ds[0].tokenPrice == 0))
      && (|ds| == 0 ==> r.value.lastPrice == 0 && r.value.lastPriceChange == Up)
      && r.value.series == BuildGraphData(ds)
    ensures r.Some? ==> forall i, j :: 0 <= i < j < |r.value.series| ==> r.value.series[i].x < r.value.series[j].x
  {
    if !tokens.Resolved() {
      return None;
    }
    var token0, token1 := tokens.token0.value, tokens.token1.value;
    var orders := PairOrders(filled, token0, token1);
    orders := SortList(orders, OldestFirst);
    assert orders == Ascending(filled, token0, token1);
    PricedPermutation(PairOrders(filled, token0, token1), orders, token1);
    var ds := DecorateOrders(orders, token1);
    assert ds == ChartOrders(tokens, filled);
    LastTwo(ds);
    var lastTwo := Slice(ds, |ds| - 2, |ds|);
    var secondLastOrder, lastOrder := At(lastTwo, 0), At(lastTwo, 1);
    var lastPrice := PriceOrZero(lastOrder);
    var secondLastPrice := PriceOrZero(secondLastOrder);
    if |ds| >= 2 {
      assert lastPrice == ds[|ds| - 1].tokenPrice && secondLastPrice == ds[|ds| - 2].tokenPrice;
    } else if |ds| == 1 {
      assert lastPrice == 0 && secondLastPrice == ds[0].tokenPrice;
    }
    CandlesAscending(ds);
    r := Some(Chart(lastPrice, if lastPrice >= secondLastPrice then Up else Down, BuildGraphData(ds)));
  }
}
