# Market-data selectors of the exchange front end, in Dafny

This project models the derivation layer of a small token-exchange web
front end (`src/store/selectors.js`). Three raw lists of order events feed it:
all created orders, cancelled orders and filled orders. It also reads the
configured token pair and the active account. From these it derives four
views:

- the account's **open orders**, newest first;
- the **trade tape**: filled orders, each coloured green or red against the
  trade before it in time, shown newest first;
- the **order book**: open orders split into a buy side and a sell side,
  each ranked by price;
- the **price chart**: the last price, its direction, and hourly
  open/high/low/close candles.

Modules, leaves first:

| file | module | what it holds |
|---|---|---|
| `wrappers.dfy` | `Wrappers` | `Option` for unloaded tokens, a missing account, undefined array slots |
| `seqs.dfy` | `Seqs` | order-preserving `Filter` and its lemmas (membership, concatenation, first/last kept element, two-way split) |
| `sorting.dfy` | `Sorting` | the stable sort `Array.prototype.sort` performs: a functional insertion sort `SortBy` (sorted, permutation, stable) and the in-place array sort `SortInPlace` proved equal to it |
| `mapping.dfy` | `Mapping` | `Array.prototype.map` as `Map`, and the fact that sorting a list leaves what its elements map to unchanged as a multiset |
| `orders.dfy` | `Orders` | the order record, the token list, decimal id strings, the token-pair filters, the oldest-first ordering |
| `decoration.dfy` | `Decoration` | amounts, exact rounded price, side, colour and fill action |
| `open_orders.dfy` | `OpenOrderResolver` | `openOrders` |
| `my_open_orders.dfy` | `MyOpenOrders` | `myOpenOrdersSelector` |
| `trade_tape.dfy` | `TradeTape` | `filledOrdersSelector`, `decorateFilledOrders`, `tokenPriceClass` |
| `order_book.dfy` | `OrderBook` | `orderBookSelector` |
| `price_chart.dfy` | `PriceChart` | `priceChartSelector`, `buildGraphData` |

Modelling choices:

- **Selectors are methods.** Each selector body rebinds a local list step by
  step and sorts it in place. Each is a Dafny method that sorts an array in
  place (`Sorting.SortInPlace`, reached through `Sorting.SortList`). Its
  `ensures` state what the view contains, in what order, and which input
  each element came from.
- **`decorateFilledOrders` is a loop.** It threads a mutable
  `previousOrder`, so it is a loop over an array. `TradeTape.TrendColours`
  is an independent, position-by-position definition of the same colours,
  and the loop is proved equal to it.
- **Pure helpers are functions.** `openOrders`, `decorateOrder`, the two
  side decorators, `tokenPriceClass` and `buildGraphData` are functions and
  lemmas.
- **Prices are scaled integers.** A price `p` stands for `p / 100000`. It
  is `(2·token1·100000 + token0) / (2·token0)` over naturals: the ratio
  `token1 / token0` times 100000, rounded half up in exact arithmetic. The
  source's `Math.round(token1 / token0 * precision)` rounds a
  floating-point approximation of that value, which can fall on either
  side of an exact half-way point, so the two can differ by one unit in
  either direction (see "## Left out"). Every member that decorates
  an order requires a non-zero divisor for exactly the orders it
  decorates.
- **Sorting is stable.** ECMAScript 2019 requires a stable sort.
  Comparators `(a, b) => f(a) - f(b)` become the integer key `f`;
  descending comparators become the key `-f`.
- **Order ids are compared as in the source**, through their decimal
  strings (`Orders.IdString`). `Orders.IdStringInjective` shows this is
  comparison by value.
- **Hours are integer keys.** An order's hour is `t - t % 3600`.

Points where the code does something other than its own names and
comments suggest; the model follows the code:

- **Price direction.** The comment at src/store/selectors.js:76 calls
  token0 the DApp token and token1 mETH, and the comments at lines 79-83
  describe `token0Amount` as a DApp amount. The code at lines 78-84 sets
  `token0Amount` to `amountGive` when the order gives `tokens[1]` and to
  `amountGet` otherwise, so `token0Amount` is always the quantity of
  `tokens[1]` and `token1Amount` that of `tokens[0]`. The price
  `token1Amount / token0Amount` at line 87 is therefore `tokens[0]` per
  `tokens[1]` (`Decoration.DecoratedQuantities`).
- **Last price with one trade.** Line 241 destructures
  `orders.slice(orders.length - 2, orders.length)`. With exactly one
  trade this is `slice(-1, 1)`, which is `slice(0, 1)`: the one trade is
  bound to `secondLastOrder` and `lastOrder` is `undefined`. Lines 244-251
  then give `lastPrice` 0 and the direction `'-'` whenever that trade's
  price is positive (`PriceChart.LastTwo`, `PriceChart.PriceChartSelector`).
- **Zero divisor.** The division at line 87 has no guard: an order with a
  zero `token0Amount` gets an `Infinity` or `NaN` price. The model
  requires a non-zero divisor instead.

## Model

| member | source | states |
|---|---|---|
| `Sorting.SortInPlace` | src/store/selectors.js:48 | sorting the array in place leaves exactly the stable insertion sort of its old contents |
| `Sorting.ShiftSmaller` | src/store/selectors.js:48 | one insertion step's shift: the slots before `i` are unchanged, the run's elements with keys below `x`'s move one slot left in order, the rest stay put, and inserting `x` into the run equals keeping the shifted prefix and inserting into the rest |
| `Sorting.SortList` | src/store/selectors.js:114 | `orders = orders.sort(...)` returns the stable sort of the list |
| `Mapping.SortByMapPermutes` | src/store/selectors.js:117-121 | sorting a list leaves the multiset of what its elements map to unchanged, for every mapping (here: the order each trade carries) |
| `Sorting.SortByPermutes` | src/store/selectors.js:121 | the sort is a permutation of its input |
| `Sorting.SortBySorted` | src/store/selectors.js:184 | the sort leaves keys non-decreasing (a `b - a` comparator gives values non-increasing) |
| `Sorting.SortByStable` | src/store/selectors.js:191 | the sort is stable: for every key, the elements carrying it keep their input order |
| `Sorting.SortByFacts` | src/store/selectors.js:234 | the sort keeps the length, is a permutation, is sorted and is stable |
| `Orders.IdString` | src/store/selectors.js:22-23 | `toString()` of an id: a non-empty string of decimal digits, at least two of them from 10 on; `IdStringInjective` shows it determines the id |
| `Orders.IdStringInjective` | src/store/selectors.js:22-23 | two ids have equal `toString()` decimal strings exactly when they are equal |
| `Orders.PairOrders` | src/store/selectors.js:41-42 | the two successive token filters (also at lines 106-107, 171-172, 230-231); keeps at most the input's orders, and `PairOrdersMembership` characterises exactly which |
| `Orders.PairOrdersMembership` | src/store/selectors.js:41-42 | an order survives the two token filters exactly when both `tokenGet` and `tokenGive` are among the pair's two tokens |
| `Orders.PairOrdersAppend` | src/store/selectors.js:41-42 | the token filters keep the survivors' order: the pair's orders of a concatenation are those of each part in turn |
| `Orders.Ascending` | src/store/selectors.js:113-114 | the oldest-first sort is a permutation of the pair's orders with timestamps non-decreasing, and it is stable: orders with the same timestamp keep their relative order from the filtered list, which fixes the colours, the last two prices and each candle's open and close among same-time trades |
| `Decoration.ScaledPrice` | src/store/selectors.js:86-88 | the price is `token1/token0` times 100000 rounded half up: `2·p·t0 ≤ 2·t1·100000 + t0 < 2·(p+1)·t0` |
| `Decoration.DecorateOrder` | src/store/selectors.js:73-97 | giving `tokens[1]` makes `token0Amount = amountGive` and `token1Amount = amountGet`, otherwise the reverse; the price is their ratio rounded to 5 decimals; the order's own fields are unchanged |
| `Decoration.DecorateOrders` | src/store/selectors.js:237 | `orders.map((o) => decorateOrder(o, tokens))`: one result per order, at the same position, each `DecorateOrder` of that order |
| `Decoration.DecoratedQuantities` | src/store/selectors.js:76-84 | for an order trading one pair token for the other, `token0Amount` is the quantity of `tokens[1]` and `token1Amount` that of `tokens[0]`, whichever side it is on |
| `Decoration.OrderType` | src/store/selectors.js:64 | an order is `buy` exactly when it gives `tokens[1]`, else `sell` |
| `Decoration.DecorateMyOpenOrder` | src/store/selectors.js:63-71 | the record is kept; buy exactly when it gives `tokens[1]`; GREEN exactly when buy |
| `Decoration.DecorateMyOpenOrders` | src/store/selectors.js:53-61 | one result per input order, at the same position: `decorateMyOpenOrder(decorateOrder(order))` of that order, so its amounts, price, side and colour are those the element contracts state; buy exactly when it gives `tokens[1]` |
| `Decoration.DecorateOrderBookOrder` | src/store/selectors.js:208-217 | the record is kept; buy exactly when it gives `tokens[1]`; GREEN exactly when buy; the fill action is always the other side |
| `Decoration.DecorateOrderBookOrders` | src/store/selectors.js:198-206 | one result per input order, at the same position: `decorateOrderBookOrder(decorateOrder(order))` of that order, so its amounts, price, side, colour and fill action are those the element contracts state; buy exactly when it gives `tokens[1]`, with the fill action the other side |
| `Decoration.PricedPermutation` | src/store/selectors.js:234-237 | reordering the list before decoration keeps every order priceable |
| `OpenOrderResolver.OpenOrders` | src/store/selectors.js:16-28 | at most the created orders; an order is in the result exactly when it is a created order whose id string matches no filled and no cancelled order's |
| `OpenOrderResolver.OpenOrdersMembership` | src/store/selectors.js:16-28 | an order is open exactly when it is in the created list and no filled and no cancelled order has the same id value |
| `OpenOrderResolver.OpenOrdersAppend` | src/store/selectors.js:21-25 | `reject` keeps the created orders' relative order: open orders of a concatenation are those of each part in turn |
| `OpenOrderResolver.OpenOrdersShrink` | src/store/selectors.js:21-25 | more fill or cancel events can only remove open orders, never add one |
| `MyOpenOrders.CandidateFacts` | src/store/selectors.js:37-45 | every decorated candidate is an open order of the account, trades only pair tokens, and is buy exactly when it gives `tokens[1]` |
| `MyOpenOrders.MyOpenOrdersSelector` | src/store/selectors.js:30-51 | nothing when a token is missing; otherwise every result is the account's open, in-pair order; the result is a stable permutation of the decorated candidates with timestamps non-increasing |
| `TradeTape.TokenPriceClass` | src/store/selectors.js:151-160 | GREEN exactly when the previous order has the same id, or has a price not above this one; RED otherwise |
| `TradeTape.TrendColours` | src/store/selectors.js:151-160 | in the ascending walk the first order is GREEN (compared with itself); each later one is GREEN exactly when its id equals the previous one's or the previous price is ≤ its own |
| `TradeTape.DecorateFilledOrders` | src/store/selectors.js:128-149 | the one-pass loop with `previousOrder` as state yields exactly the position-by-position colours of `TrendColours` over the decorated orders |
| `TradeTape.ColouredOrders` | src/store/selectors.js:106-117 | the orders the coloured walk's trades were built from are, as a multiset, exactly the pair's filled orders: each appears once, none is added |
| `TradeTape.FilledOrdersSelector` | src/store/selectors.js:102-126 | the orders the output's trades were built from are, as a multiset, exactly the pair's filled orders; the output is a stable permutation of the coloured oldest-first walk, with timestamps non-increasing; colours are not recomputed after the second sort |
| `OrderBook.OrderBookSelector` | src/store/selectors.js:165-196 | nothing when a token is missing; `buyOrders` holds exactly the buy orders and `sellOrders` exactly the sell orders; together they hold every classified order once; both are stably sorted by price non-increasing |
| `OrderBook.Group` | src/store/selectors.js:178-188 | `get(groupBy(orders, 'orderType'), side, [])`: exactly the orders of that side (none when the side is missing, as `get`'s default `[]` gives), and never more orders than the input |
| `PriceChart.HourStart` | src/store/selectors.js:261 | the bucket key is a whole hour at or before the timestamp, less than an hour earlier |
| `PriceChart.HourStartMonotone` | src/store/selectors.js:261 | later timestamps never fall in earlier hours |
| `PriceChart.FirstOccurrences` | src/store/selectors.js:264 | `Object.keys` of the grouping: each hour once, exactly the hours that occur |
| `PriceChart.FirstOccurrencesOrder` | src/store/selectors.js:264 | `Object.keys` insertion order: of two listed hours, the one listed first occurs first in the orders |
| `PriceChart.FirstOccurrencesIncreasing` | src/store/selectors.js:263-264 | over non-decreasing hours the keys come out strictly increasing |
| `PriceChart.MaxPrice` | src/store/selectors.js:272 | `maxBy`: a price of the group that no price in it exceeds |
| `PriceChart.MinPrice` | src/store/selectors.js:273 | `minBy`: a price of the group that no price in it undercuts |
| `PriceChart.CandleOf` | src/store/selectors.js:271-280 | `low ≤ open ≤ high` and `low ≤ close ≤ high` |
| `PriceChart.BuildGraphData` | src/store/selectors.js:259-283 | every candle satisfies the OHLC bounds; candle hours are distinct; no candle for an empty hour; every order's hour has a candle |
| `PriceChart.CandleSummarisesHour` | src/store/selectors.js:267-280 | every hour that holds an order has its candle in the graph data; open is the price of the hour's first order, close of its last, high and low the largest and smallest prices of that hour |
| `PriceChart.CandlesAscending` | src/store/selectors.js:259-267 | over orders sorted oldest first, candles come out in strictly increasing hour order |
| `PriceChart.Slice` | src/store/selectors.js:241 | `Array.prototype.slice`: never longer than the list; `s[begin..end]` for in-range bounds; a negative `begin` with `end` the length gives the last `-begin` elements |
| `PriceChart.LastTwo` | src/store/selectors.js:240-241 | `slice(n - 2, n)` binds the last two orders when n ≥ 2, the only order as `secondLastOrder` when n = 1, nothing when n = 0 |
| `PriceChart.PriceChartSelector` | src/store/selectors.js:222-257 | nothing when a token is missing. With ≥ 2 trades: the last trade's price, `'+'` exactly when it is not below the one before. With 1 trade: price 0, `'+'` exactly when that trade's price is 0. With none: 0 and `'+'`. Candles over the oldest-first trades, in increasing hour order |

## Left out

- Memoisation by `createSelector` (reference-identity caching, src/store/selectors.js:1) is not modelled. Each selector is its combiner body over explicit inputs.
- `get` lookups on the store's state tree (src/store/selectors.js:9-14) become parameters. A missing `tokens` list, as opposed to missing entries in it, would throw in the source and is not modelled.
- `ethers.utils.formatUnits` and the `formattedTimestamp` string (src/store/selectors.js:92-95) are display strings from libraries outside this model. Amounts stay in minor units.
- Floating point is not modelled. The price is rounded half up in exact integers, while src/store/selectors.js:87-88 rounds a double, so the model's price can differ from the source's by one unit of 10⁻⁵ in either direction. Amounts above 2⁵³ wei are themselves rounded when `/` converts them to numbers, and the quotient and the product by 100000 are rounded again. The double can land just below an exact half-way point: for `token1Amount` 23·10¹⁸ and `token0Amount` 320·10¹⁸ the exact ratio is 0.071875, the double product is 7187.499999999999, and the source's price is 0.07187 where the model's is 0.07188. It can also land on a half-way point the exact value falls short of: for `token1Amount` 20010000000000123 and `token0Amount` 2000000000000012345 the exact scaled value is 1000.5 − 2.6·10⁻¹⁴, so the model gives 1000 (0.01000), while the double product is exactly 1000.5 and the source gives 1001 (0.01001). Such a difference can flip the trade-tape colour comparison (line 155), `lastPriceChange` (line 251) and the order of two orders in the order book (lines 184, 191). Two orders whose float prices tie may also get different integer prices.
- The `console.log` calls (src/store/selectors.js:122, 194) are side effects only.
- The colour constants are the two-valued `Colour`; the hex strings are not kept.
- `Decoration.DecorateOrder` requires a non-zero divisor, so the source's `Infinity`/`NaN` prices for a zero amount are not modelled. Every selector requires the same of exactly the orders it decorates.
- `TradeTape.FilledOrdersSelector` requires both tokens to be loaded. The source has no guard there and throws when they are missing and the list is non-empty.
- `TradeTape.TrendColours` compares ids by value. The source's `===` compares the id objects by reference. The two differ only if two adjacent distinct filled events carry the same id, which ids unique within the filled list rule out.
- `OrderBook.OrderBookSelector` returns only `buyOrders` and `sellOrders`. The source's result also keeps the `groupBy` keys `buy` and `sell`, which are the same arrays, sorted in place.
- `PriceChart.HourStart` aligns hours to multiples of 3600 seconds. `moment`'s `startOf('hour')` uses the local time zone, which differs for zones whose offset is not a whole number of hours. The candle's `x` is that number, not a `Date`.
- `PriceChart.FirstOccurrences` assumes `Object.keys` lists the hour strings in insertion order. That holds for non-numeric string keys like the formatted dates.
- The Solidity contract tests (test/Exchange.js, test/Token.js) exercise contracts whose source is not part of this model.
- The React components (src/components/App.js, src/components/Alert.js), deployment (scripts/1_deploy.js) and network configuration (hardhat.config.js) are UI and wiring, not part of this model.
