# Verification of the order book engine

This project models the exchange in three linked parts and proves, for every input,
every run and every interleaving, what it is for:

1. **The matching engine** (`src/orderbook.rs`). `Engine.OrderBook` has the source's two
   price-to-queue maps and its nested, early-breaking loop with deferred removal of used-up
   levels. `PriceTime` is the reference: each side is one flat list in price-time priority and a
   match takes from its front. Every method of the class is proved to compute the reference
   operation, on any book and for any order. About the reference it is then proved that its outcome is
   the only one that meets a non-recursive description, that it is optimal, fair, conserving, keeps the
   book well formed and uncrossed, is unaffected by splitting an order in two, and commutes with unrelated cancels.
2. **The trade store** (`src/store.rs`). Keys are byte strings; `TradeStore.Store` runs the source's
   iterator loops over an ordered map. Byte order is proved to be trade order, prefixes to be exact
   and contiguous, and a walk through the pages to be complete and free of duplicates, with or
   without inserts on the way.
3. **The request protocol** (`src/api.rs`, `src/state.rs`). `Protocol` is a transition system with
   one step for each thing a request or a websocket client does between two points where another
   may run; inserts may fail, and requests may be abandoned wherever they wait for a lock. Its
   invariants hold after every sequence of events.

The parts meet in three places: no two orders ever trade twice, so no key in the store ever
collides (`Interleavings.NoCollision`); a client that pages through a market's history while
requests keep running misses nothing (`TradeLog.BrowseDuringRun`); and the stored history is in
order of execution exactly when the clock allows it (`Chronology.HistoryIsExecutionOrder`).

Timestamps are readings of an arbitrary function, which may repeat or go backwards. Ids are
arbitrary; over runs they are new for each order. Quantities and prices are naturals below 2^64, ids
and timestamps below 2^128. `dafny verify dfyconfig.toml` checks the project.

## Files

| file | content |
|---|---|
| `Types`, `Ordered` | entities; ascending enumeration of a finite set |
| `PriceTime`, `Levels`, `Filling`, `Matching`, `Cancelling`, `Terms` | the reference engine, what its operations keep and what an order gets |
| `Engine`, `Snapshot` | the order book class and the aggregated book |
| `Priority`, `Splitting`, `Commuting` | fairness and optimality, splitting, commutation |
| `Exchange`, `History` | runs of orders and cancels over all markets |
| `Keys`, `Store`, `Paging` | keys, the store class, walks through the pages |
| `Protocol`, `Locking`, `Accounts`, `Broadcasts`, `Watchers`, `Interleavings`, `Progress`, `Outdated` | the protocol, its invariants and its promises |
| `Server`, `TradeLog`, `Chronology` | request handlers end to end; history against execution |

## Where the code and its comments differ

- The key layout is said to guarantee chronological order (`src/store.rs:55-56`). The order is that of
  the clock readings, then of maker and taker ids. `Chronology.HistoryIsExecutionOrder` says exactly
  when that is the order of execution, and `Chronology.TieOutOfOrder` is a run in which it is not.
- `match_order` is described as matching market orders only (`src/orderbook.rs:178-188`); the code
  also matches limit orders and rests their remainder. A limit order without a price is matched
  without a limit and its remainder is dropped.
- `AppState` is described with mutexes and a PostgreSQL pool (`src/state.rs:14-18`); the code uses
  read-write locks and the embedded store.
- A request abandoned by its client while it waits for the store has changed the book and the log,
  but its trades are neither stored nor broadcast and nobody is notified.
  `Outdated.AbandonedOrderIsNotAnnounced` is such a run; `Interleavings.TradeAccounted` and
  `Interleavings.NoMissedUpdate` say what holds in spite of it, and `Outdated.OutdatedExactly` when a
  client is left with an old book.

## Model

| member | source | states |
|---|---|---|
| Engine.OrderBook.constructor | src/orderbook.rs:151-156 | a new book is well formed and empty |
| Engine.OrderBook.MatchOrder | src/orderbook.rs:189-212 | for any order and any book: its trades and the book it leaves are those of the flat reference match: fill from the front of the other side within the limit, then rest the remainder of a priced limit order at the back of its level; no level is left empty and every order stands at its own price |
| Engine.OrderBook.AddOrder | src/orderbook.rs:162-175 | any priced order, whatever its id and quantity, goes behind every order on its side that is at least as well priced; any other changes nothing |
| Engine.OrderBook.CancelOrder | src/orderbook.rs:218-242 | returns true if and only if the id rests in the book; the first order with it goes, bids before asks, lower prices before higher, front before back, and a level it empties goes too |
| Engine.MatchIncomingSide | src/orderbook.rs:80-147 | the nested loop over price levels, with its direction, early breaks and deferred removal, gives exactly the trades, remaining quantity and side of the flat fill, with no empty level left |
| Engine.WalkLevels | src/orderbook.rs:98-139 | the outer loop: the levels it uses up are a prefix of the iteration order, the others keep non-empty queues, and together they are the flat fill's residue |
| Engine.FillQueue | src/orderbook.rs:106-138 | the inner loop over one queue: one trade per maker from the front, both quantities reduced by the smaller one |
| Engine.RemoveLevels | src/orderbook.rs:141-145 | removes exactly the levels listed |
| Engine.FlatProperties | src/orderbook.rs:22-32 | the list a pair of maps stands for is sorted by price, and its part at any price is that price's queue |
| Engine.FlatInjective | src/orderbook.rs:22-32 | two books that mean the same lists are the same maps, level for level |
| Engine.Prune | src/orderbook.rs:141-145 | removing the used-up levels after the loop leaves a well-formed map that lists what the walk left |
| Engine.CancelOnSide | src/orderbook.rs:219-239 | the search by ascending price finds the id if and only if it rests on the side, and takes out the order at the lowest such price |
| Engine.Position | src/orderbook.rs:223-224 | finds the first order with the id in a queue if and only if there is one |
| Cancelling.OneGoes | src/orderbook.rs:223-224 | exactly one order goes, with the id and the price at which it was found, even if the id is there twice |
| Cancelling.CancelFirstIsCancel | src/orderbook.rs:218-242 | in a book without repeated ids, the search takes out the order with the id wherever it is, and nothing else |
| Cancelling.CancelTakesOut | src/orderbook.rs:218-242 | in any book: one order with the id goes, from the bids if it is there, at the lowest price it has on that side and the first in that queue; all else keeps its place |
| Filling.FillExactly | src/orderbook.rs:80-147 | a result is the fill's if and only if: trade i is with the i-th order in priority at its price, every maker but the last is used up, quantities add up, the book is the rest, and quantity is left only when nothing eligible is |
| Matching.FillTotals | src/orderbook.rs:109-127 | what is traded is what the taker loses and what the side loses |
| Matching.FillMakers | src/orderbook.rs:109-132 | every maker loses exactly what it traded |
| Matching.FillExhausts | src/orderbook.rs:98-105 | if quantity is left, no order left on the side is within the limit: the early break loses nothing |
| Matching.MatchKeepsBook | src/orderbook.rs:189-212 | both sides stay sorted, with positive quantities, ids unique across both |
| Matching.MatchKeepsUncrossed | src/orderbook.rs:189-212 | every bid stays strictly below every ask |
| Matching.CancelKeepsBook | src/orderbook.rs:218-242 | so with cancels, and the id is gone from the book |
| Matching.RestUncrossed | src/orderbook.rs:162-175 | resting an order directly leaves the book uncrossed if and only if no order on the other side meets its price |
| Priority.Waterfall | src/orderbook.rs:91-147 | each resting order is served exactly what the depth in front of it leaves, up to its quantity, if its price is eligible |
| Priority.ServedInOrder | src/orderbook.rs:91-147 | an order is served only if every order in front of it is completely filled and gone |
| Priority.PricesMonotone | src/orderbook.rs:91-147 | trade prices only get worse for the taker and never pass its limit |
| Priority.FilledQuantity | src/orderbook.rs:80-147 | the quantity filled is the smaller of what was asked for and what was eligible anywhere on the side |
| Priority.FillIsOptimal | src/orderbook.rs:80-147 | over every other allocation to eligible orders: none fills more, and of those that fill as much none is cheaper for a buyer or pays a seller more |
| Splitting.SplitFill | src/orderbook.rs:80-147 | two passes of q1 and q2 against one of q1 + q2: same residue, same quantity left, trades equal but for one fill cut in two |
| Splitting.SplitOrder | src/orderbook.rs:189-212 | the same for whole orders: every maker's total is equal, and the books are equal if nothing rests |
| Splitting.SplitRemainder | src/orderbook.rs:189-212 | a remainder rests at the back of its level, as one entry or as two adjacent ones of the same total; all other levels are equal |
| Commuting.MatchCancelCommute | src/orderbook.rs:189-242 | cancelling an order that a match does not trade with gives the same trades and the same book before as after the match |
| Commuting.MatchAndCancel | src/orderbook.rs:189-242 | the same on two objects of the class: equal maps, so pruning and re-creation of levels agree as well |
| Commuting.CancelUndoesRest | src/orderbook.rs:162-242 | cancelling an order just matched takes back exactly what it rested; if it traded nothing the book is the earlier one |
| Commuting.MatchThenCancel | src/orderbook.rs:162-242 | the same by two calls on an object of the class: if the order traded nothing, both maps are the earlier ones, with no empty level left behind |
| Commuting.NonCrossing | src/orderbook.rs:98-105 | an order that no resting order meets trades nothing |
| Exchange.MatchTrades | src/orderbook.rs:106-137 | the trades of one match are with the front orders of the side in turn, no maker twice |
| Terms.TradesSay | src/orderbook.rs:109-119 | every trade field by field: maker and taker ids, the maker's price and market, the clock reading taken for it, and as quantity what the maker loses, which is positive |
| Terms.NoLimitTakesAll | src/orderbook.rs:192-204 | a market order of either side, and a limit order without a price, trades the smaller of what it asked for and all that faces it, and no part of it rests |
| Terms.MarketIgnoresPrice | src/orderbook.rs:192-204 | whatever price a market order carries, trades and book are the same |
| Terms.LimitIsKept | src/orderbook.rs:98-105 | a limit order buys at its price or below, sells at its price or above, trades the smaller of what it asked for and what is offered so, and leaves quantity only if no such offer is left |
| Terms.RestsExactly | src/orderbook.rs:206-210 | after a match the book holds the order if and only if it is a limit order with a price and quantity left; it rests on its own side with that quantity, and nothing else joins or leaves that side |
| Terms.NothingAskedFor | src/orderbook.rs:106-137 | an order for quantity zero that reaches the loop makes one trade for nothing with the first order facing it |
| Exchange.RunKeepsInv | src/orderbook.rs:80-242 | after every run with new ids: all books well formed and uncrossed, each resting order one that was submitted less what it traded, no two trades between the same two orders |
| Exchange.RunBalances | src/orderbook.rs:80-242 | after every run each order's quantity is what it traded as taker and as maker, what still rests, what was cancelled and what was dropped |
| History.BoughtIsSold | src/orderbook.rs:109-127 | after every run the buyers together bought, and the sellers together sold, the total of the log |
| History.RunKeepsQueued | src/orderbook.rs:162-231 | after every run each side is in order of price, then of submission |
| History.RunIsFair | src/orderbook.rs:91-147 | when an order trades with a resting order, every one with a better price, or an earlier one at the same price, is completely filled by it |
| Snapshot.SumExact | src/orderbook.rs:280 | a level's total is exact if and only if it fits in 64 bits |
| Snapshot.RowsOfSide | src/orderbook.rs:275-289 | one row per level, bids strictly descending, asks strictly ascending, totals exact where they fit, and positive if and only if some order there has a positive quantity |
| Snapshot.SnapshotListed | src/orderbook.rs:275-289 | the snapshot names its market and lists the bids by strictly descending and the asks by strictly ascending price, one row for each price level and no other, with exact totals where they fit in 64 bits |
| Snapshot.QuotedIsDepth | src/orderbook.rs:275-289 | the total shown at a price is the quantity resting there, and nothing is shown elsewhere |
| Snapshot.SnapshotAcrossMatch | src/orderbook.rs:189-289 | between the snapshots before and after a match, each price on the other side loses what was traded there, and on the own side only the order's price gains the remainder that rests |
| Keys.BigEndianOrder | src/store.rs:85-94 | big-endian bytes compare as the numbers do |
| Keys.KeyOrder | src/store.rs:85-94 | within a symbol, byte order of keys is the order by time, maker, taker, price, quantity |
| Keys.KeyInjective | src/store.rs:85-94 | different trades have different keys, for all symbols |
| Keys.KeyDecodes | src/store.rs:85-94 | the round trip of keys: the symbol, a colon, then 16 bytes that read back as the time, 16 as the maker, 16 as the taker, 8 as the price and 8 as the quantity |
| Keys.PrefixExact | src/store.rs:77-82 | a key is under the prefix of a colon-free symbol if and only if it is a key of that symbol, or of one that itself begins with that prefix |
| Keys.PrefixContiguous | src/store.rs:77-82 | no other key lies between two keys under one prefix |
| Keys.PairCodes | src/instrument.rs:39-59 | pair codes contain no colon and tell the pairs apart |
| Keys.PrintedCodes | src/instrument.rs:11-59 | the codes of the two markets are the bytes of BTC-USD and ETH-USD |
| TradeStore.BTreeIterator.SeekTo | src/store.rs:163-175 | the iterator stands before the first key not below the one sought |
| TradeStore.BTreeIterator.Next | src/store.rs:182-195 | yields the entries in key order, then none |
| TradeStore.Store.InsertTrade | src/store.rs:135-142 | files the trade under its key and changes nothing else |
| TradeStore.Store.PageTradeAsc | src/store.rs:148-205 | for every 64-bit limit: the seek, cursor check and look-ahead loop return the first `limit` trades under the prefix, strictly after the cursor, and a next cursor if there are more; a bad cursor is refused; the largest limit overflows and gives an empty last page |
| TradeStore.ReadPage | src/store.rs:177-204 | the look-ahead loop alone, from where the iterator stands |
| TradeStore.Store.DeleteTrades | src/store.rs:208-225 | removes exactly the keys under the prefix |
| TradeStore.SeekUnder | src/store.rs:163-175 | after the seek, and the check that the cursor's key exists, what is left under the prefix is exactly what lies above the cursor |
| TradeStore.UnderStopsAtFirst | src/store.rs:182-195 | stopping at the first key outside the prefix loses none inside it |
| Paging.HistoryIs | src/store.rs:148-205 | a symbol's history is its stored trades, each once, in ascending order |
| Paging.CursorAccepted | src/store.rs:109-175 | a cursor is accepted if and only if it names, field by field and in version 1, a stored trade of this symbol, whatever other symbols are stored |
| Paging.PageBehind | src/store.rs:148-205 | the cursor of any trade gets the page that starts right behind it |
| Paging.StaticWalk | src/store.rs:148-205 | on a store that does not change, for every 64-bit limit: m pages return exactly the first m * room trades, or all of them, where the room is the limit, or none for the largest limit; the walk has ended if and only if m is positive and that is all, or there is no room. No other symbol's keys fall under the prefix |
| Paging.InsertGrows | src/store.rs:135-142 | an insert never replaces another trade |
| Paging.WalkWithInserts | src/store.rs:135-205 | with any inserts between pages and any limits but zero and the largest, no cursor is refused, the items ascend strictly, are of the symbol, and at the end include every trade stored when the walk began; for every symbol under whose prefix no other symbol's keys fall |
| Paging.PureIfClean | src/store.rs:77-82 | that condition is exact: a walk that takes everything is of the symbol alone if and only if it holds |
| Paging.ForeignCursorRefused | src/store.rs:158-175 | where it fails: if only other symbols' trades fall under the prefix, and more than one, a walk in pages of one is refused the cursor it was given |
| Paging.ColonCursorRefused | src/store.rs:77-82 | two trades of a symbol `A:B` do that to a walk through `A` |
| Paging.CleanIfColonFree | src/store.rs:77-94 | among colon-free symbols the keys under a prefix are exactly that symbol's |
| Paging.ClearExactly | src/store.rs:208-225 | clearing a symbol removes exactly its trades; its history is one empty last page, and every page and cursor of another symbol is as before |
| Locking.StepKeepsLocks | src/api.rs:287-322 | each request holds exactly the locks of its stage, across every step |
| Accounts.StepKeepsSequential | src/api.rs:287-306 | what a request has read of its market's book is still true when it writes, because it holds the lock, so each write continues the sequential run |
| Accounts.StepKeepsOwned | src/api.rs:301-308 | each trade matched belongs to exactly one request, across every step |
| Accounts.StepKeepsPlaced | src/api.rs:295-303 | each request that has matched has placed the order it asked for, across every step |
| Accounts.StepKeepsSliced | src/api.rs:305-307 | a request's trades stand together in the order of matching, across every step |
| Accounts.InsertKeepsDb | src/store.rs:135-142 | inserting a trade not yet there uses a new key |
| Broadcasts.StepKeepsBatched | src/api.rs:318-322 | the trade channel is the batches of the completed create requests, each once and in order of completion, then what the holder of the store has sent, across every step |
| Broadcasts.StepKeepsSentOnce | src/api.rs:311-321 | no trade is in the channel twice or before it is stored, and of each request exactly the first `sent` trades are in it, across every step |
| Watchers.StepKeepsClients | src/api.rs:366-415 | a client that shows an outdated book has the news unread, or its market is still to be announced, across every step |
| Interleavings.AlwaysSafe | src/api.rs:279-415 | all these invariants after every sequence of steps of any requests and clients |
| Interleavings.MutualExclusion | src/api.rs:287-312 | no two requests are inside the books, the log or the store together |
| Interleavings.OrderAsAsked | src/api.rs:295-303 | in every interleaving a request that has matched has one order under its id, with the side, type, price, quantity and market of the request |
| Interleavings.Markets | src/state.rs:43-45 | the markets are BTC-USD and ETH-USD at every moment |
| Interleavings.Serializable | src/api.rs:287-308 | the books, each written from a copy read earlier under the lock, are those of a sequential run in order of that lock, and the log is that run's log short of at most the match being written |
| Interleavings.TradeAccounted | src/api.rs:301-316 | each logged trade belongs to one request and is stored, or pending in it, or that request failed or was abandoned |
| Interleavings.BroadcastInOrder | src/api.rs:311-322 | the channel is exactly the batches of the completed requests, one each, and the first trades of the one that is sending; no trade twice, each stored; each batch is a stretch of the order of matching; requests that failed or were abandoned have sent nothing |
| Interleavings.BroadcastOwner | src/api.rs:318-321 | each broadcast trade has one owner, which has completed, or is sending and has come to that trade |
| Interleavings.NoCollision | src/store.rs:85-142 | in every interleaving the store has exactly one entry per trade inserted, whatever the clock reads |
| Interleavings.ArchiveKeepsAll | src/store.rs:85-142 | inserting the whole log of any run gives one entry per logged trade |
| Interleavings.NoMissedUpdate | src/api.rs:366-415 | once a client has read its notifications its last snapshot is the current book, unless the market has changed since it was last announced, which needs a request that has not completed; trades forwarded are its market's, in channel order |
| Outdated.OutdatedExactly | src/api.rs:366-415 | for every run and market: a client could have watched it so as to end with everything read and an old book, if and only if there was a moment when no request held the books, since when the market has changed without any notification about it |
| Outdated.StaleMeansMissed | src/api.rs:366-415 | the same of the clients in the run itself: whoever has read everything and shows an old book was last served at such a moment |
| Outdated.FromThenOn | src/api.rs:366-368 | a client is sent exactly its market's trades from the moment it joined on, in channel order, and is not told of changes announced before |
| Outdated.InTurn | src/api.rs:388-415 | from its subscription on a client takes notifications and trades one at a time, skipping none, and answers a notification with a snapshot if and only if it is about its market |
| Outdated.HiddenRun | src/api.rs:366-415 | leaving a client out of a run changes nothing for the requests, the books, the store, the channels and the other clients |
| Outdated.AbandonedOrderIsNotAnnounced | src/api.rs:308-322 | a run in which an order abandoned while waiting for the store rests in the book, no step is outstanding, and the client shows an older book |
| Progress.EveryRequestCanFinish | src/api.rs:287-322 | the order of the locks cannot deadlock: from every reachable state, with enough unused ids, some continuation in which no request fails or is abandoned brings every request to its end and frees every lock |
| Progress.RunToEnd | src/api.rs:279-350 | a request that no other holder of a lock stands in the way of can run to its end by steps of its own alone, none of them a failure, and changes no other request |
| Interleavings.Alone | src/api.rs:279-350 | the steps of one request leave every other request and every client as they were |
| Server.AppState.CreateOrder | src/api.rs:279-324 | the whole effect of an uninterrupted create request, with the errors for a zero quantity, an unknown pair and a failing insert; on any books, and with any id |
| Server.CreateRefused | src/api.rs:283-293 | a create request is refused, and then changes nothing, if and only if its quantity is zero or its pair is not supported |
| Server.CreateAccepted | src/api.rs:287-308 | for an accepted priced limit order what the log gained plus what rests under its id is the quantity asked for, and what rests is the order as requested; any other order trades all it can and leaves nothing; other markets keep their books |
| Server.CreateAnswers | src/api.rs:304-323 | the answer is the order's id and exactly the trades the log gained, which are stored and broadcast, with one announcement; or an insert fails, and what was inserted stays, with no broadcast |
| Server.AppState.CancelOrder | src/api.rs:333-350 | the whole effect of an uninterrupted cancel request, with the errors for an unknown pair and an unknown id |
| Server.DeleteAnswers | src/api.rs:333-350 | the answer follows from whether the market exists and holds the id; exactly that order leaves and the market is announced once, or nothing changes |
| Server.AppState.MatchIn | src/api.rs:288-306 | matching in one market's book object changes that market's book as the reference match does, and no other |
| Server.AppState.CancelIn | src/api.rs:337-341 | the same for a cancel |
| Server.AppState.Record | src/api.rs:307-323 | what follows the match: log, then store, and only if every insert succeeds broadcasts and the announcement |
| Server.AppState.Persist | src/api.rs:312-316 | inserts in order and stops at the first failure, keeping what was inserted |
| Server.AppState.Broadcast | src/api.rs:318-321 | appends the trades to the channel in order |
| Server.AppState.constructor | src/state.rs:37-54 | a new state has an empty book for BTC-USD, one for ETH-USD, and nothing else |
| Server.UndisturbedCreate | src/api.rs:279-324 | from any reachable state with free locks, a create request can run to its end by steps of its own alone, which continue the given run and add up to the handler's effect, also when it is refused or an insert fails; every lock is free again, every other request and every client unchanged |
| Server.UndisturbedCancel | src/api.rs:333-350 | the same for a cancel request, also for an unknown pair or id |
| TradeLog.BrowseIsWalk | src/api.rs:226-254 | a client that follows `next` through the handler, with positive limits, makes a walk with limits capped at 1000 |
| TradeLog.FirstAnswer | src/api.rs:226-254 | a request from the start gets the first `limit` trades of the market, at most 1000, is told that number, and gets a next cursor if and only if more remain |
| TradeLog.NextAnswer | src/api.rs:226-254 | the same behind the cursor of any stored trade |
| TradeLog.RefusedExactly | src/api.rs:231-245 | a request is refused for its limit if and only if it is zero, and for its cursor if and only if that names no stored trade of the market |
| TradeLog.RunGrowsStore | src/api.rs:311-316 | as a run goes on no stored trade is lost or replaced |
| TradeLog.BrowseDuringRun | src/api.rs:226-324 | a client paging a market during any run is never refused, sees that market's trades in strictly ascending order, and at the end has seen every trade stored when it began |
| Chronology.HistoryIsExecutionOrder | src/store.rs:50-57 | a market's stored history is its part of the log in order of execution if and only if its clock readings never go back and, where equal, maker and then taker ids ascend |
| Chronology.TieOutOfOrder | src/store.rs:50-57 | a run in which two trades made at one clock reading are stored in the opposite order |

## Left out

- HTTP routing, extractors, JSON, status codes, tracing and the WebSocket transport: input and output around the modelled steps. `handle_socket` is modelled up to a failed send.
- The embedded database, `bincode` and the base64-JSON cursor text: an ordered map with `seek` and `next`, a lossless value codec, and a cursor text that decodes to a cursor or fails.
- Errors of the store other than a failing insert, and durability across restarts.
- The system clock and UUID generation: clock readings are parameters and the ids of orders are assumed new. The panic of `to_nanos` on times before 1970 is not modelled.
- Lag and dropped receivers of the broadcast channels (capacities at `src/state.rs:39-40`): channels lose nothing, and `NoMissedUpdate` is about clients that do not fall behind.
- `src/market_maker.rs`, `src/simulate.rs`, `src/main.rs`, `src/utils.rs`, `src/errors.rs` and the benchmarks: clients and start-up code.
- `iter_trades`, `get_order_book` and the parsing of pairs: each would add only easy members. `Pair` is not limited to the two supported pairs; the markets are.
- Engine.WalkLevels: the two nested loops are two methods, and the queues are sequences replaced in the map rather than deques changed through a borrowed reference.
- Snapshot.SumExact: sums wrap as in a release build; a debug build panics instead.
- TradeStore.ReadPage: adding one to the largest limit wraps in the same way, and panics in a debug build.
- Server.AppState.CreateOrder: runs without interruption; the interleavings are those of `Protocol`, whose books are values.
- Interleavings.NoMissedUpdate: goes one way, about the requests still to announce; the exact condition is `Outdated.OutdatedExactly`.
- Progress.EveryRequestCanFinish: says that requests can finish, not that they must: locks are granted to any waiting request, so nothing is claimed about fairness. Its condition on ids is that of 128-bit ids running out.
- Protocol: a request reads its market's book in one step and writes it in another; within each step it is not divided further. Read locks are single steps.
