# KisaanPower trading transactions, modelled in Dafny

This project models the transaction logic of a commodity exchange. It covers two parts:

- **Auction.** A member places offers on a commodity listing. Closing the bidding sorts the offers by descending bid price and takes the first one. If that bid meets the reserve price, the listing is `SOLD`. The seller's whole on-hand quantity `q1` then moves into the buyer's ledger (`qr1` down, `tc1` up), the seller's `q1` drops to zero, the buyer becomes the commodity's owner and the offers are cleared. If no bid meets the reserve, the listing is `RESERVE_NOT_MET`.
- **Relay.** A commodity passes along a fixed chain: member → local mandi → destination mandi → wholesaler. Each hop applies the same rule. It checks `dest.qr1 - qs >= 0 && source.tc1 - qs >= 0`. On success it moves `qs` and stamps the commodity with where it came from, where it went and the destination's price. On failure it stamps the sentinels `"NULL"`, `0` and `"Transfer failed"` and changes no quantity. The outcome is written into the commodity, not thrown.

Files:

- `entities.dfy` (module `Entities`) holds the entities. The participants are one class, `Holder`, with a constant `role` (member, local mandi, destination mandi or wholesaler), so that one relay method serves all three hops. `Commodity` and `Listing` are classes whose fields the transactions update in place. `Offer` is an immutable datatype. A listing's `offers` is `Option<seq<Offer>>`, with `None` standing for a null collection.
- `auction.dfy` (module `Auction`) holds `MakeOffer` and `CloseBidding` as heap-mutating methods. They are specified by pure functions:
  - `SortByBid` is the stable sort by descending bid.
  - `FirstMax` picks the earliest of the highest bids.
  - `Clearing` gives the resulting listing state.
  
  Lemmas prove that the sort is a permutation, sorted and stable, and that its first element is the earliest highest bid.
- `relay.dfy` (module `RelayTransfer`) holds one generic `Relay` method and its three instances. Their results are tied to the value-level rule `Transfer`. A value model of the whole chain (`Chain`, `Step`, `Run`) states conservation and composition along the chain.

Tie-break on equal bids: the offer made earliest wins. The source sorts with `Array.prototype.sort` and the comparator `b.bidPrice - a.bidPrice`. That sort must be stable from ECMAScript 2019 (ECMA-262 10th edition) onward, so equal bids keep their submission order. A stable sort has only one possible result, so `SortByBid` (a stable insertion sort) is exactly the order the source leaves the offers in. This order survives when the reserve is not met.

Aliasing: the buyer and the seller may be the same member. `CloseBidding` reads `seller.q1` before zeroing it. The `Settled` predicate states each party's new ledger so that it holds whether or not the two are one object. Relay sources and destinations have different roles, so they are distinct.

Two behaviours of the code deserve a note:

- **Events.** Each relay function is written to emit a notification after persisting (transactions.js:167-171), but the earlier `return` of the registry promise chain (transactions.js:146, 216, 286) makes that code, and the final update after it (167-174, 236-243, 306-313), unreachable. The model emits nothing.
- **Tie-break.** The source does not document what happens on equal bids. The stable sort fixes it as "earliest offer wins", as described above.

## Model

| member | source | states |
|---|---|---|
| `Auction.MakeOffer` | transactions.js:24-32 | A listing that is not `FOR_SALE` makes it fail, and the listing is left untouched. Otherwise the offers become the old ones (empty if null) with the new offer appended last; state and reserve price do not change. |
| `Auction.CloseBidding` | transactions.js:47-86 | A listing that is not `FOR_SALE` makes it fail before any change. Otherwise the state becomes `Clearing(offers, reserve)`. On `SOLD`, with `k` the seller's old `q1`: the buyer (the earliest highest bidder) has `qr1` lowered by `k` and `tc1` raised by `k`, the seller has `q1 = 0`, this holds also when they are one member, the buyer owns the commodity and the offers are null. On `RESERVE_NOT_MET`: no participant and no owner changes, and the offers are the old ones sorted by `SortByBid` (null stays null). |
| `Auction.CloseBiddingTwice` | transactions.js:49-51 | Closing a listing that is for sale and then closing it again: the first close passes, the second fails, and the end state is exactly what one close gives. The state is `Clearing(offers, reserve)`. On `SOLD`, the buyer's and seller's ledgers are settled once (`Settled` against the state before both closes), the buyer owns the commodity and the offers are null. On `RESERVE_NOT_MET`, the offers are sorted and no participant or owner changes. So a sale is never settled twice. |
| `Auction.SortOffers` | transactions.js:57-61 | Sorting the offers gives exactly `SortByBid` of them, the stable descending order. |
| `Auction.SortIsPermutation` | transactions.js:59-61 | The sorted offers are the same multiset as before. |
| `Auction.SortIsSorted` | transactions.js:59-61 | The sorted offers are in descending order of bid price. |
| `Auction.SortIsStable` | transactions.js:59-61 | For every price, the offers bidding that price appear in the sorted list in the order they were made. |
| `Auction.FirstMax` | transactions.js:59-62 | The chosen position holds a bid at least as high as every offer's, and every offer made before it bids strictly less. |
| `Auction.SortHeadIsFirstMax` | transactions.js:59-62 | The first offer after sorting (`highestOffer`) is the earliest of the highest bids. |
| `Auction.FirstMaxOfSorted` | transactions.js:62 | In offers already sorted by bid, the earliest highest bid is at index 0. |
| `Auction.ClearingSoldIff` | transactions.js:53-65 | Clearing gives `SOLD` exactly when some offer's bid is at least the reserve price, and otherwise `RESERVE_NOT_MET`. |
| `RelayTransfer.Transfer` | transactions.js:116-143 | A hop keeps the source's `qr1`. It conserves `source.tc1 + dest.tc1` and `dest.qr1 + dest.tc1`. When the check passes, `dest.tc1` rises by `qs` and both checked quantities stay non-negative. When it fails, neither ledger changes. |
| `RelayTransfer.Relay` | transactions.js:116-143 | The two ledgers become what `Transfer` gives. On success the commodity gets `cameFrom` = source name, `sendingTo` = destination name, `priceOfCom` = destination's `p1` and `"Transfer Successful"`. On failure it gets `"NULL"`, `"NULL"`, `0` and `"Transfer failed"`. Nothing else is written. |
| `RelayTransfer.SellToLocalMandi` | transactions.js:112-144 | The member → local mandi hop is `Relay` with that pair. |
| `RelayTransfer.SellToDestinationMandi` | transactions.js:184-214 | The local mandi → destination mandi hop is `Relay` with that pair. |
| `RelayTransfer.SellToWholesaler` | transactions.js:252-284 | The destination mandi → wholesaler hop is `Relay` with that pair. |
| `RelayTransfer.Step` | transactions.js:116-271 | One hop on the chain keeps the total `tc1` in transit. It never touches the member's `qr1`. With `qs >= 0` it keeps every quantity non-negative. |
| `RelayTransfer.RunConservesInTransit` | transactions.js:116-271 | Any sequence of hops keeps the total `tc1` along the chain. |
| `RelayTransfer.RunKeepsNonNegative` | transactions.js:116-271 | Any sequence of hops with non-negative quantities keeps every quantity non-negative. |
| `RelayTransfer.NegativeQuantityUnderflows` | transactions.js:116-131 | `qs` is never checked for sign, and a quantity of -1 passes the check and drives the local mandi's `tc1` below zero. |
| `RelayTransfer.ChainDelivers` | transactions.js:119-271 | Three hops of the same `q` carry it from the member's `tc1` to the wholesaler's `tc1`. Hops 2 and 3 pass because the previous hop added `q` to their source's `tc1` (line 131 → 187/190, line 202 → 256/261). Each mandi ends with its starting `tc1`. |

## Left out

- Registry persistence is left out. This covers `getAssetRegistry`, `getParticipantRegistry`, `update` and `updateAll`, and the promise chains that call them (transactions.js:35-36, 88-102, 146-164, 216-234, 286-304). It is host I/O, so neither the writes nor their order is recorded. The model does not capture that a failed relay hop is still persisted.
- Event construction and emission (transactions.js:167-174, 236-243, 306-313) are left out. The code never reaches them, and they are calls into the host.
- The `console.log` tracing (transactions.js:70, 73, 75, 77) is left out.
- JavaScript numbers are IEEE doubles. Quantities and prices here are unbounded integers, so rounding and non-integer values are not modelled.
- The host's decoding and schema validation of a transaction are left out. The participant types appear only as the `role` tag that the hop methods require. Concurrency and atomicity across invocations are also left out: each method is one atomic step.
- `Auction.SortOffers`: the sort algorithm of the JavaScript engine is not modelled. An insertion sort stands in for it, and only the result is claimed equal, which is unique for a stable sort. The sort works on a sequence value assigned back to the listing, not on an array in place.
- The distinction between an `undefined` and a `null` offers collection is not modelled. Both are `None`, and the code treats them alike.
