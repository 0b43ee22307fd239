# Per-step double-sided energy auction, modelled in Dafny

This project models the market core of a microgrid simulation. At every
simulation step, households and other agents submit bids (to buy energy)
and offers (to sell energy) as `[price, quantity, id]` triples. The
auctioneer then works through these stages:

- It drops empty submissions.
- It sorts bids by falling price and offers by rising price.
- It builds the aggregate demand/supply curve. Each segment sits at a
  cumulative quantity `x` and carries a bid price, an offer price, a buyer
  id and a seller id. The missing side of a segment is filled forward from
  the next segment that has it.
- It filters the curve with the market rules.
- It finds the clearing point.
- It matches trades: pay-as-clear, pay-as-bid, or McAfee pairs handed in.
- It records the min / average / max trade price.
- It settles every pair into the agents' wallets, the per-agent energy
  lists and the market maker's wallet.

The project also models the list logic of the data holder:
- cutting loaded time series to the simulated window;
- handing profiles out by the classification array;
- flooring negative utility prices at zero;
- recording an agent's traded volume.

Modules:
- `AuctionTypes` (types.dfy) holds the shared values. These are orders,
  segments, trade pairs, McAfee pairs, and the faults that abort a run
  (Python exceptions and failed assertions become `Failure(fault)`).
- `SeqUtil` (seqs.dfy) holds list comprehensions and Python's stable
  `sorted`. The sort is an insertion sort that places an element after
  every equal key. It is proved sorted, a permutation, and equal to the
  merge of two sorted runs.
- `Curve` (curve.dfy) covers `sorting` (empty-entry removal, sort, prefix
  sums, merge, forward fills) and `market_rules`.
- `Clearing` (clearing.dfy) covers `check_demand_supply`,
  `clearing_quantity_calc` with its corrected counterpart, `pac_pricing`,
  `pab_pricing` and the price summary.
- `Ledger` (ledger.dfy) covers the double-entry settlement of one trade.
  It also gives the totals over all agents.
- `Auction` (auctioneer.dfy) holds the `Auctioneer` class: its fields are
  reset and updated by `AuctionRound`, `Sorting`, `ExecuteAuction` and
  `ClearingOfMarket`. It also holds settlement over whole pair lists.
- `Profiles` (data.dfy) holds the `Data` class: `slice_from_to`,
  `fill_in_classification_array`, the utility-price floor and the
  measurement dictionary.

Decisions:
- Where the code and its documentation disagree, the model follows the
  code. `check_demand_supply` is documented as totalling demand and supply.
  The code sums field 0 of each order, which is the price, and the model
  does the same.
- For the three defects listed under "## Findings", the code as written
  has a member of its own, with a lemma that exhibits the defect. The
  auctioneer pipeline uses the corrected definitions: `Sorting` uses
  `DropEmpty`, and `PacPricing` and `PabPricing` use `ClearingPoint`.
  The inputs on which this changes the outcome are listed under
  "## Left out".
- Every other behaviour follows the code as written. This includes two
  quirks of `pac_pricing` (source/auctioneer_methods.py:81-87):
  - when a seller runs out, the next available supply is read from the
    PRICE field of the offer at the current index;
  - the seller id is taken before the index advances, so the same seller
    is read again.
  `MatchBid` keeps both quirks. Its contract proves only what holds
  regardless of them. Because of them, pay-as-clear can pair a seller with
  itself, and settlement then stops with `AssertionFailed`.

## Model

| member | source | states |
|---|---|---|
| `Curve.RemoveEmpty` | source/auctioneer_agent.py:193-199 | The `for … remove` loop as written. Its result is the list `list.remove` leaves while the iterator keeps advancing. |
| `Curve.RemoveEmptyKeepsOrders` | source/auctioneer_agent.py:193-199 | The removal loop never loses an order and keeps the orders in submitted order. Only placeholders disappear. |
| `Curve.AdjacentEmptySurvives` | source/auctioneer_agent.py:193-199 | Of two adjacent empty submissions, one survives the loop. This holds both at the front and after an order. |
| `Curve.DropEmpty` | source/auctioneer_agent.py:193-199 | Intended removal: no placeholder remains, every order is kept, and nothing else appears. |
| `Curve.DropEmptyCounts` | source/auctioneer_agent.py:193-199 | Every order occurs in the result exactly as often as in the input, and no placeholder occurs. |
| `Curve.DropEmptyKeepsOrder` | source/auctioneer_agent.py:193-199 | Removal distributes over concatenation, so the orders keep their submitted order. |
| `Curve.SortedBidsAndOffers` | source/auctioneer_agent.py:204-206 | The sorted bids are a permutation of the bids in non-increasing price order. The sorted offers are a permutation of the offers in non-decreasing price order. |
| `Curve.BidSegments` | source/auctioneer_agent.py:227-238 | The k-th bid segment sits at the total quantity of the first k+1 sorted bids. It carries that bid's price and buyer, with no offer side. |
| `Curve.OfferSegments` | source/auctioneer_agent.py:242-252 | The k-th offer segment sits at the total quantity of the first k+1 sorted offers. It carries that offer's price and seller, with no bid side. |
| `Curve.QuantityTotalMonotone` | source/auctioneer_agent.py:227-252 | With non-negative quantities, the cumulative axis never decreases. |
| `Curve.BidSegmentsSorted` | source/auctioneer_agent.py:227-238 | The bid segments are in non-decreasing `x` order. |
| `Curve.OfferSegmentsSorted` | source/auctioneer_agent.py:242-252 | The offer segments are in non-decreasing `x` order. |
| `Curve.MergedCurveOrder` | source/auctioneer_agent.py:254-258 | The stable sort of bid segments followed by offer segments is a permutation of both, sorted by `x`. At equal `x`, no offer segment precedes a bid segment. |
| `Curve.FirstFrom` | source/auctioneer_agent.py:270-303 | The scan for the next segment holding a side finds the nearest one at or after `k` and skips none. When there is none, it reports that. |
| `Curve.FillOffers` | source/auctioneer_agent.py:263-287 | The offer forward-fill loop turns every segment into its offer-filled form. |
| `Curve.FillBids` | source/auctioneer_agent.py:289-303 | The bid forward-fill loop turns every segment into its bid-filled form. |
| `Curve.ScanOffer` | source/auctioneer_agent.py:276-284 | The inner look-ahead of the offer fill changes only the current segment, which becomes its offer-filled form. |
| `Curve.ScanBid` | source/auctioneer_agent.py:294-300 | The inner look-ahead of the bid fill changes only the current segment, which becomes its bid-filled form. |
| `Curve.OfferFillMeaning` | source/auctioneer_agent.py:263-287 | Filling keeps `x` and the bid side. A segment has an offer after filling iff some segment at or after it has one. A bid-only segment takes the price and seller of the nearest later offer segment. |
| `Curve.BidFillMeaning` | source/auctioneer_agent.py:289-303 | Filling keeps `x` and the offer side. A segment has a bid after filling iff some segment at or after it has one. An offer-only segment takes the price and buyer of the nearest later bid segment. |
| `Curve.BuildCurve` | source/auctioneer_agent.py:216-305 | Prefix sums, merge, offer fill and bid fill together compute the curve of the sorted lists. |
| `Curve.CurveShape` | source/auctioneer_agent.py:216-305 | The curve has one segment per order and is sorted by `x`, for any quantities. Every segment ends up with a bid or an offer price. |
| `Curve.MarketRules` | source/auctioneer_agent.py:88-103 | Every surviving segment has buyer ≠ seller and `x` ≠ 0. Every such segment of the input survives, and nothing else appears. |
| `Curve.MarketRulesKeepsOrder` | source/auctioneer_agent.py:91-95 | The filter distributes over concatenation, so survivors keep their relative order. |
| `Curve.MarketRulesCounts` | source/auctioneer_agent.py:88-103 | Every admissible segment occurs in the result exactly as often as in the curve, and any other segment does not occur. |
| `Clearing.CheckDemandSupply` | source/auctioneer_methods.py:6-21 | An empty list totals 0. With non-negative prices, the totals are non-negative. |
| `Clearing.DemandSupplyIgnoresOrder` | source/auctioneer_methods.py:6-21 | Sorting the bids and offers does not change either total. |
| `Clearing.CompleteSegments` | source/auctioneer_methods.py:142-143 | Keeps exactly the segments that have both a bid and an offer price. |
| `Clearing.ClearingQuantityCalc` | source/auctioneer_methods.py:132-178 | As written: fails with an index error exactly when no segment is complete. Otherwise the quantity and price are `None` together. |
| `Clearing.LeadingClears` | source/auctioneer_methods.py:168-176 | Counts the run of clearing segments at the front. Every segment in the run has bid ≥ offer, and the one after the run is crossed. |
| `Clearing.ClearingPoint` | source/auctioneer_methods.py:147-176 | Intended clearing point: no trade iff nothing is complete or the first complete segment is crossed. Otherwise it is the point of the segment that ends the leading clearing run. |
| `Clearing.ClearingAgreesWhenFirstClears` | source/auctioneer_methods.py:150-176 | When the first complete segment clears, the code as written returns the intended point, for both full and partial clearance. |
| `Clearing.NoClearanceWhenAllCrossed` | source/auctioneer_methods.py:159-161 | When every complete segment is crossed, both versions give `(None, None)`. |
| `Clearing.PartialClearanceWraps` | source/auctioneer_methods.py:168-176 | Suppose the first complete segment is crossed and a later one clears. The code as written then reads index -1 and reports the last segment, while the intended result is no trade. |
| `Clearing.WrapCounterexample` | source/auctioneer_methods.py:168-176 | A two-segment curve on which the code as written reports a trade of 10 at 0.30 where none should happen. |
| `Clearing.EmptyCurveCounterexample` | source/auctioneer_methods.py:151-155 | With no complete segment, the code as written raises an index error, while the intended result is no trade. |
| `Clearing.FullClearanceScenario` | source/auctioneer_methods.py:151-155 | Example: on one concrete curve where everything clears, the result is the last complete segment's quantity and bid price. |
| `Clearing.PartialClearanceScenario` | source/auctioneer_methods.py:165-176 | Example: on one concrete curve, the clearing point is the segment just before the first crossing. |
| `Clearing.RecordTrade` | source/auctioneer_methods.py:61-78 | Appending a pair paid at the clearing price, without passing `q`, keeps the matching invariant. |
| `Clearing.MatchBid` | source/auctioneer_methods.py:48-93 | After serving one bid, the matched total stays ≤ `q` and equals `q` once `filled`. The pairs' quantities sum to the matched total. Each pair's payment is its quantity × the clearing price, between a bidder and an offerer, and the supplier index never goes back. |
| `Clearing.NextSeller` | source/auctioneer_methods.py:81-87 | Moving to the offer at the supplier index (its price read as supply, its id as seller) keeps the matching invariant. |
| `Clearing.PaymentsAtPrice` | source/auctioneer_methods.py:97-99 | Pairs each paid at `p` have total payment = total quantity × `p`, so the turnover check on the pairs holds exactly. |
| `Clearing.PacPricing` | source/auctioneer_methods.py:24-103 | Gives `(q, p, None, None)` iff there is no clearing point. A negative turnover fails iff the turnover check fails. A missing offer list fails with an index error. When cleared: matched = q, Σ payments = turnover = q·p ≥ 0, and every pair is paid at p. |
| `Clearing.PabPairs` | source/auctioneer_methods.py:115-126 | Builds one pair per executed segment, with quantity `x` and payment `x` × bid price. It fails iff some executed segment has no bid price. |
| `Clearing.ExecutedSegments` | source/auctioneer_methods.py:112 | Keeps exactly the segments with `x` below the clearing quantity. |
| `Clearing.PabPricing` | source/auctioneer_methods.py:106-129 | Returns the clearing quantity only. It succeeds iff there is a clearing quantity whose executed segments all have bid prices, or the curve is empty. Every failure is a type error. |
| `Clearing.Summarize` | source/auctioneer_agent.py:147-157 | min ≤ average ≤ max. The extremes are members that bound every figure, and average × count = sum. |
| `Clearing.PaymentFigures` | source/auctioneer_agent.py:147 | The last field of every pay-as-clear pair, in order. |
| `Clearing.McAfeeFigures` | source/auctioneer_agent.py:147-157 | Single payments are read as they are, and all-split payments as their midpoints. A mix fails, with a type error. |
| `Ledger.Book` | source/auctioneer_agent.py:316-320 | A wallet booking adds the amount to the step's entry and leaves every other step alone. |
| `Ledger.SettleBalanced` | source/auctioneer_agent.py:309-320 | The seller gets −q and the buyer +q in the energy lists. The seller's revenue and the buyer's payment at the step grow by the turnover. The seller's payment book, the buyer's revenue book, their fluxes and every other step are unchanged. Nobody else changes, and the registries keep their keys. |
| `Ledger.SettleImbalanced` | source/auctioneer_agent.py:322-337 | Like the balanced case, with the seller credited its revenue and the buyer charged its payment. The market maker's revenue at the step grows by exactly payment − revenue. Its payment book and every other step are unchanged. |
| `Ledger.BalancedConserves` | source/auctioneer_agent.py:309-320 | Over all agents, total revenue and total payment both grow by the turnover, and net energy is unchanged. |
| `Ledger.ImbalancedConserves` | source/auctioneer_agent.py:322-337 | Seller revenue plus the market maker's residual equals buyer payment, and net energy is unchanged. |
| `Auction.SettleOneBalanced` | source/auctioneer_agent.py:309-320 | Succeeds iff seller ≠ buyer and both are registered. A self-trade fails the assertion, and an unknown id is a key error. |
| `Auction.SettleOneMcAfee` | source/auctioneer_agent.py:362-378 | Succeeds iff the agents can settle and the payment's shape fits its budget-balance flag, with payment ≥ revenue when imbalanced. |
| `Auction.SettleUniform` | source/auctioneer_agent.py:340-348 | Settling a list of pay-as-clear pairs keeps the registries' keys. |
| `Auction.SettleMcAfee` | source/auctioneer_agent.py:362-378 | Settling a list of McAfee pairs keeps the registries' keys. |
| `Auction.UniformSettlementSucceeds` | source/auctioneer_agent.py:340-348 | Uniform settlement goes through iff every pair is between two different registered agents. |
| `Auction.UniformSettlementConserves` | source/auctioneer_agent.py:340-348 | Total revenue and total payment each grow by the sum of the pair payments, and net energy is unchanged. |
| `Auction.McAfeeSettlementConserves` | source/auctioneer_agent.py:362-378 | Revenue credited plus the market maker's residual equals the payment charged, and net energy is unchanged. |
| `Auction.ResetFlux` | source/auctioneer_agent.py:383-386 | Every agent's energy trade flux becomes 0, and the wallets are kept. |
| `Auction.EmptyLists` | source/auctioneer_agent.py:49-51 | One empty energy list per registered agent. |
| `Auction.RoundEnergyBalances` | source/auctioneer_agent.py:315-331 | A settlement that goes through leaves the recorded energy of all agents summing to zero. |
| `Auction.Auctioneer.constructor` | source/auctioneer_agent.py:14-42 | A fresh auctioneer has empty lists, no clearing figures and an empty wallet. |
| `Auction.Auctioneer.Sorting` | source/auctioneer_agent.py:182-305 | Removes placeholders from the bid and offer fields in place. Returns the sorted lists and the curve built from them. The accounts and the step are untouched. |
| `Auction.Auctioneer.ExecuteAuction` | source/auctioneer_agent.py:105-163 | Leaves the accounts and all four lists alone. The fields hold `Executed` of the rule on `MarketRules(curve)`: pay-as-clear and pay-as-bid hold their pricing outcome, McAfee holds the handed-in quantity, price and pairs. The summary is exactly `Summarize` of the payment figures after trades, is unchanged without trades, and is unchanged when pricing fails. On success the pairs fit the rule. |
| `Auction.Auctioneer.Pricing` | source/auctioneer_agent.py:118-141 | Dispatches on the pricing rule. Only the clearing quantity, price and pairs change, and they satisfy `PricedAs` of the rule: the pay-as-clear or pay-as-bid outcome, or the McAfee figures with no fault. |
| `Auction.Auctioneer.PriceAsClear` | source/auctioneer_agent.py:126-132 | Fails with a negative-turnover error iff a clearing point exists and the turnover check fails. Fails with an index error iff the check passes and there are no offers. Any other fault is divergence. Without a fault, the clearing fields hold the facts of `PacPricing`. The accounts do not change. |
| `Auction.Auctioneer.PriceAsBid` | source/auctioneer_agent.py:118-124 | Succeeds iff `PabPricing` does, and every failure is a type error. On success, sets the clearing quantity of `PabPricing` with no price and no pairs. The accounts do not change. |
| `Auction.Auctioneer.RecordPriceSummary` | source/auctioneer_agent.py:146-163 | With pay-as-clear or pay-as-bid trades, records exactly `Summarize` of the payment figures. With McAfee trades, records `Summarize` of `McAfeeFigures` or reports its fault. Without trades, nothing changes. |
| `Auction.Auctioneer.WhoGetsWhatBalanced` | source/auctioneer_agent.py:309-320 | The accounts become the result of `SettleOneBalanced`, or the fault is reported. |
| `Auction.Auctioneer.SettleMcAfeePair` | source/auctioneer_agent.py:322-378 | The accounts become the result of `SettleOneMcAfee`, or the fault is reported. |
| `Auction.Auctioneer.SettleUniformPairs` | source/auctioneer_agent.py:340-348 | Settling the pay-as-clear or pay-as-bid pairs one by one leaves the accounts at `SettleUniform` of the whole list, or reports the first fault. |
| `Auction.Auctioneer.SettleMcAfeePairs` | source/auctioneer_agent.py:362-378 | Settling the McAfee pairs one by one leaves the accounts at `SettleMcAfee` of the whole list, or reports the first fault. |
| `Auction.Auctioneer.ClearingOfMarket` | source/auctioneer_agent.py:307-386 | The accounts become `SettleAll` of the pairs, and an empty McAfee list fails. Afterwards every agent's flux is 0 and the keys are kept. |
| `Auction.Auctioneer.RunAuction` | source/auctioneer_agent.py:59-69 | The bid and offer fields lose their placeholders. The sorted fields are those of `SortedMarketOf` the remaining orders, and the market fields hold `Executed` on the market rules of that curve. When the auction raises (ghost `executed`), that fault is returned and the accounts are unchanged. Otherwise the accounts are `Settled`: unchanged without trades, else `SettleAll` with every flux reset to 0, or the settlement fault. |
| `Auction.Auctioneer.SortAndKeep` | source/auctioneer_agent.py:63 | Stores the sorted lists of `SortedMarketOf` the placeholder-free orders and returns its curve. The accounts, the step and the summary are unchanged. |
| `Auction.Auctioneer.ExecuteAndSettle` | source/auctioneer_agent.py:64-67 | With the lists fixed, the market fields hold `Executed` on `MarketRules(curve)`. An auction fault is returned with the accounts unchanged. Otherwise the accounts are `Settled` from the old ones. |
| `Auction.Auctioneer.AuctionRound` | source/auctioneer_agent.py:44-85 | Every agent first gets a fresh empty energy list. Without an order on both sides, only the bid and offer fields change (to empty) and there is no fault. Otherwise the round runs as `RunAuction` on the placeholder-free orders, starting from the books with fresh energy lists: an auction fault leaves those books, and otherwise they become `Settled`. Every round without a fault ends with both lists empty and the keys kept. |
| `Auction.SettledKeepsKeys` | source/auctioneer_agent.py:340-386 | A settlement that goes through keeps the keys of both registries. |
| `Auction.ExecutedAfterFailedPricing` | source/auctioneer_agent.py:118-141 | When pricing raises, the round's market fields already satisfy `Executed`, with the summary untouched. |
| `Auction.ExecutedAfterSummary` | source/auctioneer_agent.py:118-163 | Successful pricing followed by the summary step satisfies `Executed` of the rule. |
| `Profiles.SliceBound` | source/data.py:254-257 | A Python slice bound resolved against the list length: in range it is kept, and past the end it clamps to the length. |
| `Profiles.PySlice` | source/data.py:254-257 | `s[start:stop]`: equal to Dafny's slice in range. For non-negative bounds, the length is the clamped window and element k is `s[start+k]`. |
| `Profiles.LeadingProfiles` | source/data.py:252-255 | The number of profiles before the first plain number in the list. |
| `Profiles.SliceList` | source/data.py:249-263 | Fails iff the list is empty (index error) or a profile list holds a plain number (type error). A flat list is cut as one window. |
| `Profiles.Rewritten` | source/data.py:252-255 | What the caller's list holds afterwards. It has the same length as before. |
| `Profiles.NestedWindows` | source/data.py:252-255 | A profile list keeps its number of profiles. Each profile becomes its window of `num_steps + foresight` steps from `sim_start`. |
| `Profiles.FlatWindow` | source/data.py:256-258 | A flat series becomes its window from `sim_start`. |
| `Profiles.TrimProfiles` | source/data.py:252-255 | The in-place loop over a profile list returns `SliceList` and leaves the list as `Rewritten`. |
| `Profiles.RewrittenIsResult` | source/data.py:252-255 | On success, the list rewritten in place equals the list returned. |
| `Profiles.Scaled` | source/data.py:232-236 | A numeric flag multiplies every element, and a boolean flag leaves the series as it is. |
| `Profiles.HandOutIsPrefix` | source/data.py:220-245 | The load (or storage) profiles handed out are exactly the first `Holders` loaded ones, in agent order. |
| `Profiles.DistributedInOrder` | source/data.py:220-245 | In a distributed array, the load and storage profiles are the leading part of their loaded lists. |
| `Profiles.Data.constructor` | source/data.py:13-24 | Stores the configuration and the loaded profiles, with no measurements yet. |
| `Profiles.Data.SliceFromTo` | source/data.py:249-263 | A non-list fails, with a type error (an index error if it is empty). A list gives `SliceList`, and the caller's list becomes `Rewritten`. |
| `Profiles.Data.TakeProfile` | source/data.py:224-245 | One agent's turn for one resource. A truthy flag takes the profile at the counter (PV scaled by a numeric flag) and advances the counter, failing iff the list has run out. A falsy flag gives `None`. A failure means the whole walk needs more profiles than there are. |
| `Profiles.Data.FillInClassificationArray` | source/data.py:216-247 | Succeeds iff there are enough load, PV and storage profiles for the truthy flags. Then each agent gets the profile numbered by the earlier holders (PV scaled by a numeric flag), or `None` for a falsy flag. |
| `Profiles.Data.Floored` | source/data.py:70-71 | Every price is non-negative; non-negative prices are kept and negative ones become 0. |
| `Profiles.Data.FloorUtilityPrices` | source/data.py:70-71 | With negative pricing switched off, the profile array is floored in place. Otherwise it is unchanged. |
| `Profiles.Data.InitiateMeasurementDict` | source/data.py:89-97 | Every agent gets a zeroed traded-volume series of `num_steps` entries. |
| `Profiles.Data.FillMeasurementDict` | source/data.py:99-105 | The agent's traded volume at the step becomes the sum of its settlement list. A missing agent is a key error, a step past the series an index error, and nothing else changes. |

## Left out

- `execute_auction` as written calls each pricing function with only the
  curve and unpacks four values, while `pab_pricing` returns three. That is
  a type error on every run. The model passes the sorted lists, as the
  definitions expect. It reads pay-as-bid's result as (quantity, no price,
  no pairs).
- The whole-list numpy shape assertions in `clearing_of_market` are not
  modelled: `np.shape(self.trade_pairs)[1] is 5` or `is 6`, and the
  `ValueError` fallback. Pairs are read field by field. Each McAfee
  pair's own payment-shape check is modelled. A budget-balanced pair with
  a split payment fails the assertion. An imbalanced pair with a single
  amount fails with a type error.
- `mcafee_pricing` is not part of this model, because it is defined in no
  file of the repository. Its outcome (quantity, price, pairs) is a
  parameter of `ExecuteAuction` and `AuctionRound`.
- `Wallet` is not part of this model. A wallet is a pair of per-step
  books, and settling adds the amount to the step's entry.
- Agents are a value map from id to wallet and energy trade flux. Aliasing
  between agent objects is not modelled.
- `Clearing.PacPricing` has a `fuel` bound. The loop `while not filled`
  can spin forever, for example when the supply runs out before `q` is
  matched. The model stops after `fuel` passes and reports `Diverged`.
- `pac_pricing`'s final assertions are not separate checks in the model:
  `matched == q` and the turnover within 0.01. They are proved to hold
  whenever matching finishes.
- Settlement faults abort the round. The partial writes Python has made
  to the lists and wallets before the failing pair are not kept.
- Not modelled, as they are logging, plotting or statistics over external
  data:
  - `user_participation`;
  - logging and `clearing_snapshot` plotting;
  - the household-demand accumulation over `load_data`;
  - the writes of the summary into the data arrays.
- From the data holder, these are not modelled:
  - the CSV loaders;
  - the configuration-dependent choice of data set;
  - the `len(...) >= num_steps` assertion on the loaded price profile;
  - the other measurement series (surplus, bid energy, revenue), which
    the code never fills.
- Profiles are modelled as `seq<real>`, and numpy arrays inside the
  measurement dictionary as sequences. The utility price profile is the
  only array updated in place.
- Python floats are modelled as exact reals, with no rounding.
- `Clearing.PacPricing` uses the corrected `ClearingPoint` instead of
  `clearing_quantity_calc` as written, so it differs from the code on
  two kinds of curve:
  - A curve with no complete segment. Example: one agent bids and offers
    5 units, and the market rules drop the only segment as a self-trade.
    The code raises an index error at source/auctioneer_methods.py:151-155.
    The model finds no clearing point, and `AuctionRound` ends with no
    fault and no trade.
  - A curve whose first complete segment is crossed while a later one
    clears (second row under "## Findings"). The code trades at the last
    segment, and the model makes no trade.
- `Clearing.PabPricing` differs from the code on the same curves. An empty
  curve (every segment dropped by the market rules) makes the code raise
  an index error at source/auctioneer_methods.py:151-155, while
  `PabPricing` returns `Success(None)`.
- `Auction.Auctioneer.Sorting` removes every placeholder with `DropEmpty`.
  On the bid list `[order, [], []]` the code's loop leaves `[order, []]`,
  and the sort key then raises an index error
  (source/auctioneer_agent.py:193-204). The model drops both placeholders
  and sorts the one order.

## Findings

| source | as written | input that shows it | evidently intended | confidence | as-written member | corrected member |
|---|---|---|---|---|---|---|
| source/auctioneer_agent.py:193-199 | `remove` inside `for` over the same list skips the entry after each removed one | the bid list `[order, [], []]` passes the emptiness gate and leaves `[order, []]`; the sort key then raises an index error | every empty submission removed | not executed | `Curve.AdjacentEmptySurvives` | `Curve.DropEmpty` |
| source/auctioneer_methods.py:168-176 | partial clearance reads index `i - 1`, which for `i = 0` wraps to the last segment | curve `(5, 0.10, 0.20)`, `(10, 0.30, 0.25)` reports a trade of 10 at 0.30. `sorting` never builds this curve from non-negative quantities, because bid prices fall and offer prices rise along its curve; it takes a negative order quantity or a direct call | no trade when the first complete segment is crossed | not executed | `Clearing.WrapCounterexample` | `Clearing.ClearingPoint` |
| source/auctioneer_methods.py:151-155 | `all(...)` over an empty list is true, so `[-1]` raises | one agent bidding and offering 5 units: the market rules drop the only complete segment (a self-trade), leaving `(5, None, 0.20)` | no trade | not executed | `Clearing.EmptyCurveCounterexample` | `Clearing.ClearingPoint` |
