/**
 * Values shared by every stage of the per-step double-sided auction:
 * bids and offers as (price, quantity, id) triples, the curve segments of the
 * merged demand/supply curve, trade pairs, and the faults that abort a run.
 */
module AuctionTypes {

  /** Python's `None` next to a value. */
  datatype Option<+T> = None | Some(value: T)

  /** A computation that either yields a value or aborts the run with a fault. */
  datatype Result<+T> = Success(value: T) | Failure(error: Fault)

  /** The run-aborting conditions of the core (Python exceptions and failed asserts). */
  datatype Fault =
    | IndexError       // `xs[i]` outside the list, e.g. `[-1]` of an empty list
    | TypeError        // an operation applied to `None` or to a value of the wrong shape
    | KeyError         // an agent id missing from the registry or the settlement lists
    | NegativeTurnover // the assertion `total_turnover_ >= 0 and clearing_quantity >= 0`
    | AssertionFailed  // a settlement assertion: a self-trade, a payment below revenue, no McAfee pairs
    | Diverged         // a loop that the bound on passes did not see end

  /** Agent identifiers are the agents' names. */
  type AgentId = string

  /** One bid or offer: `[price, quantity, id]`. */
  datatype Order = Order(price: real, quantity: real, id: AgentId)

  /**
   * One entry of the raw bid or offer list: an agent either submits an
   * order or an empty list `[]` meaning it does not trade this step.
   */
  type Submission = Option<Order>

  /**
   * One point of the merged curve: `[x, bid price, offer price, buyer id, seller id]`,
   * where `x` is the cumulative quantity of its own side.
   */
  datatype Segment = Segment(
    x: real,
    bidPrice: Option<real>,
    offerPrice: Option<real>,
    buyerId: Option<AgentId>,
    sellerId: Option<AgentId>)

  /** A matched trade `[seller id, buyer id, quantity, payment]` with a single payment figure. */
  datatype TradePair = TradePair(seller: AgentId, buyer: AgentId, quantity: real, payment: real)

  /** The payment of a McAfee trade: one figure, or (seller revenue, buyer payment). */
  datatype McAfeePayment = Single(amount: real) | Split(sellerRevenue: real, buyerPayment: real)

  /** A McAfee trade `[seller id, buyer id, quantity, budget balanced?, payment]`. */
  datatype McAfeePair = McAfeePair(
    seller: AgentId,
    buyer: AgentId,
    quantity: real,
    budgetBalanced: bool,
    payment: McAfeePayment)

  /** The configured pricing rule (`'pab'`, `'pac'` or `'mcafee'`). */
  datatype PricingRule = PayAsBid | PayAsClear | McAfee

  /** What the pricing rule produced: uniform-payment pairs (pac, pab) or McAfee pairs. */
  datatype TradePairs = Uniform(pairs: seq<TradePair>) | McAfeeTrades(trades: seq<McAfeePair>)
}
