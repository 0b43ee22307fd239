/**
 * The auctioneer agent of `auctioneer_agent.py`: one auction round per
 * simulation step — collect, sort into a curve, filter, price, settle — over
 * the auctioneer's own fields, with settlement specified by folds over the
 * trade pairs and the double-entry facts proved about those folds.
 */
module Auction {
  import opened AuctionTypes
  import opened SeqUtil
  import opened Curve
  import opened Clearing
  import opened Ledger

  // ---------------------------------------------------------------------
  // Settlement of one pair and of a list of pairs
  // ---------------------------------------------------------------------

  /**
   * `who_gets_what_bb` with its failures: the self-trade assertion comes
   * first, then the lookups of both agents.
   */
  function SettleOneBalanced(b: Books, seller: AgentId, buyer: AgentId, quantity: real, turnover: real, step: nat)
    : (r: Result<Books>)
    ensures r.Success? <==> CanSettle(b, seller, buyer)
    ensures r.Failure? ==> r.error == (if seller == buyer then AssertionFailed else KeyError)
  {
    if seller == buyer then Failure(AssertionFailed)
    else if !CanSettle(b, seller, buyer) then Failure(KeyError)
    else Success(SettleBalanced(b, seller, buyer, quantity, turnover, step))
  }

  /** A budget-balanced McAfee pair carries one payment; any other carries (revenue, payment), payment >= revenue. */
  predicate WellFormedMcAfee(t: McAfeePair)
  {
    if t.budgetBalanced then t.payment.Single?
    else t.payment.Split? && t.payment.buyerPayment >= t.payment.sellerRevenue
  }

  /**
   * One McAfee pair: a budget-balanced pair must carry a single payment and
   * settles like pay-as-clear; any other pair must carry (revenue, payment)
   * with payment at least revenue and settles through the market maker.
   */
  function SettleOneMcAfee(b: Books, t: McAfeePair, step: nat): (r: Result<Books>)
    ensures r.Success? <==> (CanSettle(b, t.seller, t.buyer) && WellFormedMcAfee(t))
  {
    if t.budgetBalanced then
      if t.payment.Split? then Failure(AssertionFailed)  // the payment is not a scalar
      else SettleOneBalanced(b, t.seller, t.buyer, t.quantity, t.payment.amount, step)
    else if t.payment.Single? then Failure(TypeError)    // `len` of a number
    else if t.payment.buyerPayment < t.payment.sellerRevenue || t.seller == t.buyer then Failure(AssertionFailed)
    else if !CanSettle(b, t.seller, t.buyer) then Failure(KeyError)
    else Success(SettleImbalanced(b, t.seller, t.buyer, t.quantity, t.payment.sellerRevenue, t.payment.buyerPayment, step))
  }

  /** Keys of the registry and of the energy lists are the same in both books. */
  predicate SameKeys(a: Books, b: Books)
  {
    a.agents.Keys == b.agents.Keys && a.tradedEnergy.Keys == b.tradedEnergy.Keys
  }

  /** The pay-as-clear / pay-as-bid settlement loop: pair after pair, stopping at the first failure. */
  function SettleUniform(b: Books, pairs: seq<TradePair>, step: nat): (r: Result<Books>)
    ensures r.Success? ==> SameKeys(r.value, b)
    decreases |pairs|
  {
    if pairs == [] then Success(b)
    else match SettleOneBalanced(b, pairs[0].seller, pairs[0].buyer, pairs[0].quantity, pairs[0].payment, step)
      case Failure(e) => Failure(e)
      case Success(b') => SettleUniform(b', pairs[1..], step)
  }

  /** The McAfee settlement loop. */
  function SettleMcAfee(b: Books, trades: seq<McAfeePair>, step: nat): (r: Result<Books>)
    ensures r.Success? ==> SameKeys(r.value, b)
    decreases |trades|
  {
    if trades == [] then Success(b)
    else match SettleOneMcAfee(b, trades[0], step)
      case Failure(e) => Failure(e)
      case Success(b') => SettleMcAfee(b', trades[1..], step)
  }

  /**
   * Uniform settlement goes through exactly when every pair is a trade
   * between two different registered agents.
   */
  lemma {:induction false} UniformSettlementSucceeds(b: Books, pairs: seq<TradePair>, step: nat)
    ensures SettleUniform(b, pairs, step).Success? <==>
      forall k :: 0 <= k < |pairs| ==> CanSettle(b, pairs[k].seller, pairs[k].buyer)
    decreases |pairs|
  {
    if pairs != [] {
      var one := SettleOneBalanced(b, pairs[0].seller, pairs[0].buyer, pairs[0].quantity, pairs[0].payment, step);
      if one.Success? {
        UniformSettlementSucceeds(one.value, pairs[1..], step);
        assert forall k :: 1 <= k < |pairs| ==> pairs[k] == pairs[1..][k - 1];
      }
    }
  }

  lemma PairTotalsCons(t: TradePair, ps: seq<TradePair>)
    ensures PairPayments([t] + ps) == t.payment + PairPayments(ps)
    decreases |ps|
  {
    if ps != [] {
      var ps', last := ps[..|ps| - 1], ps[|ps| - 1];
      assert ([t] + ps)[..|ps|] == [t] + ps';
      PairTotalsCons(t, ps');
    }
  }

  lemma RegistryKept(a: Books, b: Books, ids: seq<AgentId>)
    requires Registry(a, ids) && SameKeys(a, b)
    ensures Registry(b, ids)
  {
  }

  /**
   * Uniform settlement credits total revenue and charges total payment with
   * the same sum of pair payments (budget balance), and the energy entries
   * of all pairs cancel.
   */
  lemma {:induction false} UniformSettlementConserves(b: Books, ids: seq<AgentId>, pairs: seq<TradePair>, step: nat)
    requires Registry(b, ids) && SettleUniform(b, pairs, step).Success?
    ensures var r := SettleUniform(b, pairs, step).value;
      TotalRevenue(r, ids, step) == TotalRevenue(b, ids, step) + PairPayments(pairs)
      && TotalPayment(r, ids, step) == TotalPayment(b, ids, step) + PairPayments(pairs)
      && NetEnergy(r, ids) == NetEnergy(b, ids)
    decreases |pairs|
  {
    if pairs != [] {
      var t := pairs[0];
      assert CanSettle(b, t.seller, t.buyer);
      var b' := SettleBalanced(b, t.seller, t.buyer, t.quantity, t.payment, step);
      assert SettleUniform(b, pairs, step) == SettleUniform(b', pairs[1..], step);
      BalancedConserves(b, ids, t.seller, t.buyer, t.quantity, t.payment, step);
      RegistryKept(b, b', ids);
      UniformSettlementConserves(b', ids, pairs[1..], step);
      assert pairs == [t] + pairs[1..];
      PairTotalsCons(t, pairs[1..]);
    }
  }

  /**
   * McAfee settlement: the revenue credited to traders plus what the market
   * maker absorbs equals the payment charged, and energy cancels.
   */
  lemma {:induction false} McAfeeSettlementConserves(b: Books, ids: seq<AgentId>, trades: seq<McAfeePair>, step: nat)
    requires Registry(b, ids) && SettleMcAfee(b, trades, step).Success?
    ensures var r := SettleMcAfee(b, trades, step).value;
      (TotalRevenue(r, ids, step) - TotalRevenue(b, ids, step)) + (At(r.market.revenue, step) - At(b.market.revenue, step))
        == TotalPayment(r, ids, step) - TotalPayment(b, ids, step)
      && NetEnergy(r, ids) == NetEnergy(b, ids)
    decreases |trades|
  {
    if trades != [] {
      var t := trades[0];
      var b' := SettleOneMcAfee(b, t, step).value;
      if t.budgetBalanced {
        BalancedConserves(b, ids, t.seller, t.buyer, t.quantity, t.payment.amount, step);
      } else {
        ImbalancedConserves(b, ids, t.seller, t.buyer, t.quantity, t.payment.sellerRevenue, t.payment.buyerPayment, step);
      }
      RegistryKept(b, b', ids);
      McAfeeSettlementConserves(b', ids, trades[1..], step);
    }
  }

  /** No agent has a pending energy trade flux. */
  predicate FluxCleared(agents: map<AgentId, Trader>)
  {
    forall id :: id in agents ==> agents[id].energyTradeFlux == 0.0
  }

  /** Every agent's energy trade flux set back to 0. */
  function ResetFlux(agents: map<AgentId, Trader>): (r: map<AgentId, Trader>)
    ensures r.Keys == agents.Keys && FluxCleared(r)
    ensures forall id :: id in r ==> r[id].wallet == agents[id].wallet
  {
    map id | id in agents :: agents[id].(energyTradeFlux := 0.0)
  }

  /** A fresh, empty energy list for every registered agent. */
  function EmptyLists(agents: map<AgentId, Trader>): (r: map<AgentId, seq<real>>)
    ensures r.Keys == agents.Keys && forall id :: id in r ==> r[id] == []
  {
    map id | id in agents :: []
  }

  /** The kind of trade pairs matches the pricing rule that produced them. */
  predicate PairsFitRule(tradePairs: Option<TradePairs>, rule: PricingRule)
  {
    tradePairs.Some? ==> (tradePairs.value.Uniform? <==> rule != McAfee)
  }

  /** Python truthiness of `trade_pairs`: present and non-empty. */
  predicate HasTrades(tradePairs: Option<TradePairs>)
  {
    match tradePairs
    case None => false
    case Some(Uniform(ps)) => ps != []
    case Some(McAfeeTrades(ts)) => ts != []
  }

  /** What `clearing_of_market` does to the books before the flux reset. */
  function SettleAll(b: Books, tradePairs: Option<TradePairs>, step: nat): Result<Books>
  {
    match tradePairs
    case None => Success(b)
    case Some(Uniform(ps)) => SettleUniform(b, ps, step)
    case Some(McAfeeTrades(ts)) => if ts == [] then Failure(AssertionFailed) else SettleMcAfee(b, ts, step)
  }

  /**
   * A round's settlement starts from empty energy lists; when it goes
   * through, the recorded energy of all agents sums to zero.
   */
  lemma RoundEnergyBalances(b: Books, ids: seq<AgentId>, tradePairs: Option<TradePairs>, step: nat)
    requires Registry(b, ids) && forall id :: id in b.tradedEnergy ==> b.tradedEnergy[id] == []
    requires SettleAll(b, tradePairs, step).Success?
    ensures NetEnergy(SettleAll(b, tradePairs, step).value, ids) == 0.0
  {
    NoEnergyYet(b, ids);
    match tradePairs {
      case None =>
      case Some(Uniform(ps)) => UniformSettlementConserves(b, ids, ps, step);
      case Some(McAfeeTrades(ts)) => McAfeeSettlementConserves(b, ids, ts, step);
    }
  }

  lemma {:induction false} NoEnergyYet(b: Books, ids: seq<AgentId>)
    requires forall id :: id in b.tradedEnergy ==> b.tradedEnergy[id] == []
    ensures NetEnergy(b, ids) == 0.0
  {
    if ids != [] {
      NoEnergyYet(b, ids[1..]);
    }
  }

  // ---------------------------------------------------------------------
  // The auctioneer
  // ---------------------------------------------------------------------

  /** What `sorting` returns: the sorted bids, the sorted offers and the curve. */
  datatype SortedMarket = SortedMarket(bids: seq<Order>, offers: seq<Order>, curve: seq<Segment>)

  /** The sorted lists and the curve built from the orders as submitted. */
  function SortedMarketOf(bids: seq<Order>, offers: seq<Order>): SortedMarket
  {
    var sortedBids, sortedOffers := SortBids(bids), SortOffers(offers);
    SortedMarket(sortedBids, sortedOffers, CurveOf(sortedBids, sortedOffers))
  }

  /**
   * The fields after pay-as-clear pricing: the clearing point of the filtered
   * curve; with pairs, all of the clearing quantity is matched, the payments
   * add up to quantity times price, and each pair is paid at that price.
   */
  predicate PacFacts(admitted: seq<Segment>, q: Option<real>, p: Option<real>, tradePairs: Option<TradePairs>,
                     sortedBids: seq<Order>, sortedOffers: seq<Order>)
  {
    && ClearingPoint(admitted) == (q, p)
    && (tradePairs.Some? ==>
         && tradePairs.value.Uniform? && q.Some? && p.Some? && q.value >= 0.0
         && PairQuantities(tradePairs.value.pairs) == q.value
         && PairPayments(tradePairs.value.pairs) == q.value * p.value
         && forall k :: 0 <= k < |tradePairs.value.pairs| ==>
              PaidAtClearing(tradePairs.value.pairs[k], p.value, sortedBids, sortedOffers))
  }

  /** The fields after pay-as-bid pricing: the clearing quantity only, and no pairs. */
  predicate PabFacts(admitted: seq<Segment>, q: Option<real>, p: Option<real>, tradePairs: Option<TradePairs>)
  {
    q == ClearingPoint(admitted).0 && p.None? && tradePairs.None?
  }

  /** What `mcafee_pricing` hands back: its clearing figures and its pairs. */
  datatype McAfeeOutcome = McAfeeOutcome(quantity: Option<real>, price: Option<real>, trades: seq<McAfeePair>)

  /**
   * The pay-as-bid branch's outcome: a type error exactly when `pab_pricing`
   * raises one, the clearing quantity and no price or pairs otherwise.
   */
  predicate PabOutcome(admitted: seq<Segment>, fault: Option<Fault>,
                       q: Option<real>, p: Option<real>, tradePairs: Option<TradePairs>)
  {
    && (fault.None? <==> PabSucceeds(admitted))
    && (fault.Some? ==> fault == Some(TypeError))
    && (fault.None? ==> PabFacts(admitted, q, p, tradePairs))
  }

  /**
   * The pay-as-clear branch's outcome: the turnover assertion fails exactly
   * when a priced curve has a negative turnover or quantity, the first offer
   * is missing exactly when a priced curve passes it with no offers, and a
   * matching that has not finished within the fuel needs both; otherwise
   * the fields hold the facts of pay-as-clear pricing.
   */
  predicate PacOutcome(admitted: seq<Segment>, sortedBids: seq<Order>, sortedOffers: seq<Order>, fault: Option<Fault>,
                       q: Option<real>, p: Option<real>, tradePairs: Option<TradePairs>)
  {
    && (fault == Some(NegativeTurnover) <==> Priced(admitted) && !TurnoverCheck(admitted))
    && (fault == Some(IndexError) <==> Priced(admitted) && TurnoverCheck(admitted) && sortedOffers == [])
    && (fault == Some(Diverged) ==> Priced(admitted) && TurnoverCheck(admitted) && sortedOffers != [])
    && (fault.Some? ==> fault.value == NegativeTurnover || fault.value == IndexError || fault.value == Diverged)
    && (fault.None? ==> PacFacts(admitted, q, p, tradePairs, sortedBids, sortedOffers))
  }

  /** What the configured pricing rule leaves in the round's clearing fields, and the fault it raises. */
  predicate PricedAs(rule: PricingRule, admitted: seq<Segment>, mcafee: McAfeeOutcome, fault: Option<Fault>, r: MarketState)
  {
    match rule
    case PayAsBid => PabOutcome(admitted, fault, r.clearingQuantity, r.clearingPrice, r.tradePairs)
    case PayAsClear =>
      PacOutcome(admitted, r.sortedBids, r.sortedOffers, fault, r.clearingQuantity, r.clearingPrice, r.tradePairs)
    case McAfee =>
      fault.None? && r.clearingQuantity == mcafee.quantity && r.clearingPrice == mcafee.price
      && r.tradePairs == Some(McAfeeTrades(mcafee.trades))
  }

  /** Settlement that goes through keeps the registry and the energy lists' keys. */
  lemma SettledKeepsKeys(before: Books, tradePairs: Option<TradePairs>, step: nat, after: Books)
    requires Settled(before, tradePairs, step, None, after)
    ensures SameKeys(after, before)
  {
  }

  /** A pricing failure ends `execute_auction` with that fault and the summary untouched. */
  lemma ExecutedAfterFailedPricing(rule: PricingRule, admitted: seq<Segment>, mcafee: McAfeeOutcome,
                                   fault: Option<Fault>, m: MarketState)
    requires PricedAs(rule, admitted, mcafee, fault, m) && fault.Some?
    ensures Executed(rule, admitted, mcafee, fault, m, m.priceSummary)
  {
  }

  /** Pricing that went through, followed by the summary, is `execute_auction`. */
  lemma ExecutedAfterSummary(rule: PricingRule, admitted: seq<Segment>, mcafee: McAfeeOutcome,
                             priced: MarketState, summary: Option<PriceSummary>, fault: Option<Fault>)
    requires PricedAs(rule, admitted, mcafee, None, priced)
    requires Summarized(priced.tradePairs, summary, priced.priceSummary, fault)
    ensures Executed(rule, admitted, mcafee, fault, priced.(priceSummary := summary), priced.priceSummary)
  {
    var m := priced.(priceSummary := summary);
    assert PricedAs(rule, admitted, mcafee, None, m);
    if rule != McAfee {
      assert fault.None?;
    }
  }

  /**
   * The price summary of `execute_auction`'s tail: nothing without trades;
   * `Summarize` of the payment figures of uniform pairs; for McAfee pairs,
   * of the figures `McAfeeFigures` reads, or the fault it raises.
   */
  predicate Summarized(tradePairs: Option<TradePairs>, summary: Option<PriceSummary>, before: Option<PriceSummary>,
                       fault: Option<Fault>)
  {
    if !HasTrades(tradePairs) then fault.None? && summary == before
    else match tradePairs.value
      case Uniform(ps) => fault.None? && summary == Some(Summarize(PaymentFigures(ps)))
      case McAfeeTrades(ts) =>
        var read := McAfeeFigures(ts);
        if read.Success? then fault.None? && summary == Some(Summarize(read.value)) else fault == Some(read.error)
  }

  /**
   * `execute_auction` on a filtered curve: the pricing rule's outcome, then,
   * unless pricing failed, the price summary (whose fault is the only one a
   * McAfee round can raise here).
   */
  predicate Executed(rule: PricingRule, admitted: seq<Segment>, mcafee: McAfeeOutcome, fault: Option<Fault>,
                     r: MarketState, before: Option<PriceSummary>)
  {
    if rule == McAfee then
      PricedAs(rule, admitted, mcafee, None, r) && Summarized(r.tradePairs, r.priceSummary, before, fault)
    else
      && PricedAs(rule, admitted, mcafee, fault, r)
      && (if fault.None? then Summarized(r.tradePairs, r.priceSummary, before, fault) else r.priceSummary == before)
  }

  /**
   * `clearing_of_market` when there are trades: the books become the
   * settlement of every pair with every flux reset, or the first fault is
   * raised; without trades the books are left as they were.
   */
  predicate Settled(before: Books, tradePairs: Option<TradePairs>, step: nat, fault: Option<Fault>, after: Books)
  {
    if !HasTrades(tradePairs) then fault.None? && after == before
    else
      var r := SettleAll(before, tradePairs, step);
      if r.Success? then fault.None? && after == r.value.(agents := ResetFlux(r.value.agents))
      else fault == Some(r.error)
  }

  /** What the auction leaves for the step: the sorted lists, the clearing figures, the pairs and the summary. */
  datatype MarketState = MarketState(
    sortedBids: seq<Order>,
    sortedOffers: seq<Order>,
    clearingQuantity: Option<real>,
    clearingPrice: Option<real>,
    tradePairs: Option<TradePairs>,
    priceSummary: Option<PriceSummary>)

  /** The auctioneer's per-step fields that settlement does not touch. */
  datatype RoundState = RoundState(
    bidList: seq<Submission>,
    offerList: seq<Submission>,
    sortedBids: seq<Order>,
    sortedOffers: seq<Order>,
    clearingQuantity: Option<real>,
    clearingPrice: Option<real>,
    tradePairs: Option<TradePairs>,
    priceSummary: Option<PriceSummary>)

  class Auctioneer {
    const id: AgentId
    const pricingRule: PricingRule
    var bidList: seq<Submission>
    var offerList: seq<Submission>
    var sortedBids: seq<Order>
    var sortedOffers: seq<Order>
    var clearingQuantity: Option<real>
    var clearingPrice: Option<real>
    var tradePairs: Option<TradePairs>
    /** `clearing_price_min_avg_max` recorded for the current step. */
    var priceSummary: Option<PriceSummary>
    /** `who_gets_what_dict`: signed traded quantities per agent for this step. */
    var whoGetsWhat: map<AgentId, seq<real>>
    /** The model's agents, looked up by id during settlement. */
    var agents: map<AgentId, Trader>
    /** The auctioneer's own wallet, which absorbs McAfee budget imbalances. */
    var wallet: Wallet
    /** The model's step counter, the index every settlement is booked at. */
    var stepCount: nat

    constructor(id: AgentId, rule: PricingRule, agents: map<AgentId, Trader>, stepCount: nat)
      ensures this.id == id && pricingRule == rule && this.agents == agents && this.stepCount == stepCount
      ensures bidList == [] && offerList == [] && sortedBids == [] && sortedOffers == []
      ensures clearingQuantity.None? && clearingPrice.None? && tradePairs.None? && priceSummary.None?
      ensures whoGetsWhat == map[] && wallet == Wallet(map[], map[])
    {
      this.id := id;
      pricingRule := rule;
      bidList, offerList := [], [];
      sortedBids, sortedOffers := [], [];
      clearingQuantity, clearingPrice := None, None;
      tradePairs, priceSummary := None, None;
      whoGetsWhat := map[];
      this.agents := agents;
      wallet := Wallet(map[], map[]);
      this.stepCount := stepCount;
    }

    /** Everything settlement writes. */
    function Accounts(): Books
      reads this
    {
      Books(agents, wallet, whoGetsWhat)
    }

    /** What the auction leaves. */
    function Market(): MarketState
      reads this
    {
      MarketState(sortedBids, sortedOffers, clearingQuantity, clearingPrice, tradePairs, priceSummary)
    }

    /** Everything else of the round. */
    function Round(): RoundState
      reads this
    {
      RoundState(bidList, offerList, sortedBids, sortedOffers, clearingQuantity, clearingPrice, tradePairs, priceSummary)
    }

    /**
     * `sorting`: the empty entries are removed from both lists in place (all
     * of them, as `DropEmpty` defines it), the lists are sorted and the curve
     * is built.
     */
    method Sorting() returns (market: SortedMarket)
      modifies this
      ensures bidList == DropEmpty(old(bidList)) && offerList == DropEmpty(old(offerList))
      ensures market == SortedMarketOf(Orders(bidList), Orders(offerList))
      ensures Accounts() == old(Accounts()) && stepCount == old(stepCount)
      ensures Round() == old(Round()).(bidList := bidList, offerList := offerList)
    {
      bidList := DropEmpty(bidList);
      offerList := DropEmpty(offerList);
      var bids := SortBids(Orders(bidList));
      var offers := SortOffers(Orders(offerList));
      var curve := BuildCurve(bids, offers);
      return SortedMarket(bids, offers, curve);
    }

    /**
     * `execute_auction` on the curve from `sorting`: the market rules
     * filter the curve, the configured pricing rule runs with the sorted
     * lists, and for a non-empty list of pairs the min / average / max of
     * their last field is recorded.
     */
    method ExecuteAuction(curve: seq<Segment>, mcafee: McAfeeOutcome, fuel: nat) returns (fault: Option<Fault>)
      modifies this
      ensures Accounts() == old(Accounts())
      ensures bidList == old(bidList) && offerList == old(offerList)
      ensures sortedBids == old(sortedBids) && sortedOffers == old(sortedOffers)
      ensures Executed(pricingRule, MarketRules(curve), mcafee, fault, Market(), old(priceSummary))
      ensures fault.None? ==> PairsFitRule(tradePairs, pricingRule)
      ensures stepCount == old(stepCount)
    {
      var _ := CheckDemandSupply(sortedBids, sortedOffers);
      tradePairs, clearingQuantity, clearingPrice := None, None, None;
      var admitted := MarketRules(curve);
      fault := Pricing(admitted, mcafee, fuel);
      ghost var priced := Market();
      assert Accounts() == old(Accounts()) && stepCount == old(stepCount);
      assert bidList == old(bidList) && offerList == old(offerList) && priced.priceSummary == old(priceSummary);
      assert sortedBids == old(sortedBids) && sortedOffers == old(sortedOffers);
      if fault.Some? {
        ExecutedAfterFailedPricing(pricingRule, admitted, mcafee, fault, priced);
        return;
      }
      fault := RecordPriceSummary();
      ExecutedAfterSummary(pricingRule, admitted, mcafee, priced, priceSummary, fault);
      assert Market() == priced.(priceSummary := priceSummary);
    }

    /** The branch of `execute_auction` that runs the configured pricing rule. */
    method Pricing(admitted: seq<Segment>, mcafee: McAfeeOutcome, fuel: nat) returns (fault: Option<Fault>)
      modifies this
      ensures Accounts() == old(Accounts()) && stepCount == old(stepCount)
      ensures Round() == old(Round()).(clearingQuantity := clearingQuantity, clearingPrice := clearingPrice,
                                       tradePairs := tradePairs)
      ensures PricedAs(pricingRule, admitted, mcafee, fault, Market())
    {
      match pricingRule {
        case PayAsBid =>
          fault := PriceAsBid(admitted);
        case PayAsClear =>
          fault := PriceAsClear(admitted, fuel);
        case McAfee =>
          clearingQuantity, clearingPrice := mcafee.quantity, mcafee.price;
          tradePairs := Some(McAfeeTrades(mcafee.trades));
          fault := None;
      }
    }

    /** The pay-as-clear branch of `execute_auction`, on the filtered curve. */
    method PriceAsClear(admitted: seq<Segment>, fuel: nat) returns (fault: Option<Fault>)
      modifies this
      ensures Accounts() == old(Accounts()) && stepCount == old(stepCount)
      ensures Round() == old(Round()).(clearingQuantity := clearingQuantity, clearingPrice := clearingPrice,
                                       tradePairs := tradePairs)
      ensures PacOutcome(admitted, sortedBids, sortedOffers, fault, clearingQuantity, clearingPrice, tradePairs)
    {
      var pac := PacPricing(admitted, sortedBids, sortedOffers, fuel);
      match pac {
        case Unpriced(q, p) =>
          clearingQuantity, clearingPrice, tradePairs := q, p, None;
        case Cleared(q, p, _, pairs) =>
          clearingQuantity, clearingPrice := Some(q), Some(p);
          tradePairs := Some(Uniform(pairs));
        case Aborted(e) =>
          return Some(e);
        case OutOfFuel =>
          return Some(Diverged);
      }
      return None;
    }

    /**
     * The pay-as-bid branch of `execute_auction`: `pab_pricing` gives back
     * the clearing quantity and `None` for the price and the pairs.
     */
    method PriceAsBid(admitted: seq<Segment>) returns (fault: Option<Fault>)
      modifies this
      ensures Accounts() == old(Accounts()) && stepCount == old(stepCount)
      ensures Round() == old(Round()).(clearingQuantity := clearingQuantity, clearingPrice := clearingPrice,
                                       tradePairs := tradePairs)
      ensures PabOutcome(admitted, fault, clearingQuantity, clearingPrice, tradePairs)
    {
      var q := PabPricing(admitted);
      if q.Failure? {
        return Some(q.error);
      }
      clearingQuantity, clearingPrice, tradePairs := q.value, None, None;
      return None;
    }

    /**
     * The tail of `execute_auction`: for a non-empty list of pairs, the min /
     * average / max of their last field (McAfee pairs read as
     * `McAfeeFigures` does) is recorded for the step.
     */
    method RecordPriceSummary() returns (fault: Option<Fault>)
      modifies this
      ensures Accounts() == old(Accounts()) && stepCount == old(stepCount)
      ensures Round() == old(Round()).(priceSummary := priceSummary)
      ensures Summarized(tradePairs, priceSummary, old(priceSummary), fault)
    {
      if !HasTrades(tradePairs) {
        return None;
      }
      var figures: seq<real>;
      if tradePairs.value.Uniform? {
        figures := PaymentFigures(tradePairs.value.pairs);
      } else {
        var read := McAfeeFigures(tradePairs.value.trades);
        if read.Failure? {
          return Some(read.error);
        }
        figures := read.value;
      }
      priceSummary := Some(Summarize(figures));
      return None;
    }

    /** `who_gets_what_bb` at the current step. */
    method WhoGetsWhatBalanced(seller: AgentId, buyer: AgentId, quantity: real, turnover: real)
      returns (fault: Option<Fault>)
      modifies this
      ensures var r := SettleOneBalanced(old(Accounts()), seller, buyer, quantity, turnover, stepCount);
        if r.Success? then fault.None? && Accounts() == r.value else fault == Some(r.error)
      ensures Round() == old(Round()) && stepCount == old(stepCount)
    {
      if seller == buyer {
        return Some(AssertionFailed);
      }
      if !CanSettle(Accounts(), seller, buyer) {
        return Some(KeyError);
      }
      var b := SettleBalanced(Accounts(), seller, buyer, quantity, turnover, stepCount);
      agents, wallet, whoGetsWhat := b.agents, b.market, b.tradedEnergy;
      assert Accounts() == b;
      return None;
    }

    /** `who_gets_what_not_bb` (and the budget-balanced McAfee case) at the current step. */
    method SettleMcAfeePair(t: McAfeePair) returns (fault: Option<Fault>)
      modifies this
      ensures var r := SettleOneMcAfee(old(Accounts()), t, stepCount);
        if r.Success? then fault.None? && Accounts() == r.value else fault == Some(r.error)
      ensures Round() == old(Round()) && stepCount == old(stepCount)
    {
      var r := SettleOneMcAfee(Accounts(), t, stepCount);
      if r.Failure? {
        return Some(r.error);
      }
      agents, wallet, whoGetsWhat := r.value.agents, r.value.market, r.value.tradedEnergy;
      return None;
    }

    /**
     * `clearing_of_market`: settles every pair in order (stopping at the first
     * failing assertion or lookup), then sets every agent's energy trade flux
     * to 0 — also when there was nothing to settle.
     */
    method ClearingOfMarket() returns (fault: Option<Fault>)
      modifies this
      requires PairsFitRule(tradePairs, pricingRule)
      ensures var r := SettleAll(old(Accounts()), tradePairs, stepCount);
        if r.Success? then fault.None? && wallet == r.value.market && whoGetsWhat == r.value.tradedEnergy
          && agents == ResetFlux(r.value.agents)
        else fault == Some(r.error)
      ensures Round() == old(Round()) && stepCount == old(stepCount)
      ensures fault.None? ==> agents.Keys == old(agents).Keys && whoGetsWhat.Keys == old(whoGetsWhat).Keys
      ensures fault.None? ==> FluxCleared(agents)
    {
      fault := None;
      match tradePairs {
        case None =>
        case Some(Uniform(ps)) =>
          fault := SettleUniformPairs(ps);
        case Some(McAfeeTrades(ts)) =>
          if ts == [] {
            return Some(AssertionFailed);
          }
          fault := SettleMcAfeePairs(ts);
      }
      if fault.Some? {
        return;
      }
      agents := ResetFlux(agents);
    }

    /** The PAC/PAB loop of `clearing_of_market`: `who_gets_what_bb` on each pair in order. */
    method SettleUniformPairs(ps: seq<TradePair>) returns (fault: Option<Fault>)
      modifies this
      ensures var r := SettleUniform(old(Accounts()), ps, stepCount);
        if r.Success? then fault.None? && Accounts() == r.value else fault == Some(r.error)
      ensures Round() == old(Round()) && stepCount == old(stepCount)
    {
      ghost var start := Accounts();
      for i := 0 to |ps|
        invariant SettleUniform(start, ps, stepCount) == SettleUniform(Accounts(), ps[i..], stepCount)
        invariant Round() == old(Round()) && stepCount == old(stepCount)
      {
        assert ps[i..][0] == ps[i] && ps[i..][1..] == ps[i + 1..];
        fault := WhoGetsWhatBalanced(ps[i].seller, ps[i].buyer, ps[i].quantity, ps[i].payment);
        if fault.Some? {
          return;
        }
      }
      assert ps[|ps|..] == [];
      return None;
    }

    /** The McAfee loop of `clearing_of_market`: each pair settled by its own kind. */
    method SettleMcAfeePairs(ts: seq<McAfeePair>) returns (fault: Option<Fault>)
      modifies this
      ensures var r := SettleMcAfee(old(Accounts()), ts, stepCount);
        if r.Success? then fault.None? && Accounts() == r.value else fault == Some(r.error)
      ensures Round() == old(Round()) && stepCount == old(stepCount)
    {
      ghost var start := Accounts();
      for i := 0 to |ts|
        invariant SettleMcAfee(start, ts, stepCount) == SettleMcAfee(Accounts(), ts[i..], stepCount)
        invariant Round() == old(Round()) && stepCount == old(stepCount)
      {
        assert ts[i..][0] == ts[i] && ts[i..][1..] == ts[i + 1..];
        fault := SettleMcAfeePair(ts[i]);
        if fault.Some? {
          return;
        }
      }
      assert ts[|ts|..] == [];
      return None;
    }

    /**
     * The branch of `auction_round` taken when both lists hold an order:
     * `sorting`, `execute_auction` and, when pairs came out,
     * `clearing_of_market`. The ghost `executed` is the fault
     * `execute_auction` raised, if any.
     */
    method RunAuction(mcafee: McAfeeOutcome, fuel: nat) returns (fault: Option<Fault>, ghost executed: Option<Fault>)
      modifies this
      ensures bidList == DropEmpty(old(bidList)) && offerList == DropEmpty(old(offerList))
      ensures var market := SortedMarketOf(Orders(bidList), Orders(offerList));
        sortedBids == market.bids && sortedOffers == market.offers
        && Executed(pricingRule, MarketRules(market.curve), mcafee, executed, Market(), old(priceSummary))
      ensures executed.Some? ==> fault == executed && Accounts() == old(Accounts())
      ensures executed.None? ==> Settled(old(Accounts()), tradePairs, stepCount, fault, Accounts())
      ensures stepCount == old(stepCount)
    {
      var curve := SortAndKeep();
      fault, executed := ExecuteAndSettle(curve, mcafee, fuel);
    }

    /** `sorting`, with the sorted lists it returns kept in the auctioneer's fields. */
    method SortAndKeep() returns (curve: seq<Segment>)
      modifies this
      ensures bidList == DropEmpty(old(bidList)) && offerList == DropEmpty(old(offerList))
      ensures var market := SortedMarketOf(Orders(bidList), Orders(offerList));
        sortedBids == market.bids && sortedOffers == market.offers && curve == market.curve
      ensures Accounts() == old(Accounts()) && stepCount == old(stepCount) && priceSummary == old(priceSummary)
    {
      var market := Sorting();
      sortedBids, sortedOffers := market.bids, market.offers;
      return market.curve;
    }

    /** `execute_auction` on the curve and, when it produced pairs, `clearing_of_market`. */
    method ExecuteAndSettle(curve: seq<Segment>, mcafee: McAfeeOutcome, fuel: nat)
      returns (fault: Option<Fault>, ghost executed: Option<Fault>)
      modifies this
      ensures bidList == old(bidList) && offerList == old(offerList)
      ensures sortedBids == old(sortedBids) && sortedOffers == old(sortedOffers)
      ensures Executed(pricingRule, MarketRules(curve), mcafee, executed, Market(), old(priceSummary))
      ensures executed.Some? ==> fault == executed && Accounts() == old(Accounts())
      ensures executed.None? ==> Settled(old(Accounts()), tradePairs, stepCount, fault, Accounts())
      ensures stepCount == old(stepCount)
    {
      fault := ExecuteAuction(curve, mcafee, fuel);
      executed := fault;
      if fault.Some? {
        return;
      }
      if HasTrades(tradePairs) {
        fault := ClearingOfMarket();
      }
    }

    /**
     * `auction_round`: fresh energy lists for every agent; the auction runs
     * only when both the offers and the bids hold an order; settlement runs
     * only when it produced pairs; both lists are emptied for the next step
     * on every branch that does not abort. The ghost `executed` is the fault
     * `execute_auction` raised, if any.
     */
    method AuctionRound(mcafee: McAfeeOutcome, fuel: nat) returns (fault: Option<Fault>, ghost executed: Option<Fault>)
      modifies this
      ensures fault.None? ==> bidList == [] && offerList == []
      ensures fault.None? ==> whoGetsWhat.Keys == agents.Keys == old(agents).Keys
      ensures stepCount == old(stepCount)
      ensures AllEmpty(old(bidList)) || AllEmpty(old(offerList)) ==>
        && fault.None? && executed.None?
        && Accounts() == Books(old(agents), old(wallet), EmptyLists(old(agents)))
        && Round() == old(Round()).(bidList := [], offerList := [])
      ensures !AllEmpty(old(bidList)) && !AllEmpty(old(offerList)) ==>
        var market := SortedMarketOf(Orders(DropEmpty(old(bidList))), Orders(DropEmpty(old(offerList))));
        var start := Books(old(agents), old(wallet), EmptyLists(old(agents)));
        && sortedBids == market.bids && sortedOffers == market.offers
        && Executed(pricingRule, MarketRules(market.curve), mcafee, executed, Market(), old(priceSummary))
        && (executed.Some? ==> fault == executed && Accounts() == start)
        && (executed.None? ==> Settled(start, tradePairs, stepCount, fault, Accounts()))
    {
      whoGetsWhat := EmptyLists(agents);
      if AllEmpty(offerList) || AllEmpty(bidList) {
        bidList, offerList := [], [];
        return None, None;
      }
      ghost var start := Accounts();
      assert start == Books(old(agents), old(wallet), EmptyLists(old(agents)));
      assert bidList == old(bidList) && offerList == old(offerList) && priceSummary == old(priceSummary);
      fault, executed := RunAuction(mcafee, fuel);
      assert bidList == DropEmpty(old(bidList)) && offerList == DropEmpty(old(offerList));
      if fault.Some? {
        return;
      }
      SettledKeepsKeys(start, tradePairs, stepCount, Accounts());
      ghost var accounts, market := Accounts(), Market();
      bidList, offerList := [], [];
      assert Accounts() == accounts && Market() == market;
    }
  }
}
