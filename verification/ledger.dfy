/**
 * Settlement of trade pairs into the agents' wallets and the per-step
 * energy lists (`who_gets_what_bb`, `who_gets_what_not_bb`), and the
 * double-entry facts they keep.
 */
module Ledger {
  import opened AuctionTypes
  import opened SeqUtil

  /** The amount booked at `step`, 0 when nothing is booked there. */
  function At(book: map<nat, real>, step: nat): real
  {
    if step in book then book[step] else 0.0
  }

  /** Adds `amount` to what is booked at `step`. */
  function Book(book: map<nat, real>, amount: real, step: nat): (r: map<nat, real>)
    ensures At(r, step) == At(book, step) + amount
    ensures forall s :: s != step ==> At(r, s) == At(book, s)
  {
    book[step := At(book, step) + amount]
  }

  /** An agent's ledger of accumulated revenue and payment, indexed by step. */
  datatype Wallet = Wallet(revenue: map<nat, real>, payment: map<nat, real>)
  {
    /** `settle_revenue(amount, step)` */
    function SettleRevenue(amount: real, step: nat): Wallet
    {
      this.(revenue := Book(revenue, amount, step))
    }

    /** `settle_payment(amount, step)` */
    function SettlePayment(amount: real, step: nat): Wallet
    {
      this.(payment := Book(payment, amount, step))
    }
  }

  /** What settlement touches of a trading agent: its wallet and its energy trade flux. */
  datatype Trader = Trader(wallet: Wallet, energyTradeFlux: real)

  /**
   * Everything settlement writes: the registry of agents, the auctioneer's
   * own wallet (the market maker), and the per-agent list of signed traded
   * quantities for this step (`who_gets_what_dict`).
   */
  datatype Books = Books(agents: map<AgentId, Trader>, market: Wallet, tradedEnergy: map<AgentId, seq<real>>)

  /** Both parties are registered agents with an energy list, and they differ. */
  predicate CanSettle(b: Books, seller: AgentId, buyer: AgentId)
  {
    seller != buyer && seller in b.agents && buyer in b.agents
    && seller in b.tradedEnergy && buyer in b.tradedEnergy
  }

  function CreditRevenue(agents: map<AgentId, Trader>, id: AgentId, amount: real, step: nat): map<AgentId, Trader>
    requires id in agents
  {
    agents[id := agents[id].(wallet := agents[id].wallet.SettleRevenue(amount, step))]
  }

  function ChargePayment(agents: map<AgentId, Trader>, id: AgentId, amount: real, step: nat): map<AgentId, Trader>
    requires id in agents
  {
    agents[id := agents[id].(wallet := agents[id].wallet.SettlePayment(amount, step))]
  }

  /** Appends `-quantity` to the seller's energy list and `+quantity` to the buyer's. */
  function RecordEnergy(traded: map<AgentId, seq<real>>, seller: AgentId, buyer: AgentId, quantity: real)
    : map<AgentId, seq<real>>
    requires seller in traded && buyer in traded
  {
    var t := traded[seller := traded[seller] + [-quantity]];
    t[buyer := t[buyer] + [quantity]]
  }

  /**
   * What one settlement leaves alone of the two parties: the seller's
   * payments, the buyer's revenue, both fluxes, and every other step of the
   * books it does write.
   */
  ghost predicate Untouched(b: Books, r: Books, seller: AgentId, buyer: AgentId, step: nat)
    requires seller in b.agents && buyer in b.agents && seller in r.agents && buyer in r.agents
  {
    && r.agents[seller].wallet.payment == b.agents[seller].wallet.payment
    && r.agents[buyer].wallet.revenue == b.agents[buyer].wallet.revenue
    && r.agents[seller].energyTradeFlux == b.agents[seller].energyTradeFlux
    && r.agents[buyer].energyTradeFlux == b.agents[buyer].energyTradeFlux
    && (forall s :: s != step ==> At(r.agents[seller].wallet.revenue, s) == At(b.agents[seller].wallet.revenue, s))
    && (forall s :: s != step ==> At(r.agents[buyer].wallet.payment, s) == At(b.agents[buyer].wallet.payment, s))
  }

  /**
   * `who_gets_what_bb`: the seller is credited and the buyer charged the
   * same turnover at `step`.
   */
  function SettleBalanced(b: Books, seller: AgentId, buyer: AgentId, quantity: real, turnover: real, step: nat)
    : (r: Books)
    requires CanSettle(b, seller, buyer)
    ensures r.agents.Keys == b.agents.Keys && r.tradedEnergy.Keys == b.tradedEnergy.Keys && r.market == b.market
    ensures r.tradedEnergy[seller] == b.tradedEnergy[seller] + [-quantity]
    ensures r.tradedEnergy[buyer] == b.tradedEnergy[buyer] + [quantity]
    ensures At(r.agents[seller].wallet.revenue, step) == At(b.agents[seller].wallet.revenue, step) + turnover
    ensures At(r.agents[buyer].wallet.payment, step) == At(b.agents[buyer].wallet.payment, step) + turnover
    ensures Untouched(b, r, seller, buyer, step)
    ensures forall id :: id in b.agents && id != seller && id != buyer ==> r.agents[id] == b.agents[id]
    ensures forall id :: id in b.tradedEnergy && id != seller && id != buyer ==> r.tradedEnergy[id] == b.tradedEnergy[id]
  {
    var agents := ChargePayment(CreditRevenue(b.agents, seller, turnover, step), buyer, turnover, step);
    Books(agents, b.market, RecordEnergy(b.tradedEnergy, seller, buyer, quantity))
  }

  /**
   * `who_gets_what_not_bb`: the seller is credited its revenue, the buyer
   * charged its (larger) payment, and the difference goes to the market
   * maker's wallet.
   */
  function SettleImbalanced(b: Books, seller: AgentId, buyer: AgentId, quantity: real,
                            sellerRevenue: real, buyerPayment: real, step: nat): (r: Books)
    requires CanSettle(b, seller, buyer) && buyerPayment >= sellerRevenue
    ensures r.agents.Keys == b.agents.Keys && r.tradedEnergy.Keys == b.tradedEnergy.Keys
    ensures r.tradedEnergy[seller] == b.tradedEnergy[seller] + [-quantity]
    ensures r.tradedEnergy[buyer] == b.tradedEnergy[buyer] + [quantity]
    ensures At(r.agents[seller].wallet.revenue, step) == At(b.agents[seller].wallet.revenue, step) + sellerRevenue
    ensures At(r.agents[buyer].wallet.payment, step) == At(b.agents[buyer].wallet.payment, step) + buyerPayment
    ensures Untouched(b, r, seller, buyer, step)
    ensures At(r.market.revenue, step) == At(b.market.revenue, step) + (buyerPayment - sellerRevenue)
    ensures r.market.payment == b.market.payment
    ensures forall s :: s != step ==> At(r.market.revenue, s) == At(b.market.revenue, s)
    ensures forall id :: id in b.agents && id != seller && id != buyer ==> r.agents[id] == b.agents[id]
    ensures forall id :: id in b.tradedEnergy && id != seller && id != buyer ==> r.tradedEnergy[id] == b.tradedEnergy[id]
  {
    var agents := ChargePayment(CreditRevenue(b.agents, seller, sellerRevenue, step), buyer, buyerPayment, step);
    Books(agents, b.market.SettleRevenue(buyerPayment - sellerRevenue, step),
          RecordEnergy(b.tradedEnergy, seller, buyer, quantity))
  }

  // ---------------------------------------------------------------------
  // Totals over the registry
  // ---------------------------------------------------------------------

  /** `f` summed over the listed ids. */
  function SumOver(ids: seq<AgentId>, f: AgentId -> real): real
  {
    if ids == [] then 0.0 else f(ids[0]) + SumOver(ids[1..], f)
  }

  predicate Distinct(ids: seq<AgentId>)
  {
    forall i, j :: 0 <= i < j < |ids| ==> ids[i] != ids[j]
  }

  /** Changing `f` at one listed id changes the sum by exactly that change. */
  lemma {:induction false} SumOverPoint(ids: seq<AgentId>, f: AgentId -> real, g: AgentId -> real, x: AgentId)
    requires Distinct(ids) && x in ids
    requires forall id :: id != x ==> f(id) == g(id)
    ensures SumOver(ids, g) == SumOver(ids, f) + (g(x) - f(x))
  {
    if ids[0] == x {
      SumOverSame(ids[1..], f, g, x);
    } else {
      SumOverPoint(ids[1..], f, g, x);
    }
  }

  /** Changing `f` only at an id that is not listed leaves the sum alone. */
  lemma {:induction false} SumOverSame(ids: seq<AgentId>, f: AgentId -> real, g: AgentId -> real, x: AgentId)
    requires x !in ids
    requires forall id :: id != x ==> f(id) == g(id)
    ensures SumOver(ids, g) == SumOver(ids, f)
  {
    if ids != [] {
      SumOverSame(ids[1..], f, g, x);
    }
  }

  /** The listed agents are exactly the registered ones, each once. */
  predicate Registry(b: Books, ids: seq<AgentId>)
  {
    && Distinct(ids)
    && (forall id | id in ids :: id in b.agents && id in b.tradedEnergy)
    && (forall id | id in b.agents :: id in ids)
  }

  /** Revenue booked at `step` by all listed agents. */
  function TotalRevenue(b: Books, ids: seq<AgentId>, step: nat): real
  {
    SumOver(ids, id => if id in b.agents then At(b.agents[id].wallet.revenue, step) else 0.0)
  }

  /** Payment booked at `step` by all listed agents. */
  function TotalPayment(b: Books, ids: seq<AgentId>, step: nat): real
  {
    SumOver(ids, id => if id in b.agents then At(b.agents[id].wallet.payment, step) else 0.0)
  }

  /** Signed energy recorded for all listed agents. */
  function NetEnergy(b: Books, ids: seq<AgentId>): real
  {
    SumOver(ids, id => if id in b.tradedEnergy then Sum(b.tradedEnergy[id]) else 0.0)
  }

  /** Changing `f` at two distinct listed ids changes the sum by both changes. */
  lemma SumOverTwoPoints(ids: seq<AgentId>, f: AgentId -> real, g: AgentId -> real, x: AgentId, y: AgentId)
    requires Distinct(ids) && x in ids && y in ids && x != y
    requires forall id :: id != x && id != y ==> f(id) == g(id)
    ensures SumOver(ids, g) == SumOver(ids, f) + (g(x) - f(x)) + (g(y) - f(y))
  {
    var h := id => if id == x then g(x) else f(id);
    SumOverPoint(ids, f, h, x);
    SumOverPoint(ids, h, g, y);
  }

  /**
   * Budget-balanced settlement moves the same turnover into total revenue
   * and into total payment, and its two energy entries cancel.
   */
  lemma BalancedConserves(b: Books, ids: seq<AgentId>, seller: AgentId, buyer: AgentId,
                          quantity: real, turnover: real, step: nat)
    requires CanSettle(b, seller, buyer) && Registry(b, ids)
    ensures var r := SettleBalanced(b, seller, buyer, quantity, turnover, step);
      TotalRevenue(r, ids, step) == TotalRevenue(b, ids, step) + turnover
      && TotalPayment(r, ids, step) == TotalPayment(b, ids, step) + turnover
      && NetEnergy(r, ids) == NetEnergy(b, ids)
  {
    var r := SettleBalanced(b, seller, buyer, quantity, turnover, step);
    SumOverTwoPoints(ids, id => if id in b.agents then At(b.agents[id].wallet.revenue, step) else 0.0,
                     id => if id in r.agents then At(r.agents[id].wallet.revenue, step) else 0.0, seller, buyer);
    SumOverTwoPoints(ids, id => if id in b.agents then At(b.agents[id].wallet.payment, step) else 0.0,
                     id => if id in r.agents then At(r.agents[id].wallet.payment, step) else 0.0, seller, buyer);
    SumSnoc(b.tradedEnergy[seller], -quantity);
    SumSnoc(b.tradedEnergy[buyer], quantity);
    SumOverTwoPoints(ids, id => if id in b.tradedEnergy then Sum(b.tradedEnergy[id]) else 0.0,
                     id => if id in r.tradedEnergy then Sum(r.tradedEnergy[id]) else 0.0, seller, buyer);
  }

  /**
   * Budget-imbalanced settlement: the revenue credited to the traders plus
   * the residual credited to the market maker equals the payment charged,
   * and the two energy entries cancel.
   */
  lemma ImbalancedConserves(b: Books, ids: seq<AgentId>, seller: AgentId, buyer: AgentId,
                            quantity: real, sellerRevenue: real, buyerPayment: real, step: nat)
    requires CanSettle(b, seller, buyer) && Registry(b, ids) && buyerPayment >= sellerRevenue
    ensures var r := SettleImbalanced(b, seller, buyer, quantity, sellerRevenue, buyerPayment, step);
      (TotalRevenue(r, ids, step) - TotalRevenue(b, ids, step))
        + (At(r.market.revenue, step) - At(b.market.revenue, step))
      == TotalPayment(r, ids, step) - TotalPayment(b, ids, step)
      && NetEnergy(r, ids) == NetEnergy(b, ids)
  {
    var r := SettleImbalanced(b, seller, buyer, quantity, sellerRevenue, buyerPayment, step);
    SumOverTwoPoints(ids, id => if id in b.agents then At(b.agents[id].wallet.revenue, step) else 0.0,
                     id => if id in r.agents then At(r.agents[id].wallet.revenue, step) else 0.0, seller, buyer);
    SumOverTwoPoints(ids, id => if id in b.agents then At(b.agents[id].wallet.payment, step) else 0.0,
                     id => if id in r.agents then At(r.agents[id].wallet.payment, step) else 0.0, seller, buyer);
    SumSnoc(b.tradedEnergy[seller], -quantity);
    SumSnoc(b.tradedEnergy[buyer], quantity);
    SumOverTwoPoints(ids, id => if id in b.tradedEnergy then Sum(b.tradedEnergy[id]) else 0.0,
                     id => if id in r.tradedEnergy then Sum(r.tradedEnergy[id]) else 0.0, seller, buyer);
  }
}
