/**
 * The clearing engine of `auctioneer_methods.py`: the demand/supply check,
 * detection of the clearing point on the merged curve, pay-as-clear matching
 * of sorted bids against sorted offers, and pay-as-bid pairing.
 */
module Clearing {
  import opened AuctionTypes
  import opened SeqUtil
  import opened Curve

  // ---------------------------------------------------------------------
  // check_demand_supply
  // ---------------------------------------------------------------------

  /** Sum of the first field (the price) of each order. */
  function PriceTotal(os: seq<Order>): real
  {
    if os == [] then 0.0 else PriceTotal(os[..|os| - 1]) + os[|os| - 1].price
  }

  /**
   * `check_demand_supply`: the sums of the first field of the bids and of the
   * offers, 0 for an empty list.
   */
  function CheckDemandSupply(bids: seq<Order>, offers: seq<Order>): (r: (real, real))
    ensures bids == [] ==> r.0 == 0.0
    ensures offers == [] ==> r.1 == 0.0
    ensures (forall k :: 0 <= k < |bids| ==> bids[k].price >= 0.0) ==> r.0 >= 0.0
    ensures (forall k :: 0 <= k < |offers| ==> offers[k].price >= 0.0) ==> r.1 >= 0.0
  {
    PriceTotalNonNegative(bids);
    PriceTotalNonNegative(offers);
    (PriceTotal(bids), PriceTotal(offers))
  }

  lemma {:induction false} PriceTotalNonNegative(os: seq<Order>)
    ensures (forall k :: 0 <= k < |os| ==> os[k].price >= 0.0) ==> PriceTotal(os) >= 0.0
  {
    if os != [] {
      PriceTotalNonNegative(os[..|os| - 1]);
    }
  }

  lemma PriceTotalSnoc(os: seq<Order>, o: Order)
    ensures PriceTotal(os + [o]) == PriceTotal(os) + o.price
  {
    assert (os + [o])[..|os|] == os;
  }

  lemma {:induction false} PriceTotalInsert(t: seq<Order>, e: Order, key: Order -> real)
    ensures PriceTotal(InsertBy(t, e, key)) == PriceTotal(t) + e.price
  {
    if t != [] && key(e) < key(t[|t| - 1]) {
      var t', last := t[..|t| - 1], t[|t| - 1];
      assert t == t' + [last];
      InsertBeforeSnoc(t', last, e, key);
      PriceTotalInsert(t', e, key);
      PriceTotalSnoc(InsertBy(t', e, key), last);
      PriceTotalSnoc(t', last);
    } else if t != [] {
      assert InsertBy(t, e, key) == t + [e];
      PriceTotalSnoc(t, e);
    } else {
      assert InsertBy(t, e, key) == [] + [e];
      PriceTotalSnoc([], e);
    }
  }

  lemma {:induction false} PriceTotalSorted(s: seq<Order>, key: Order -> real)
    ensures PriceTotal(StableSortBy(s, key)) == PriceTotal(s)
  {
    if s != [] {
      var s', e := s[..|s| - 1], s[|s| - 1];
      assert s == s' + [e];
      SortSnoc(s', e, key);
      PriceTotalSorted(s', key);
      PriceTotalInsert(StableSortBy(s', key), e, key);
      PriceTotalSnoc(s', e);
    }
  }

  /** The check gives the same totals on the sorted lists as on the lists as submitted. */
  lemma DemandSupplyIgnoresOrder(bids: seq<Order>, offers: seq<Order>)
    ensures CheckDemandSupply(SortBids(bids), SortOffers(offers)) == CheckDemandSupply(bids, offers)
  {
    PriceTotalSorted(bids, BidKey);
    PriceTotalSorted(offers, OfferKey);
  }

  // ---------------------------------------------------------------------
  // clearing_quantity_calc
  // ---------------------------------------------------------------------

  /** A segment that has both a bid and an offer price. */
  predicate Complete(s: Segment) { s.bidPrice.Some? && s.offerPrice.Some? }

  /** Bid price at least the offer price. */
  predicate Clears(s: Segment) { Complete(s) && s.bidPrice.value >= s.offerPrice.value }

  /** Bid price below the offer price. */
  predicate Crossed(s: Segment) { Complete(s) && s.bidPrice.value < s.offerPrice.value }

  /** The segments kept by the None-filter of `clearing_quantity_calc`. */
  function CompleteSegments(curve: seq<Segment>): (f: seq<Segment>)
    ensures forall i :: 0 <= i < |f| ==> Complete(f[i]) && f[i] in curve
    ensures forall i :: 0 <= i < |curve| && Complete(curve[i]) ==> curve[i] in f
  {
    FilterMembers(curve, Complete);
    Filter(curve, Complete)
  }

  /** `(x, bid price)` of a segment. */
  function PointOf(s: Segment): (Option<real>, Option<real>)
  {
    (Some(s.x), s.bidPrice)
  }

  /**
   * `clearing_quantity_calc`, as written. Full clearance takes the last
   * complete segment; no clearance gives (None, None); otherwise the point is
   * the segment before the first crossed one, where "before index 0" is
   * Python's index -1, the last segment. With no complete segment at all,
   * `all([])` holds and `[-1]` raises.
   */
  function ClearingQuantityCalc(curve: seq<Segment>): (r: Result<(Option<real>, Option<real>)>)
    ensures r.Failure? <==> forall i :: 0 <= i < |curve| ==> !Complete(curve[i])
    ensures r.Failure? ==> r.error == IndexError
    ensures r.Success? ==> (r.value.0.None? <==> r.value.1.None?)
  {
    var f := CompleteSegments(curve);
    if forall i | 0 <= i < |f| :: Clears(f[i]) then
      if f == [] then Failure(IndexError) else Success(PointOf(f[|f| - 1]))
    else if forall i | 0 <= i < |f| :: Crossed(f[i]) then Success((None, None))
    else
      assert FirstFrom(f, 0, Crossed).Some?;
      var i := FirstFrom(f, 0, Crossed).value;
      Success(PointOf(if i == 0 then f[|f| - 1] else f[i - 1]))
  }

  /** Number of complete segments before the first crossed one. */
  function LeadingClears(f: seq<Segment>): (n: nat)
    requires forall i :: 0 <= i < |f| ==> Complete(f[i])
    ensures n <= |f|
    ensures forall m :: 0 <= m < n ==> Clears(f[m])
    ensures n < |f| ==> Crossed(f[n])
  {
    match FirstFrom(f, 0, Crossed)
    case None => |f|
    case Some(i) => i
  }

  /** `f[k]` ends the run of clearing segments at the start of `f`, and `point` is its point. */
  predicate EndsLeadingRun(f: seq<Segment>, k: nat, point: (Option<real>, Option<real>))
    requires k < |f|
  {
    (forall m :: 0 <= m <= k ==> Clears(f[m])) && (k + 1 < |f| ==> Crossed(f[k + 1]))
    && point == PointOf(f[k])
  }

  /**
   * The evidently intended clearing point: the last segment of the leading
   * run of clearing segments, and no trade when that run is empty (the curve
   * starts crossed, or nothing is complete).
   */
  function ClearingPoint(curve: seq<Segment>): (r: (Option<real>, Option<real>))
    ensures r.0.None? <==> r.1.None?
    ensures r.0.None? <==> (CompleteSegments(curve) == [] || Crossed(CompleteSegments(curve)[0]))
    ensures r.0.Some? ==>
      exists k :: 0 <= k < |CompleteSegments(curve)| && EndsLeadingRun(CompleteSegments(curve), k, r)
  {
    var f := CompleteSegments(curve);
    var n := LeadingClears(f);
    if n == 0 then (None, None)
    else
      assert EndsLeadingRun(f, n - 1, PointOf(f[n - 1]));
      PointOf(f[n - 1])
  }

  /**
   * Whenever the first complete segment clears, the code as written computes
   * the intended point: full clearance is the last segment, partial
   * clearance the one just before the first crossing.
   */
  lemma ClearingAgreesWhenFirstClears(curve: seq<Segment>)
    requires var f := CompleteSegments(curve); f != [] && Clears(f[0])
    ensures ClearingQuantityCalc(curve) == Success(ClearingPoint(curve))
  {
    var f := CompleteSegments(curve);
    if !(forall i | 0 <= i < |f| :: Clears(f[i])) {
      assert !Crossed(f[0]);
    } else {
      assert FirstFrom(f, 0, Crossed).None?;
    }
  }

  /** Every complete segment crossed: no trade. */
  lemma NoClearanceWhenAllCrossed(curve: seq<Segment>)
    requires var f := CompleteSegments(curve); f != [] && forall i :: 0 <= i < |f| ==> Crossed(f[i])
    ensures ClearingQuantityCalc(curve) == Success((None, None))
    ensures ClearingPoint(curve) == (None, None)
  {
    var f := CompleteSegments(curve);
    assert !Clears(f[0]);
  }

  /**
   * When the first complete segment is crossed but a later one clears, the
   * code as written reads index -1 and reports the last complete segment.
   */
  lemma PartialClearanceWraps(curve: seq<Segment>)
    requires var f := CompleteSegments(curve);
      f != [] && Crossed(f[0]) && exists k :: 0 <= k < |f| && Clears(f[k])
    ensures var f := CompleteSegments(curve);
      ClearingQuantityCalc(curve) == Success(PointOf(f[|f| - 1]))
    ensures ClearingPoint(curve) == (None, None)
  {
    var f := CompleteSegments(curve);
    var k :| 0 <= k < |f| && Clears(f[k]);
    assert !Crossed(f[k]);
    assert !Clears(f[0]);
  }

  /** A concrete curve on which the wrap-around reports a trade that should not happen. */
  lemma WrapCounterexample()
    ensures var curve := [
        Segment(5.0, Some(0.10), Some(0.20), Some("H1"), Some("H3")),
        Segment(10.0, Some(0.30), Some(0.25), Some("H2"), Some("H4"))];
      ClearingQuantityCalc(curve) == Success((Some(10.0), Some(0.30)))
      && ClearingPoint(curve) == (None, None)
  {
    var curve := [
      Segment(5.0, Some(0.10), Some(0.20), Some("H1"), Some("H3")),
      Segment(10.0, Some(0.30), Some(0.25), Some("H2"), Some("H4"))];
    assert CompleteSegments(curve) == curve by {
      assert curve[1..] == [curve[1]];
    }
    PartialClearanceWraps(curve);
  }

  /** No complete segment: the code as written raises, the intended result is no trade. */
  lemma EmptyCurveCounterexample(curve: seq<Segment>)
    requires forall i :: 0 <= i < |curve| ==> !Complete(curve[i])
    ensures ClearingQuantityCalc(curve) == Failure(IndexError)
    ensures ClearingPoint(curve) == (None, None)
  {
    FilterNone(curve, Complete);
  }

  // ---------------------------------------------------------------------
  // pac_pricing
  // ---------------------------------------------------------------------

  /** The four results of `pac_pricing`, or why the run stops. */
  datatype PacResult =
    | Unpriced(foundQuantity: Option<real>, foundPrice: Option<real>)        // (q, p, None, None)
    | Cleared(quantity: real, price: real, turnover: real, pairs: seq<TradePair>)
    | Aborted(fault: Fault)
    | OutOfFuel                                                      // `while not filled` still spinning

  /** Total traded quantity of the pairs. */
  function PairQuantities(ps: seq<TradePair>): real
  {
    if ps == [] then 0.0 else PairQuantities(ps[..|ps| - 1]) + ps[|ps| - 1].quantity
  }

  /** Total payment of the pairs (`np.sum(x[3] for x in trade_pairs_pac_)`). */
  function PairPayments(ps: seq<TradePair>): real
  {
    if ps == [] then 0.0 else PairPayments(ps[..|ps| - 1]) + ps[|ps| - 1].payment
  }

  lemma PairTotalsSnoc(ps: seq<TradePair>, t: TradePair)
    ensures PairQuantities(ps + [t]) == PairQuantities(ps) + t.quantity
    ensures PairPayments(ps + [t]) == PairPayments(ps) + t.payment
  {
    assert (ps + [t])[..|ps|] == ps;
  }

  /** Pairs each paid at `p` are paid the value at `p` of their total quantity. */
  lemma {:induction false} PaymentsAtPrice(ps: seq<TradePair>, p: real)
    requires forall k :: 0 <= k < |ps| ==> ps[k].payment == ps[k].quantity * p
    ensures PairPayments(ps) == PairQuantities(ps) * p
  {
    if ps != [] {
      var init := ps[..|ps| - 1];
      PaymentsAtPrice(init, p);
      assert PairPayments(ps) == PairPayments(init) + ps[|ps| - 1].payment;
      assert PairQuantities(ps) * p == PairQuantities(init) * p + ps[|ps| - 1].quantity * p;
    }
  }

  /** `id` submitted one of the orders. */
  predicate SubmittedBy(os: seq<Order>, id: AgentId)
  {
    exists j :: 0 <= j < |os| && os[j].id == id
  }

  /** The curve has a clearing point for `pac_pricing` to match at. */
  predicate Priced(curve: seq<Segment>)
  {
    ClearingPoint(curve).0.Some?
  }

  /** A pair paid at the clearing price `p`, between a bidder and an offerer. */
  predicate PaidAtClearing(t: TradePair, p: real, sortedBids: seq<Order>, sortedOffers: seq<Order>)
  {
    t.payment == t.quantity * p && SubmittedBy(sortedOffers, t.seller) && SubmittedBy(sortedBids, t.buyer)
  }

  /**
   * The loop state of `pac_pricing`: the pairs so far, the matched quantity,
   * the index of the next supplier, what the current seller has left, its id,
   * and the `filled` flag.
   */
  datatype Matching = Matching(
    pairs: seq<TradePair>,
    matched: real,
    supplier: nat,
    available: real,
    sellerId: AgentId,
    filled: bool)

  /**
   * What holds of the matching state throughout: never more matched than the
   * clearing quantity `q`, exactly `q` once filled, the pairs add up to the
   * matched quantity, and every pair is paid at `p` between agents that
   * submitted orders (so the payments add up to the matched quantity's value
   * at `p`, by `PaymentsAtPrice`).
   */
  predicate MatchingInvariant(m: Matching, q: real, p: real, sortedBids: seq<Order>, sortedOffers: seq<Order>)
  {
    && m.supplier < |sortedOffers|
    && SubmittedBy(sortedOffers, m.sellerId)
    && m.matched <= q
    && (m.filled ==> m.matched == q)
    && PairQuantities(m.pairs) == m.matched
    && forall k :: 0 <= k < |m.pairs| ==> PaidAtClearing(m.pairs[k], p, sortedBids, sortedOffers)
  }

  /** Appending a pair paid at `p` that stays within `q` keeps the invariant. */
  lemma RecordTrade(m: Matching, pair: TradePair, available: real,
                    q: real, p: real, sortedBids: seq<Order>, sortedOffers: seq<Order>)
    requires MatchingInvariant(m, q, p, sortedBids, sortedOffers) && !m.filled
    requires PaidAtClearing(pair, p, sortedBids, sortedOffers) && m.matched + pair.quantity <= q
    ensures MatchingInvariant(
      m.(pairs := m.pairs + [pair], matched := m.matched + pair.quantity, available := available),
      q, p, sortedBids, sortedOffers)
  {
    PairTotalsSnoc(m.pairs, pair);
    var ps := m.pairs + [pair];
    forall k | 0 <= k < |ps| ensures PaidAtClearing(ps[k], p, sortedBids, sortedOffers) {
      if k < |m.pairs| {
        assert ps[k] == m.pairs[k];
      }
    }
  }

  /** A trade between the current seller and a bidder is paid at the clearing price. */
  lemma CurrentSellerPaid(m: Matching, bid: Order, trade: real,
                          q: real, p: real, sortedBids: seq<Order>, sortedOffers: seq<Order>)
    requires MatchingInvariant(m, q, p, sortedBids, sortedOffers) && bid in sortedBids
    ensures PaidAtClearing(TradePair(m.sellerId, bid.id, trade, trade * p), p, sortedBids, sortedOffers)
  {
    var j :| 0 <= j < |sortedBids| && sortedBids[j] == bid;
  }

  /** Moving on to the offer at the supplier index keeps the invariant. */
  lemma NextSeller(m: Matching, q: real, p: real, sortedBids: seq<Order>, sortedOffers: seq<Order>)
    requires MatchingInvariant(m, q, p, sortedBids, sortedOffers) && m.supplier + 1 < |sortedOffers|
    ensures var next := sortedOffers[m.supplier];
      MatchingInvariant(m.(available := next.price, sellerId := next.id, supplier := m.supplier + 1),
        q, p, sortedBids, sortedOffers)
  {
    assert sortedOffers[m.supplier].id == sortedOffers[m.supplier].id;
  }

  /**
   * One iteration of the `for` over the sorted bids in `pac_pricing`: the
   * bid's demand, capped at what is left of `q`, is served by the current
   * seller and, when it runs out, by the next ones.
   */
  method MatchBid(m: Matching, bid: Order, q: real, p: real, sortedBids: seq<Order>, sortedOffers: seq<Order>)
    returns (m': Matching)
    requires MatchingInvariant(m, q, p, sortedBids, sortedOffers) && bid in sortedBids
    ensures MatchingInvariant(m', q, p, sortedBids, sortedOffers)
    ensures m.supplier <= m'.supplier
    ensures m.filled ==> m' == m
  {
    m' := m;
    var toBeMatched := bid.quantity;
    if m'.matched + toBeMatched > q {
      toBeMatched := q - m'.matched;
    }
    var n := |sortedOffers|;
    while toBeMatched > 0.0
      invariant MatchingInvariant(m', q, p, sortedBids, sortedOffers)
      invariant m'.matched + toBeMatched <= q
      invariant m.supplier <= m'.supplier
      invariant m.filled ==> m' == m
      decreases n - m'.supplier, if toBeMatched > 0.0 then 1 else 0
    {
      // case 1: the seller covers the bid's remaining demand; case 2: it is exhausted
      var sellerCovers := m'.available > toBeMatched;
      var trade := if sellerCovers then toBeMatched else m'.available;
      var pair := TradePair(m'.sellerId, bid.id, trade, trade * p);
      CurrentSellerPaid(m', bid, trade, q, p, sortedBids, sortedOffers);
      RecordTrade(m', pair, m'.available - trade, q, p, sortedBids, sortedOffers);
      toBeMatched := toBeMatched - trade;
      m' := m'.(pairs := m'.pairs + [pair], matched := m'.matched + trade, available := m'.available - trade);
      if !sellerCovers {
        if m'.supplier < n - 1 {
          var next := sortedOffers[m'.supplier];
          NextSeller(m', q, p, sortedBids, sortedOffers);
          m' := m'.(available := next.price, sellerId := next.id, supplier := m'.supplier + 1);
        } else {
          break;
        }
      }
      if m'.matched >= q {
        assert m'.matched == q;
        m' := m'.(filled := true);
        break;
      }
    }
  }

  /**
   * `pac_pricing`, with the sorted bid and offer lists passed explicitly and
   * the clearing point found as `ClearingPoint` defines it. Bids are served in order; each bid's demand is capped so that the matched
   * total never exceeds the clearing quantity; a seller with surplus stays for
   * the next bid; an exhausted seller is replaced by reading the PRICE field
   * of the offer at the current index as the next available supply and that
   * offer's id as the seller, before the index moves on. When no supplier is
   * left only the inner loop ends, so `while not filled` repeats the pass over
   * the bids; `fuel` bounds the number of passes.
   */
  method PacPricing(curve: seq<Segment>, sortedBids: seq<Order>, sortedOffers: seq<Order>, fuel: nat)
    returns (r: PacResult)
    ensures r.Unpriced? <==> !Priced(curve)
    ensures r.Unpriced? ==> ClearingPoint(curve) == (r.foundQuantity, r.foundPrice)
    ensures r == Aborted(NegativeTurnover) <==> Priced(curve) && !TurnoverCheck(curve)
    ensures r == Aborted(IndexError) <==> Priced(curve) && TurnoverCheck(curve) && sortedOffers == []
    ensures r.Aborted? ==> r.fault == NegativeTurnover || r.fault == IndexError
    ensures r.Cleared? ==> ClearingPoint(curve) == (Some(r.quantity), Some(r.price))
    ensures r.Cleared? ==> r.quantity >= 0.0 && r.turnover >= 0.0 && r.turnover == r.quantity * r.price
    ensures r.Cleared? ==> PairQuantities(r.pairs) == r.quantity && PairPayments(r.pairs) == r.turnover
    ensures r.Cleared? ==>
      forall k :: 0 <= k < |r.pairs| ==> PaidAtClearing(r.pairs[k], r.price, sortedBids, sortedOffers)
  {
    var (cq, cp) := ClearingPoint(curve);
    if cq.None? || cp.None? {
      return Unpriced(cq, cp);
    }
    var q, p := cq.value, cp.value;
    var turnover := q * p;
    if !(turnover >= 0.0 && q >= 0.0) {
      return Aborted(NegativeTurnover);
    }
    if |sortedOffers| == 0 {
      return Aborted(IndexError);  // the first offer is read before matching starts
    }
    var m := Matching([], 0.0, 0, sortedOffers[0].quantity, sortedOffers[0].id, false);
    var passes := 0;
    while !m.filled && passes < fuel
      invariant MatchingInvariant(m, q, p, sortedBids, sortedOffers)
      decreases fuel - passes
    {
      for i := 0 to |sortedBids|
        invariant MatchingInvariant(m, q, p, sortedBids, sortedOffers)
      {
        m := MatchBid(m, sortedBids[i], q, p, sortedBids, sortedOffers);
      }
      passes := passes + 1;
    }
    if !m.filled {
      return OutOfFuel;
    }
    PaymentsAtPrice(m.pairs, p);
    return Cleared(q, p, turnover, m.pairs);
  }

  /** The assertion `total_turnover_ >= 0 and clearing_quantity >= 0` on the clearing point. */
  predicate TurnoverCheck(curve: seq<Segment>)
    requires Priced(curve)
  {
    var (q, p) := ClearingPoint(curve);
    q.value * p.value >= 0.0 && q.value >= 0.0
  }

  /** Scenario: every complete segment clears, so the last one is the clearing point. */
  lemma FullClearanceScenario()
    ensures ClearingQuantityCalc([
      Segment(8.0, Some(0.30), Some(0.10), Some("H1"), Some("H3")),
      Segment(10.0, Some(0.30), Some(0.20), Some("H1"), Some("H4")),
      Segment(15.0, Some(0.25), Some(0.20), Some("H2"), Some("H4")),
      Segment(18.0, None, Some(0.20), None, Some("H4"))]) == Success((Some(15.0), Some(0.25)))
  {
    var a := Segment(8.0, Some(0.30), Some(0.10), Some("H1"), Some("H3"));
    var b := Segment(10.0, Some(0.30), Some(0.20), Some("H1"), Some("H4"));
    var c := Segment(15.0, Some(0.25), Some(0.20), Some("H2"), Some("H4"));
    var d := Segment(18.0, None, Some(0.20), None, Some("H4"));
    ThreeCompleteOfFour(a, b, c, d);
    var f := [a, b, c];
    assert Clears(f[0]) && Clears(f[1]) && Clears(f[2]);
  }

  /** The None-filter of four segments, the last of which is incomplete. */
  lemma ThreeCompleteOfFour(a: Segment, b: Segment, c: Segment, d: Segment)
    requires Complete(a) && Complete(b) && Complete(c) && !Complete(d)
    ensures CompleteSegments([a, b, c, d]) == [a, b, c]
  {
    FilterAppend([a, b, c], [d], Complete);
    FilterAppend([a], [b, c], Complete);
    FilterAppend([b], [c], Complete);
    assert [a, b, c] + [d] == [a, b, c, d];
    assert [a] + [b, c] == [a, b, c];
    assert [b] + [c] == [b, c];
  }

  /** Scenario: the second complete segment is crossed, so the first one is the clearing point. */
  lemma PartialClearanceScenario()
    ensures ClearingQuantityCalc([
      Segment(5.0, Some(0.30), Some(0.15), Some("H1"), Some("H3")),
      Segment(5.0, Some(0.10), Some(0.15), Some("H2"), Some("H3")),
      Segment(10.0, Some(0.10), Some(0.25), Some("H2"), Some("H4")),
      Segment(10.0, None, Some(0.25), None, Some("H4"))]) == Success((Some(5.0), Some(0.30)))
  {
    var a := Segment(5.0, Some(0.30), Some(0.15), Some("H1"), Some("H3"));
    var b := Segment(5.0, Some(0.10), Some(0.15), Some("H2"), Some("H3"));
    var c := Segment(10.0, Some(0.10), Some(0.25), Some("H2"), Some("H4"));
    var d := Segment(10.0, None, Some(0.25), None, Some("H4"));
    ThreeCompleteOfFour(a, b, c, d);
    var f := [a, b, c];
    assert Clears(f[0]) && Crossed(f[1]);
    ClearingAgreesWhenFirstClears([a, b, c, d]);
  }

  // ---------------------------------------------------------------------
  // pab_pricing
  // ---------------------------------------------------------------------

  /** A pay-as-bid pair `[seller id, buyer id, quantity, payment]` read off one segment. */
  datatype PabPair = PabPair(seller: Option<AgentId>, buyer: Option<AgentId>, quantity: real, payment: real)

  /**
   * The loop of `pab_pricing`: every executed segment becomes a pair that
   * pays the segment's bid price for its `x`; a segment without a bid price
   * makes the multiplication fail.
   */
  method PabPairs(executed: seq<Segment>) returns (r: Result<seq<PabPair>>)
    ensures r.Success? <==> forall k :: 0 <= k < |executed| ==> executed[k].bidPrice.Some?
    ensures r.Failure? ==> r.error == TypeError
    ensures r.Success? ==> |r.value| == |executed| && forall k :: 0 <= k < |executed| ==>
      r.value[k].quantity == executed[k].x && r.value[k].payment == executed[k].x * executed[k].bidPrice.value
      && r.value[k].seller == executed[k].sellerId && r.value[k].buyer == executed[k].buyerId
  {
    var pairs: seq<PabPair> := [];
    for i := 0 to |executed|
      invariant |pairs| == i && forall k :: 0 <= k < i ==> executed[k].bidPrice.Some?
      invariant forall k :: 0 <= k < i ==>
        pairs[k].quantity == executed[k].x && pairs[k].payment == executed[k].x * executed[k].bidPrice.value
        && pairs[k].seller == executed[k].sellerId && pairs[k].buyer == executed[k].buyerId
    {
      var segment := executed[i];
      if segment.bidPrice.None? {
        return Failure(TypeError);
      }
      pairs := pairs + [PabPair(segment.sellerId, segment.buyerId, segment.x, segment.x * segment.bidPrice.value)];
    }
    return Success(pairs);
  }

  /** The segments `pab_pricing` executes: those left of the clearing quantity. */
  function ExecutedSegments(curve: seq<Segment>, q: real): (e: seq<Segment>)
    ensures forall k :: 0 <= k < |e| ==> e[k].x < q && e[k] in curve
    ensures forall k :: 0 <= k < |curve| && curve[k].x < q ==> curve[k] in e
  {
    FilterMembers(curve, (s: Segment) => s.x < q);
    Filter(curve, (s: Segment) => s.x < q)
  }

  /** Every segment left of `q` has a bid price to pay with. */
  predicate BidsPriced(curve: seq<Segment>, q: real)
  {
    forall k :: 0 <= k < |curve| && curve[k].x < q ==> curve[k].bidPrice.Some?
  }

  /**
   * Pay-as-bid goes through when no clearing quantity was found on an empty
   * curve, or when every executed segment carries a bid price.
   */
  predicate PabSucceeds(curve: seq<Segment>)
  {
    if ClearingPoint(curve).0.None? then curve == [] else BidsPriced(curve, ClearingPoint(curve).0.value)
  }

  /**
   * `pab_pricing`, on the clearing point as `ClearingPoint` defines it: it
   * returns only the clearing quantity; the price, the turnover and the
   * pairs it builds are all given back as `None`. Without a clearing
   * quantity every comparison `segment[0] < None` fails, so only an empty
   * curve gets through; a segment without a bid price fails the payment.
   */
  method PabPricing(curve: seq<Segment>) returns (r: Result<Option<real>>)
    ensures r.Success? ==> r.value == ClearingPoint(curve).0
    ensures r.Failure? ==> r.error == TypeError
    ensures r.Success? <==> PabSucceeds(curve)
  {
    var q := ClearingPoint(curve).0;
    if q.None? {
      if curve == [] {
        return Success(None);
      }
      return Failure(TypeError);
    }
    var executed := ExecutedSegments(curve, q.value);
    var pairs := PabPairs(executed);
    if pairs.Failure? {
      var j :| 0 <= j < |executed| && executed[j].bidPrice.None?;
      assert executed[j] in curve;
      var k :| 0 <= k < |curve| && curve[k] == executed[j];
      assert !BidsPriced(curve, q.value);
      return Failure(pairs.error);
    }
    forall k | 0 <= k < |curve| && curve[k].x < q.value ensures curve[k].bidPrice.Some? {
      var j :| 0 <= j < |executed| && executed[j] == curve[k];
    }
    return Success(q);
  }

  // ---------------------------------------------------------------------
  // the min / average / max summary of `execute_auction`
  // ---------------------------------------------------------------------

  /** `[min, average, max]` of the last field of the trade pairs. */
  datatype PriceSummary = PriceSummary(min: real, average: real, max: real)

  function MinOf(s: seq<real>): real
    requires s != []
  {
    if |s| == 1 then s[0] else var m := MinOf(s[1..]); if s[0] <= m then s[0] else m
  }

  function MaxOf(s: seq<real>): real
    requires s != []
  {
    if |s| == 1 then s[0] else var m := MaxOf(s[1..]); if s[0] >= m then s[0] else m
  }

  /** The minimum and maximum are members and bound every element. */
  lemma {:induction false} ExtremesBound(s: seq<real>)
    requires s != []
    ensures MinOf(s) in s && MaxOf(s) in s
    ensures forall k :: 0 <= k < |s| ==> MinOf(s) <= s[k] <= MaxOf(s)
  {
    if |s| > 1 {
      ExtremesBound(s[1..]);
      assert forall k :: 1 <= k < |s| ==> s[k] == s[1..][k - 1];
    }
  }

  /** The sum of `s` lies between `|s|` times its minimum and `|s|` times its maximum. */
  lemma SumBetweenExtremes(s: seq<real>)
    requires s != []
    ensures |s| as real * MinOf(s) <= Sum(s) <= |s| as real * MaxOf(s)
  {
    ExtremesBound(s);
    SumBounds(s, MinOf(s), MaxOf(s));
  }

  /** Elements between `lo` and `hi` sum to between `|s|` times `lo` and `|s|` times `hi`. */
  lemma {:induction false} SumBounds(s: seq<real>, lo: real, hi: real)
    requires forall k :: 0 <= k < |s| ==> lo <= s[k] <= hi
    ensures |s| as real * lo <= Sum(s) <= |s| as real * hi
  {
    if s != [] {
      var t := s[1..];
      assert forall k :: 0 <= k < |t| ==> t[k] == s[k + 1];
      SumBounds(t, lo, hi);
      assert |s| == |t| + 1;
      MulSucc(|t|, lo);
      MulSucc(|t|, hi);
      assert Sum(s) == s[0] + Sum(t);
    }
  }

  lemma MulSucc(n: nat, x: real)
    ensures (n + 1) as real * x == n as real * x + x
  {
  }

  /** `n * lo <= total <= n * hi` with `n > 0` puts `total / n` between `lo` and `hi`. */
  lemma QuotientBetween(lo: real, total: real, hi: real, n: real)
    requires n > 0.0 && n * lo <= total <= n * hi
    ensures lo <= total / n <= hi && total / n * n == total
  {
    var a := total / n;
    assert a * n == total;
  }

  /**
   * The summary over a non-empty list of payment figures: the average lies
   * between the extremes, which are themselves among the figures.
   */
  function Summarize(figures: seq<real>): (r: PriceSummary)
    requires figures != []
    ensures r.min <= r.average <= r.max
    ensures r.min in figures && r.max in figures
    ensures forall k :: 0 <= k < |figures| ==> r.min <= figures[k] <= r.max
    ensures r.average * |figures| as real == Sum(figures)
  {
    ExtremesBound(figures);
    SumBetweenExtremes(figures);
    var n := |figures| as real;
    var avg := Sum(figures) / n;
    QuotientBetween(MinOf(figures), Sum(figures), MaxOf(figures), n);
    PriceSummary(MinOf(figures), avg, MaxOf(figures))
  }

  /** The last field of each uniform trade pair: its payment. */
  function PaymentFigures(ps: seq<TradePair>): (r: seq<real>)
    ensures |r| == |ps| && forall k :: 0 <= k < |ps| ==> r[k] == ps[k].payment
  {
    seq(|ps|, k requires 0 <= k < |ps| => ps[k].payment)
  }

  /**
   * The last field of each McAfee pair as the summary reads it: single
   * payments as they are; when they are all (revenue, payment) pairs, the
   * summing raises and the midpoint of each pair is used instead; a mixture
   * fails in the fallback as well.
   */
  function McAfeeFigures(ts: seq<McAfeePair>): (r: Result<seq<real>>)
    ensures r.Success? ==> |r.value| == |ts|
    ensures (forall k :: 0 <= k < |ts| ==> ts[k].payment.Single?) ==>
      r.Success? && forall k :: 0 <= k < |ts| ==> r.value[k] == ts[k].payment.amount
    ensures ts != [] && (forall k :: 0 <= k < |ts| ==> ts[k].payment.Split?) ==>
      r.Success? && forall k :: 0 <= k < |ts| ==>
        r.value[k] == (ts[k].payment.sellerRevenue + ts[k].payment.buyerPayment) / 2.0
    ensures r.Failure? <==>
      (exists k :: 0 <= k < |ts| && ts[k].payment.Single?) && (exists k :: 0 <= k < |ts| && ts[k].payment.Split?)
  {
    if forall k | 0 <= k < |ts| :: ts[k].payment.Single? then
      Success(seq(|ts|, k requires 0 <= k < |ts| => ts[k].payment.amount))
    else if forall k | 0 <= k < |ts| :: ts[k].payment.Split? then
      Success(seq(|ts|, k requires 0 <= k < |ts| =>
        (ts[k].payment.sellerRevenue + ts[k].payment.buyerPayment) / 2.0))
    else Failure(TypeError)
  }
}
