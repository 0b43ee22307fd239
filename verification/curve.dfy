/**
 * Curve construction of the auctioneer (`Auctioneer.sorting` and
 * `Auctioneer.market_rules`): removal of empty placeholders, sorting of bids
 * and offers by price, the cumulative-quantity x-axis of each side, the
 * stable merge of both sides by x, the forward fill of each one-sided
 * segment from its nearest later counterpart, and the market-rule filter.
 */
module Curve {
  import opened AuctionTypes
  import opened SeqUtil

  // ---------------------------------------------------------------------
  // Empty placeholders
  // ---------------------------------------------------------------------

  predicate IsOrder(e: Submission) { e.Some? }

  /**
   * The recursive `empty` test of `auction_round` applied to a bid or offer
   * list: an order holds a number, which is not iterable, so the list is
   * "empty" exactly when every entry is an empty placeholder.
   */
  predicate AllEmpty(xs: seq<Submission>)
  {
    forall i :: 0 <= i < |xs| ==> xs[i].None?
  }

  /** `xs.remove([])`: drops the first empty placeholder. */
  function RemoveFirstEmpty(xs: seq<Submission>): (r: seq<Submission>)
    requires exists i :: 0 <= i < |xs| && xs[i].None?
    ensures |r| == |xs| - 1
  {
    if xs[0].None? then xs[1..] else [xs[0]] + RemoveFirstEmpty(xs[1..])
  }

  /**
   * `for e in xs: if len(e) is 0: xs.remove(e)`, continued from list
   * position `i`: the iterator advances by one position after every removal,
   * so the entry that moved into the current position is never looked at.
   */
  function RemoveWhileIterating(xs: seq<Submission>, i: nat): seq<Submission>
    decreases |xs| - i
  {
    if i >= |xs| then xs
    else if xs[i].None? then RemoveWhileIterating(RemoveFirstEmpty(xs), i + 1)
    else RemoveWhileIterating(xs, i + 1)
  }

  /** The removal loop of `sorting` over one of the two raw lists. */
  method RemoveEmpty(xs: seq<Submission>) returns (ys: seq<Submission>)
    ensures ys == RemoveWhileIterating(xs, 0)
  {
    ys := xs;
    var i := 0;
    while i < |ys|
      invariant RemoveWhileIterating(ys, i) == RemoveWhileIterating(xs, 0)
      decreases |ys| - i
    {
      if ys[i].None? {
        ys := RemoveFirstEmpty(ys);
      }
      i := i + 1;
    }
  }

  lemma {:induction false} RemoveFirstEmptyKeepsOrders(xs: seq<Submission>)
    requires exists i :: 0 <= i < |xs| && xs[i].None?
    ensures Filter(RemoveFirstEmpty(xs), IsOrder) == Filter(xs, IsOrder)
  {
    if xs[0].Some? {
      assert exists i :: 0 <= i < |xs[1..]| && xs[1..][i].None? by {
        var i :| 0 <= i < |xs| && xs[i].None?;
        assert xs[1..][i - 1] == xs[i];
      }
      RemoveFirstEmptyKeepsOrders(xs[1..]);
      var r := RemoveFirstEmpty(xs);
      assert r[0] == xs[0] && r[1..] == RemoveFirstEmpty(xs[1..]);
    }
  }

  /**
   * The removal loop keeps every submitted order, in submission order: only
   * empty placeholders are ever removed.
   */
  lemma {:induction false} RemoveEmptyKeepsOrders(xs: seq<Submission>, i: nat)
    ensures Filter(RemoveWhileIterating(xs, i), IsOrder) == Filter(xs, IsOrder)
    decreases |xs| - i
  {
    if i < |xs| {
      if xs[i].None? {
        RemoveFirstEmptyKeepsOrders(xs);
        RemoveEmptyKeepsOrders(RemoveFirstEmpty(xs), i + 1);
      } else {
        RemoveEmptyKeepsOrders(xs, i + 1);
      }
    }
  }

  /**
   * Two adjacent placeholders: the second one moves into the position just
   * visited and survives the loop.
   */
  lemma AdjacentEmptySurvives(o: Order)
    ensures RemoveWhileIterating([None, None], 0) == [None]
    ensures RemoveWhileIterating([Some(o), None, None], 0) == [Some(o), None]
  {
    var two: seq<Submission> := [None, None];
    var one: seq<Submission> := [None];
    assert two[0].None? && two[1..] == one;
    assert RemoveFirstEmpty(two) == one;
    assert RemoveWhileIterating(one, 1) == one;
    assert RemoveWhileIterating(two, 0) == RemoveWhileIterating(one, 1);
    var three: seq<Submission> := [Some(o), None, None];
    var kept: seq<Submission> := [Some(o), None];
    assert three[1].None? && three[1..] == two;
    assert RemoveFirstEmpty(three) == [Some(o)] + RemoveFirstEmpty(two) == kept;
    assert RemoveWhileIterating(kept, 2) == kept;
    assert RemoveWhileIterating(three, 1) == RemoveWhileIterating(kept, 2);
    assert RemoveWhileIterating(three, 0) == RemoveWhileIterating(three, 1);
  }

  /** The evidently intended removal: every placeholder goes, every order stays. */
  function DropEmpty(xs: seq<Submission>): (r: seq<Submission>)
    ensures forall i :: 0 <= i < |r| ==> r[i].Some?
    ensures forall i :: 0 <= i < |xs| && xs[i].Some? ==> xs[i] in r
    ensures forall i :: 0 <= i < |r| ==> r[i] in xs
  {
    FilterMembers(xs, IsOrder);
    Filter(xs, IsOrder)
  }

  /** Every order stays as often as it was submitted and every placeholder goes. */
  lemma DropEmptyCounts(xs: seq<Submission>)
    ensures forall x :: multiset(DropEmpty(xs))[x] == if x.Some? then multiset(xs)[x] else 0
  {
    FilterCounts(xs, IsOrder);
  }

  /** The removal keeps the submitted order: it distributes over concatenation. */
  lemma DropEmptyKeepsOrder(a: seq<Submission>, b: seq<Submission>)
    ensures DropEmpty(a + b) == DropEmpty(a) + DropEmpty(b)
  {
    FilterAppend(a, b, IsOrder);
  }

  /** The orders of a list from which every placeholder is gone. */
  function Orders(xs: seq<Submission>): (r: seq<Order>)
    requires forall i :: 0 <= i < |xs| ==> xs[i].Some?
    ensures |r| == |xs| && forall i :: 0 <= i < |xs| ==> xs[i] == Some(r[i])
  {
    seq(|xs|, i requires 0 <= i < |xs| => xs[i].value)
  }

  // ---------------------------------------------------------------------
  // Sorting bids and offers
  // ---------------------------------------------------------------------

  /** `sorted(bids, key=price, reverse=True)` is a stable ascending sort on minus the price. */
  function BidKey(o: Order): real { -o.price }

  function OfferKey(o: Order): real { o.price }

  function SortBids(bids: seq<Order>): seq<Order> { StableSortBy(bids, BidKey) }

  function SortOffers(offers: seq<Order>): seq<Order> { StableSortBy(offers, OfferKey) }

  /**
   * Sorted bids are a permutation of the bids in non-increasing price order;
   * sorted offers are a permutation of the offers in non-decreasing price order.
   */
  lemma SortedBidsAndOffers(bids: seq<Order>, offers: seq<Order>)
    ensures multiset(SortBids(bids)) == multiset(bids)
    ensures multiset(SortOffers(offers)) == multiset(offers)
    ensures var sb := SortBids(bids);
      forall i, j :: 0 <= i < j < |sb| ==> sb[i].price >= sb[j].price
    ensures var so := SortOffers(offers);
      forall i, j :: 0 <= i < j < |so| ==> so[i].price <= so[j].price
  {
    StableSortPermutes(bids, BidKey);
    StableSortPermutes(offers, OfferKey);
    StableSortSorted(bids, BidKey);
    StableSortSorted(offers, OfferKey);
    var sb := SortBids(bids);
    forall i, j | 0 <= i < j < |sb| ensures sb[i].price >= sb[j].price {
      assert BidKey(sb[i]) <= BidKey(sb[j]);
    }
  }

  // ---------------------------------------------------------------------
  // Cumulative quantity axis
  // ---------------------------------------------------------------------

  /** Sum of the quantities of `os`. */
  function QuantityTotal(os: seq<Order>): real
  {
    if os == [] then 0.0 else QuantityTotal(os[..|os| - 1]) + os[|os| - 1].quantity
  }

  /** `[x, bid price, None, buyer id, None]` */
  function BidSegment(o: Order, x: real): Segment
  {
    Segment(x, Some(o.price), None, Some(o.id), None)
  }

  /** `[x, None, offer price, None, seller id]` */
  function OfferSegment(o: Order, x: real): Segment
  {
    Segment(x, None, Some(o.price), None, Some(o.id))
  }

  /** The k-th bid segment sits at the total quantity of the first k+1 sorted bids. */
  method BidSegments(sortedBids: seq<Order>) returns (segs: seq<Segment>)
    ensures |segs| == |sortedBids|
    ensures forall k :: 0 <= k < |segs| ==>
      segs[k] == BidSegment(sortedBids[k], QuantityTotal(sortedBids[..k + 1]))
  {
    segs := [];
    var prev := 0.0;
    var i := 0;
    while i < |sortedBids|
      invariant 0 <= i <= |sortedBids| && |segs| == i
      invariant prev == QuantityTotal(sortedBids[..i])
      invariant forall k :: 0 <= k < i ==>
        segs[k] == BidSegment(sortedBids[k], QuantityTotal(sortedBids[..k + 1]))
    {
      var point := sortedBids[i].quantity + prev;
      assert sortedBids[..i + 1][..i] == sortedBids[..i];
      prev := point;
      segs := segs + [BidSegment(sortedBids[i], point)];
      i := i + 1;
    }
  }

  /** The k-th offer segment sits at the total quantity of the first k+1 sorted offers. */
  method OfferSegments(sortedOffers: seq<Order>) returns (segs: seq<Segment>)
    ensures |segs| == |sortedOffers|
    ensures forall k :: 0 <= k < |segs| ==>
      segs[k] == OfferSegment(sortedOffers[k], QuantityTotal(sortedOffers[..k + 1]))
  {
    segs := [];
    var prev := 0.0;
    var j := 0;
    while j < |sortedOffers|
      invariant 0 <= j <= |sortedOffers| && |segs| == j
      invariant prev == QuantityTotal(sortedOffers[..j])
      invariant forall k :: 0 <= k < j ==>
        segs[k] == OfferSegment(sortedOffers[k], QuantityTotal(sortedOffers[..k + 1]))
    {
      var point := sortedOffers[j].quantity + prev;
      assert sortedOffers[..j + 1][..j] == sortedOffers[..j];
      prev := point;
      segs := segs + [OfferSegment(sortedOffers[j], point)];
      j := j + 1;
    }
  }

  /** With non-negative quantities the cumulative axis never goes back. */
  lemma {:induction false} QuantityTotalMonotone(os: seq<Order>, i: nat, j: nat)
    requires i <= j <= |os|
    requires forall k :: 0 <= k < |os| ==> os[k].quantity >= 0.0
    ensures QuantityTotal(os[..i]) <= QuantityTotal(os[..j])
    decreases j - i
  {
    if i < j {
      QuantityTotalMonotone(os, i, j - 1);
      assert os[..j][..j - 1] == os[..j - 1];
    }
  }

  // ---------------------------------------------------------------------
  // Merge by x
  // ---------------------------------------------------------------------

  function SegmentX(s: Segment): real { s.x }

  /** Bid segments carry a bid price; offer segments do not. */
  predicate HasBid(s: Segment) { s.bidPrice.Some? }

  predicate HasOffer(s: Segment) { s.offerPrice.Some? }

  /** `sorted(bid segments + offer segments, key=x)` */
  function MergeCurve(bidSegs: seq<Segment>, offerSegs: seq<Segment>): seq<Segment>
  {
    StableSortBy(bidSegs + offerSegs, SegmentX)
  }

  /** Segments built from orders with non-negative quantities are in order of x. */
  lemma BidSegmentsSorted(bids: seq<Order>, bidSegs: seq<Segment>)
    requires forall k :: 0 <= k < |bids| ==> bids[k].quantity >= 0.0
    requires |bidSegs| == |bids|
    requires forall k :: 0 <= k < |bids| ==> bidSegs[k] == BidSegment(bids[k], QuantityTotal(bids[..k + 1]))
    ensures SortedBy(bidSegs, SegmentX)
  {
    forall i, j | 0 <= i < j < |bidSegs| ensures SegmentX(bidSegs[i]) <= SegmentX(bidSegs[j]) {
      QuantityTotalMonotone(bids, i + 1, j + 1);
    }
  }

  lemma OfferSegmentsSorted(offers: seq<Order>, offerSegs: seq<Segment>)
    requires forall k :: 0 <= k < |offers| ==> offers[k].quantity >= 0.0
    requires |offerSegs| == |offers|
    requires forall k :: 0 <= k < |offers| ==> offerSegs[k] == OfferSegment(offers[k], QuantityTotal(offers[..k + 1]))
    ensures SortedBy(offerSegs, SegmentX)
  {
    forall i, j | 0 <= i < j < |offerSegs| ensures SegmentX(offerSegs[i]) <= SegmentX(offerSegs[j]) {
      QuantityTotalMonotone(offers, i + 1, j + 1);
    }
  }

  /**
   * Built from sorted orders with non-negative quantities, the merged curve is
   * a permutation of both sides in non-decreasing x, and at equal x every bid
   * segment comes before every offer segment (the stable sort keeps the bids,
   * which come first in its input, ahead).
   */
  lemma MergedCurveOrder(bids: seq<Order>, offers: seq<Order>, bidSegs: seq<Segment>, offerSegs: seq<Segment>)
    requires forall k :: 0 <= k < |bids| ==> bids[k].quantity >= 0.0
    requires forall k :: 0 <= k < |offers| ==> offers[k].quantity >= 0.0
    requires |bidSegs| == |bids| && |offerSegs| == |offers|
    requires forall k :: 0 <= k < |bids| ==> bidSegs[k] == BidSegment(bids[k], QuantityTotal(bids[..k + 1]))
    requires forall k :: 0 <= k < |offers| ==> offerSegs[k] == OfferSegment(offers[k], QuantityTotal(offers[..k + 1]))
    ensures multiset(MergeCurve(bidSegs, offerSegs)) == multiset(bidSegs) + multiset(offerSegs)
    ensures SortedBy(MergeCurve(bidSegs, offerSegs), SegmentX)
    ensures SideFirstOnTies(MergeCurve(bidSegs, offerSegs), SegmentX, HasBid)
  {
    assert multiset(MergeCurve(bidSegs, offerSegs)) == multiset(bidSegs) + multiset(offerSegs) by {
      StableSortPermutes(bidSegs + offerSegs, SegmentX);
      assert multiset(bidSegs + offerSegs) == multiset(bidSegs) + multiset(offerSegs);
    }
    assert SortedBy(MergeCurve(bidSegs, offerSegs), SegmentX) by {
      StableSortSorted(bidSegs + offerSegs, SegmentX);
    }
    BidSegmentsSorted(bids, bidSegs);
    OfferSegmentsSorted(offers, offerSegs);
    SortOfRunsIsMerge(bidSegs, offerSegs, SegmentX);
    forall x | x in bidSegs ensures HasBid(x) {
      var k :| 0 <= k < |bidSegs| && bidSegs[k] == x;
    }
    forall x | x in offerSegs ensures !HasBid(x) {
      var k :| 0 <= k < |offerSegs| && offerSegs[k] == x;
    }
    MergeKeepsFirstRunFirst(bidSegs, offerSegs, SegmentX, HasBid);
  }

  // ---------------------------------------------------------------------
  // Forward fill
  // ---------------------------------------------------------------------

  /** The first position at or after `k` whose segment satisfies `has`. */
  function FirstFrom(s: seq<Segment>, k: nat, has: Segment -> bool): (r: Option<nat>)
    ensures r.Some? ==> k <= r.value < |s| && has(s[r.value])
    ensures r.Some? ==> forall m :: k <= m < r.value ==> !has(s[m])
    ensures r.None? ==> forall m :: k <= m < |s| ==> !has(s[m])
    decreases |s| - k
  {
    if k >= |s| then None
    else if has(s[k]) then Some(k)
    else FirstFrom(s, k + 1, has)
  }

  /**
   * Segment `k` after the offer fill: a segment without an offer price takes
   * the offer price and seller id of the nearest later segment that has one
   * in the curve as built, and stays as it is when there is none.
   */
  function OfferFilled(s: seq<Segment>, k: nat): Segment
    requires k < |s|
  {
    if HasOffer(s[k]) then s[k]
    else match FirstFrom(s, k + 1, HasOffer)
      case None => s[k]
      case Some(j) => s[k].(offerPrice := s[j].offerPrice, sellerId := s[j].sellerId)
  }

  /** Segment `k` after the bid fill: the mirror image of `OfferFilled`. */
  function BidFilled(s: seq<Segment>, k: nat): Segment
    requires k < |s|
  {
    if HasBid(s[k]) then s[k]
    else match FirstFrom(s, k + 1, HasBid)
      case None => s[k]
      case Some(j) => s[k].(bidPrice := s[j].bidPrice, buyerId := s[j].buyerId)
  }

  /**
   * The first fill loop of `sorting`. The guard that some segment at or after
   * the current one has an offer price is evaluated on the curve as built
   * (the proxy list), so the inner scan never runs past the end.
   */
  method FillOffers(s: seq<Segment>) returns (t: seq<Segment>)
    ensures |t| == |s|
    ensures forall k :: 0 <= k < |s| ==> t[k] == OfferFilled(s, k)
  {
    t := s;
    var seg := 0;
    while seg < |t|
      invariant 0 <= seg <= |t| == |s|
      invariant forall k :: 0 <= k < seg ==> t[k] == OfferFilled(s, k)
      invariant forall k :: seg <= k < |s| ==> t[k] == s[k]
    {
      if FirstFrom(s, seg, HasOffer).None? {
        break;
      }
      t := ScanOffer(s, t, seg);
      seg := seg + 1;
    }
  }

  /**
   * The inner loop of the offer fill: look ahead from segment `seg` until a
   * segment with an offer price turns up and copy its price and id.
   */
  method ScanOffer(s: seq<Segment>, t: seq<Segment>, seg: nat) returns (t': seq<Segment>)
    requires |t| == |s| && seg < |s|
    requires forall k :: seg <= k < |s| ==> t[k] == s[k]
    requires FirstFrom(s, seg, HasOffer).Some?
    ensures t' == t[seg := OfferFilled(s, seg)]
  {
    ghost var target := FirstFrom(s, seg, HasOffer).value;
    t' := t;
    var j := 1;
    while t'[seg].offerPrice.None?
      invariant |t'| == |s|
      invariant t'[seg].offerPrice.None? ==> t' == t && seg + j <= target
      invariant HasOffer(t'[seg]) ==> t' == t[seg := OfferFilled(s, seg)]
      decreases if t'[seg].offerPrice.None? then 1 else 0, |s| - j
    {
      if t'[seg + j].offerPrice.Some? {
        t' := t'[seg := t'[seg].(offerPrice := t'[seg + j].offerPrice, sellerId := t'[seg + j].sellerId)];
      } else {
        j := j + 1;
      }
    }
  }

  /** The second fill loop of `sorting`: the same scan for bid prices and buyer ids. */
  method FillBids(s: seq<Segment>) returns (t: seq<Segment>)
    ensures |t| == |s|
    ensures forall k :: 0 <= k < |s| ==> t[k] == BidFilled(s, k)
  {
    t := s;
    var seg := 0;
    while seg < |t|
      invariant 0 <= seg <= |t| == |s|
      invariant forall k :: 0 <= k < seg ==> t[k] == BidFilled(s, k)
      invariant forall k :: seg <= k < |s| ==> t[k] == s[k]
    {
      if FirstFrom(s, seg, HasBid).None? {
        break;
      }
      t := ScanBid(s, t, seg);
      seg := seg + 1;
    }
  }

  /**
   * The inner loop of the bid fill: look ahead from segment `seg` until a
   * segment with a bid price turns up and copy its price and id.
   */
  method ScanBid(s: seq<Segment>, t: seq<Segment>, seg: nat) returns (t': seq<Segment>)
    requires |t| == |s| && seg < |s|
    requires forall k :: seg <= k < |s| ==> t[k] == s[k]
    requires FirstFrom(s, seg, HasBid).Some?
    ensures t' == t[seg := BidFilled(s, seg)]
  {
    ghost var target := FirstFrom(s, seg, HasBid).value;
    t' := t;
    var j := 1;
    while t'[seg].bidPrice.None?
      invariant |t'| == |s|
      invariant t'[seg].bidPrice.None? ==> t' == t && seg + j <= target
      invariant HasBid(t'[seg]) ==> t' == t[seg := BidFilled(s, seg)]
      decreases if t'[seg].bidPrice.None? then 1 else 0, |s| - j
    {
      if t'[seg + j].bidPrice.Some? {
        t' := t'[seg := t'[seg].(bidPrice := t'[seg + j].bidPrice, buyerId := t'[seg + j].buyerId)];
      } else {
        j := j + 1;
      }
    }
  }

  /**
   * What the offer fill promises: x and the bid side never change; a segment
   * ends with an offer price exactly when it or a later segment had one; a
   * filled price is that of the nearest later offer segment.
   */
  lemma OfferFillMeaning(s: seq<Segment>, k: nat)
    requires k < |s|
    ensures OfferFilled(s, k).x == s[k].x
    ensures OfferFilled(s, k).bidPrice == s[k].bidPrice && OfferFilled(s, k).buyerId == s[k].buyerId
    ensures HasOffer(OfferFilled(s, k)) <==> exists j :: k <= j < |s| && HasOffer(s[j])
    ensures !HasOffer(s[k]) && HasOffer(OfferFilled(s, k)) ==>
      exists j :: k < j < |s| && HasOffer(s[j])
        && OfferFilled(s, k).offerPrice == s[j].offerPrice && OfferFilled(s, k).sellerId == s[j].sellerId
        && forall m :: k < m < j ==> !HasOffer(s[m])
  {
    if !HasOffer(s[k]) {
      var f := FirstFrom(s, k + 1, HasOffer);
      if f.None? {
        assert forall j :: k <= j < |s| ==> !HasOffer(s[j]);
      }
    }
  }

  /** The mirror image of `OfferFillMeaning` for the bid fill. */
  lemma BidFillMeaning(s: seq<Segment>, k: nat)
    requires k < |s|
    ensures BidFilled(s, k).x == s[k].x
    ensures BidFilled(s, k).offerPrice == s[k].offerPrice && BidFilled(s, k).sellerId == s[k].sellerId
    ensures HasBid(BidFilled(s, k)) <==> exists j :: k <= j < |s| && HasBid(s[j])
    ensures !HasBid(s[k]) && HasBid(BidFilled(s, k)) ==>
      exists j :: k < j < |s| && HasBid(s[j])
        && BidFilled(s, k).bidPrice == s[j].bidPrice && BidFilled(s, k).buyerId == s[j].buyerId
        && forall m :: k < m < j ==> !HasBid(s[m])
  {
    if !HasBid(s[k]) {
      var f := FirstFrom(s, k + 1, HasBid);
      if f.None? {
        assert forall j :: k <= j < |s| ==> !HasBid(s[j]);
      }
    }
  }

  // ---------------------------------------------------------------------
  // The curve `sorting` returns
  // ---------------------------------------------------------------------

  /** The bid segments: each sorted bid at the running total of the bid quantities up to it. */
  function BidAxis(sortedBids: seq<Order>): seq<Segment>
  {
    seq(|sortedBids|, k requires 0 <= k < |sortedBids| => BidSegment(sortedBids[k], QuantityTotal(sortedBids[..k + 1])))
  }

  /** The offer segments, on their own running total starting again from 0. */
  function OfferAxis(sortedOffers: seq<Order>): seq<Segment>
  {
    seq(|sortedOffers|, k requires 0 <= k < |sortedOffers| =>
      OfferSegment(sortedOffers[k], QuantityTotal(sortedOffers[..k + 1])))
  }

  function OfferFilledCurve(s: seq<Segment>): seq<Segment>
  {
    seq(|s|, k requires 0 <= k < |s| => OfferFilled(s, k))
  }

  function BidFilledCurve(s: seq<Segment>): seq<Segment>
  {
    seq(|s|, k requires 0 <= k < |s| => BidFilled(s, k))
  }

  /** The merged curve after the offer fill and then the bid fill. */
  function CurveOf(sortedBids: seq<Order>, sortedOffers: seq<Order>): seq<Segment>
  {
    BidFilledCurve(OfferFilledCurve(MergeCurve(BidAxis(sortedBids), OfferAxis(sortedOffers))))
  }

  /**
   * The curve-building half of `sorting`: prefix sums for each side, the
   * stable merge by x, then the offer fill and the bid fill.
   */
  method BuildCurve(sortedBids: seq<Order>, sortedOffers: seq<Order>) returns (curve: seq<Segment>)
    ensures curve == CurveOf(sortedBids, sortedOffers)
  {
    var bidSegs := BidSegments(sortedBids);
    var offerSegs := OfferSegments(sortedOffers);
    assert bidSegs == BidAxis(sortedBids);
    assert offerSegs == OfferAxis(sortedOffers);
    var merged := MergeCurve(bidSegs, offerSegs);
    var offersFilled := FillOffers(merged);
    assert offersFilled == OfferFilledCurve(merged);
    curve := FillBids(offersFilled);
    assert curve == BidFilledCurve(offersFilled);
  }

  /** Every segment of the merged curve is a bid segment or an offer segment. */
  lemma MergedHasASide(sortedBids: seq<Order>, sortedOffers: seq<Order>, k: nat)
    requires k < |MergeCurve(BidAxis(sortedBids), OfferAxis(sortedOffers))|
    ensures var m := MergeCurve(BidAxis(sortedBids), OfferAxis(sortedOffers)); HasBid(m[k]) || HasOffer(m[k])
  {
    var bs, os := BidAxis(sortedBids), OfferAxis(sortedOffers);
    AxesHaveSides(sortedBids, sortedOffers);
    var both := bs + os;
    forall i | 0 <= i < |both| ensures HasBid(both[i]) || HasOffer(both[i]) {
      if i < |bs| {
        assert both[i] == bs[i];
      } else {
        assert both[i] == os[i - |bs|];
      }
    }
    SortKeepsSides(both, k);
  }

  /** Bid segments carry a bid price and offer segments an offer price. */
  lemma AxesHaveSides(sortedBids: seq<Order>, sortedOffers: seq<Order>)
    ensures forall i :: 0 <= i < |BidAxis(sortedBids)| ==> HasBid(BidAxis(sortedBids)[i])
    ensures forall i :: 0 <= i < |OfferAxis(sortedOffers)| ==> HasOffer(OfferAxis(sortedOffers)[i])
  {
  }

  /** Sorting segments that each have a side gives segments that each have a side. */
  lemma SortKeepsSides(both: seq<Segment>, k: nat)
    requires forall i :: 0 <= i < |both| ==> HasBid(both[i]) || HasOffer(both[i])
    requires k < |StableSortBy(both, SegmentX)|
    ensures HasBid(StableSortBy(both, SegmentX)[k]) || HasOffer(StableSortBy(both, SegmentX)[k])
  {
    var m := StableSortBy(both, SegmentX);
    StableSortPermutes(both, SegmentX);
    assert m[k] in multiset(both);
    var i :| 0 <= i < |both| && both[i] == m[k];
  }

  /** The two fills keep a segment's `x` and leave it at least one side when it had one. */
  lemma FillsKeepASide(m: seq<Segment>, k: nat)
    requires k < |m| && (HasBid(m[k]) || HasOffer(m[k]))
    ensures BidFilledCurve(OfferFilledCurve(m))[k].x == m[k].x
    ensures HasBid(BidFilledCurve(OfferFilledCurve(m))[k]) || HasOffer(BidFilledCurve(OfferFilledCurve(m))[k])
  {
    OfferFillMeaning(m, k);
    BidFillMeaning(OfferFilledCurve(m), k);
  }

  /**
   * The finished curve has one segment per order, in non-decreasing x, and
   * every segment keeps at least the side it was built from.
   */
  lemma CurveShape(sortedBids: seq<Order>, sortedOffers: seq<Order>)
    ensures |CurveOf(sortedBids, sortedOffers)| == |sortedBids| + |sortedOffers|
    ensures SortedBy(CurveOf(sortedBids, sortedOffers), SegmentX)
    ensures forall k :: 0 <= k < |CurveOf(sortedBids, sortedOffers)| ==>
      HasBid(CurveOf(sortedBids, sortedOffers)[k]) || HasOffer(CurveOf(sortedBids, sortedOffers)[k])
  {
    var bs, os := BidAxis(sortedBids), OfferAxis(sortedOffers);
    var m := MergeCurve(bs, os);
    var c := CurveOf(sortedBids, sortedOffers);
    CurveFollowsMerge(sortedBids, sortedOffers);
    StableSortSorted(bs + os, SegmentX);
    SameXSorted(m, c);
  }

  /** A curve with the same x at every position as a sorted curve is sorted. */
  lemma SameXSorted(m: seq<Segment>, c: seq<Segment>)
    requires SortedBy(m, SegmentX) && |c| == |m|
    requires forall k :: 0 <= k < |c| ==> c[k].x == m[k].x
    ensures SortedBy(c, SegmentX)
  {
    forall i, j | 0 <= i < j < |c| ensures SegmentX(c[i]) <= SegmentX(c[j]) {
      assert SegmentX(m[i]) <= SegmentX(m[j]);
    }
  }

  /** The finished curve has the merged curve's x at every position and a side at each. */
  lemma CurveFollowsMerge(sortedBids: seq<Order>, sortedOffers: seq<Order>)
    ensures var m := MergeCurve(BidAxis(sortedBids), OfferAxis(sortedOffers));
      var c := CurveOf(sortedBids, sortedOffers);
      && |c| == |m|
      && forall k :: 0 <= k < |c| ==> c[k].x == m[k].x && (HasBid(c[k]) || HasOffer(c[k]))
  {
    var m := MergeCurve(BidAxis(sortedBids), OfferAxis(sortedOffers));
    forall k | 0 <= k < |m| ensures CurveOf(sortedBids, sortedOffers)[k].x == m[k].x
      && (HasBid(CurveOf(sortedBids, sortedOffers)[k]) || HasOffer(CurveOf(sortedBids, sortedOffers)[k])) {
      MergedHasASide(sortedBids, sortedOffers, k);
      FillsKeepASide(m, k);
    }
  }

  // ---------------------------------------------------------------------
  // Market rules
  // ---------------------------------------------------------------------

  /** Not a self-trade and not at x = 0. */
  predicate Admissible(s: Segment)
  {
    s.buyerId != s.sellerId && s.x != 0.0
  }

  /**
   * `market_rules`: keeps the segments whose buyer and seller differ and
   * whose x is not 0; the assertions that follow the filter always hold.
   */
  function MarketRules(curve: seq<Segment>): (r: seq<Segment>)
    ensures forall i :: 0 <= i < |r| ==> r[i].buyerId != r[i].sellerId && r[i].x != 0.0
    ensures forall i :: 0 <= i < |curve| && Admissible(curve[i]) ==> curve[i] in r
    ensures forall i :: 0 <= i < |r| ==> r[i] in curve
  {
    FilterMembers(curve, Admissible);
    Filter(curve, Admissible)
  }

  /** Every admissible segment stays as often as it occurs; every other one goes. */
  lemma MarketRulesCounts(curve: seq<Segment>)
    ensures forall x :: multiset(MarketRules(curve))[x] == if Admissible(x) then multiset(curve)[x] else 0
  {
    FilterCounts(curve, Admissible);
  }

  /** The filter keeps the original order: it distributes over concatenation. */
  lemma MarketRulesKeepsOrder(a: seq<Segment>, b: seq<Segment>)
    ensures MarketRules(a + b) == MarketRules(a) + MarketRules(b)
  {
    FilterAppend(a, b, Admissible);
  }
}
