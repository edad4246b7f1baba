/** The pricing engine: the best-price winner and the Amazon/eBay price
    difference of one product, computed from its two platform quotes.
    All amounts are integer cents (the fields are two-decimal decimals). */
module Pricing {
  import opened Wrappers
  import opened Platforms

  /** One platform's quote: a nullable price, a shipping cost and an
      availability flag. Ratings, review counts and delivery days are not
      read by any pricing rule and are not part of the quote. */
  datatype Quote = Quote(price: Option<int>, shipping: int, available: bool)

  /** The truth value of the nullable price: both a missing price and a
      price of exactly 0.00 are falsy. */
  predicate HasPrice(q: Quote)
  {
    q.price.Some? && q.price.value != 0
  }

  /** A quote may win the best price only when it is available and priced. */
  predicate IsCandidate(q: Quote)
  {
    q.available && HasPrice(q)
  }

  function Total(q: Quote): int
    requires q.price.Some?
  {
    q.price.value + q.shipping
  }

  function QuoteFor(p: Platform, amazon: Quote, ebay: Quote): Quote
  {
    match p
    case Amazon => amazon
    case EBay => ebay
  }

  /** A best-price entry: platform, price, shipping and their total. */
  datatype Offer = Offer(platform: Platform, price: int, shipping: int, total: int)

  function OfferOf(p: Platform, q: Quote): (o: Offer)
    requires q.price.Some?
    ensures o.platform == p && o.total == o.price + o.shipping
    ensures o.price == q.price.value && o.shipping == q.shipping
  {
    Offer(p, q.price.value, q.shipping, Total(q))
  }

  /** The candidate list in the order it is built: Amazon first, then eBay. */
  function Candidates(amazon: Quote, ebay: Quote): (c: seq<Offer>)
    ensures |c| == (if IsCandidate(amazon) then 1 else 0) + (if IsCandidate(ebay) then 1 else 0)
    ensures forall i :: 0 <= i < |c| ==>
      var q := QuoteFor(c[i].platform, amazon, ebay);
      IsCandidate(q) && c[i] == OfferOf(c[i].platform, q)
    ensures IsCandidate(amazon) ==> |c| > 0 && c[0].platform == Amazon
    ensures IsCandidate(ebay) ==> |c| > 0 && c[|c| - 1].platform == EBay
  {
    (if IsCandidate(amazon) then [OfferOf(Amazon, amazon)] else [])
    + (if IsCandidate(ebay) then [OfferOf(EBay, ebay)] else [])
  }

  /** The position that `min` with a total key returns: a minimum total,
      and the first such position, since later entries replace the running
      minimum only when strictly smaller. */
  function FirstMinIndex(s: seq<Offer>): (k: nat)
    requires |s| > 0
    ensures k < |s|
    ensures forall j :: 0 <= j < |s| ==> s[k].total <= s[j].total
    ensures forall j :: 0 <= j < k ==> s[j].total > s[k].total
  {
    if |s| == 1 then 0
    else
      var k := FirstMinIndex(s[1..]) + 1;
      if s[k].total < s[0].total then k else 0
  }

  /** The cheapest available, priced platform, or None when there is none. */
  function BestPrice(amazon: Quote, ebay: Quote): (r: Option<Offer>)
    ensures r.None? <==> !IsCandidate(amazon) && !IsCandidate(ebay)
    ensures r.Some? ==>
      var q := QuoteFor(r.value.platform, amazon, ebay);
      IsCandidate(q) && r.value == OfferOf(r.value.platform, q)
    ensures r.Some? && IsCandidate(amazon) ==> r.value.total <= Total(amazon)
    ensures r.Some? && IsCandidate(ebay) ==> r.value.total <= Total(ebay)
    ensures IsCandidate(amazon) && IsCandidate(ebay) && Total(amazon) == Total(ebay)
      ==> r == Some(OfferOf(Amazon, amazon))
  {
    var c := Candidates(amazon, ebay);
    if |c| == 0 then None else Some(c[FirstMinIndex(c)])
  }

  /** With a single candidate the winner is that candidate, whatever the
      other quote holds. */
  lemma SingleCandidateWins(p: Platform, amazon: Quote, ebay: Quote)
    requires IsCandidate(QuoteFor(p, amazon, ebay))
    requires !IsCandidate(QuoteFor(p.Other(), amazon, ebay))
    ensures BestPrice(amazon, ebay) == Some(OfferOf(p, QuoteFor(p, amazon, ebay)))
  {
  }

  /** With two candidates the winner is eBay exactly when eBay's total is
      strictly lower. */
  lemma BothCandidatesWinner(amazon: Quote, ebay: Quote)
    requires IsCandidate(amazon) && IsCandidate(ebay)
    ensures BestPrice(amazon, ebay).Some?
    ensures BestPrice(amazon, ebay).value.platform == EBay <==> Total(ebay) < Total(amazon)
  {
  }

  /** The outcome of comparing the two platforms' totals. `DivisionByZero`
      is the case in which the smaller total is 0, where the percentage
      division raises. */
  datatype Comparison =
    | NotComparable
    | Compared(difference: int, percentage: real, cheaper: Platform)
    | DivisionByZero

  function Min(a: int, b: int): int
  {
    if a <= b then a else b
  }

  /** The absolute difference of the two totals, its percentage of the
      smaller total, and which platform is cheaper (a tie names eBay). */
  function PriceDifference(amazon: Quote, ebay: Quote): (r: Comparison)
    ensures r.NotComparable? <==> !(HasPrice(amazon) && HasPrice(ebay))
    ensures r.DivisionByZero? <==>
      HasPrice(amazon) && HasPrice(ebay) && Min(Total(amazon), Total(ebay)) == 0
    ensures r.Compared? ==>
      && r.difference >= 0
      && (r.difference == Total(amazon) - Total(ebay) || r.difference == Total(ebay) - Total(amazon))
    ensures r.Compared? ==>
      r.percentage * Min(Total(amazon), Total(ebay)) as real == (100 * r.difference) as real
    ensures r.Compared? ==> (r.cheaper == Amazon <==> Total(amazon) < Total(ebay))
  {
    if HasPrice(amazon) && HasPrice(ebay) then
      var amazonTotal := Total(amazon);
      var ebayTotal := Total(ebay);
      var diff := if amazonTotal >= ebayTotal then amazonTotal - ebayTotal else ebayTotal - amazonTotal;
      var smaller := Min(amazonTotal, ebayTotal);
      if smaller == 0 then DivisionByZero
      else Compared(diff, diff as real / smaller as real * 100.0,
                    if amazonTotal < ebayTotal then Amazon else EBay)
    else NotComparable
  }

  /** The availability flags never influence the price difference. */
  lemma PriceDifferenceIgnoresAvailability(amazon: Quote, ebay: Quote, amazonShown: bool, ebayShown: bool)
    ensures PriceDifference(amazon.(available := amazonShown), ebay.(available := ebayShown))
         == PriceDifference(amazon, ebay)
  {
  }

  /** Swapping the two quotes keeps the difference and the percentage and,
      unless the totals tie, swaps the cheaper platform. */
  lemma PriceDifferenceSymmetric(amazon: Quote, ebay: Quote)
    requires PriceDifference(amazon, ebay).Compared?
    ensures PriceDifference(ebay, amazon).Compared?
    ensures PriceDifference(ebay, amazon).difference == PriceDifference(amazon, ebay).difference
    ensures PriceDifference(ebay, amazon).percentage == PriceDifference(amazon, ebay).percentage
    ensures Total(amazon) != Total(ebay) ==>
      PriceDifference(ebay, amazon).cheaper == PriceDifference(amazon, ebay).cheaper.Other()
  {
  }

  /** For quotes with non-negative prices and shipping (the shape the
      operator enters) the comparison never divides by zero, and the
      percentage is non-negative. */
  lemma NonNegativeQuotesCompare(amazon: Quote, ebay: Quote)
    requires HasPrice(amazon) && HasPrice(ebay)
    requires amazon.price.value >= 0 && amazon.shipping >= 0
    requires ebay.price.value >= 0 && ebay.shipping >= 0
    ensures PriceDifference(amazon, ebay).Compared?
    ensures PriceDifference(amazon, ebay).percentage >= 0.0
  {
  }

  /** When both platforms are candidates with different totals, the cheaper
      platform of the comparison is the best-price winner. */
  lemma CheaperIsWinner(amazon: Quote, ebay: Quote)
    requires IsCandidate(amazon) && IsCandidate(ebay)
    requires Total(amazon) != Total(ebay)
    requires PriceDifference(amazon, ebay).Compared?
    ensures BestPrice(amazon, ebay).Some?
    ensures PriceDifference(amazon, ebay).cheaper == BestPrice(amazon, ebay).value.platform
  {
  }

  /** On equal totals the two tie-break rules disagree: the best price names
      Amazon while the comparison names eBay as cheaper. */
  lemma TieBreaksDisagree(amazon: Quote, ebay: Quote)
    requires IsCandidate(amazon) && IsCandidate(ebay)
    requires Total(amazon) == Total(ebay) != 0
    ensures BestPrice(amazon, ebay) == Some(OfferOf(Amazon, amazon))
    ensures PriceDifference(amazon, ebay).Compared?
    ensures PriceDifference(amazon, ebay).cheaper == EBay
  {
  }

  /** Amazon 100.00 + 5.00 against eBay 90.00 + 20.00: Amazon wins at
      105.00, 5.00 cheaper, about 4.76 percent, which rounds to 4.8. */
  lemma WorkedExample()
    ensures BestPrice(Quote(Some(10000), 500, true), Quote(Some(9000), 2000, true))
         == Some(Offer(Amazon, 10000, 500, 10500))
    ensures PriceDifference(Quote(Some(10000), 500, true), Quote(Some(9000), 2000, true)).Compared?
    ensures PriceDifference(Quote(Some(10000), 500, true), Quote(Some(9000), 2000, true)).difference == 500
    ensures PriceDifference(Quote(Some(10000), 500, true), Quote(Some(9000), 2000, true)).cheaper == Amazon
    ensures 4.75 <= PriceDifference(Quote(Some(10000), 500, true), Quote(Some(9000), 2000, true)).percentage < 4.85
  {
  }
}
