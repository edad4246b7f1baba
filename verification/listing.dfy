/** The catalogue selection rules of the site's pages: the home page
    statistics and shortlists, the related products of a product page, and
    the filtered, sorted, paginated category listing. A product sequence is
    the table in its default order (newest first). */
module Listing {
  import opened Wrappers
  import opened Platforms
  import opened Pricing
  import opened Catalogue
  import opened Seqs

  // ---------------------------------------------------------------- home page

  const FeaturedShown: nat := 6
  const LatestShown: nat := 8

  /** Up to six featured products, in table order. */
  function FeaturedProducts(ps: seq<Product>): (r: seq<Product>)
    ensures |r| <= FeaturedShown
    ensures forall p :: p in r ==> p in ps && p.isFeatured
    ensures |r| < FeaturedShown ==> forall p :: p in ps && p.isFeatured ==> p in r
    ensures var f := Filter(ps, (p: Product) => p.isFeatured);
      |r| == if |f| <= FeaturedShown then |f| else FeaturedShown
    ensures var f := Filter(ps, (p: Product) => p.isFeatured); |r| <= |f| && r == f[..|r|]
  {
    Take(Filter(ps, (p: Product) => p.isFeatured), FeaturedShown)
  }

  /** The first eight products. */
  function LatestProducts(ps: seq<Product>): (r: seq<Product>)
    ensures |r| <= LatestShown
    ensures |r| <= |ps| && r == ps[..|r|]
    ensures |ps| <= LatestShown ==> r == ps
    ensures |ps| > LatestShown ==> |r| == LatestShown
  {
    Take(ps, LatestShown)
  }

  /** The database comparison `amazon_price < ebay_price`: a missing price
      on either side makes it false, while a price of 0 takes part like any
      other, and shipping and availability are not consulted. */
  predicate AmazonPriceLower(p: Product)
  {
    p.amazon.price.Some? && p.ebay.price.Some? && p.amazon.price.value < p.ebay.price.value
  }

  /** The number of products whose Amazon price is below their eBay price. */
  function AmazonWins(ps: seq<Product>): (n: nat)
    ensures n <= |ps|
    ensures n == |Filter(ps, AmazonPriceLower)|
    ensures n == 0 <==> forall p :: p in ps ==> !AmazonPriceLower(p)
  {
    var winners := Filter(ps, AmazonPriceLower);
    assert winners != [] ==> winners[0] in winners;
    |winners|
  }

  /** Adding one product raises the count by one exactly when its Amazon
      price is the lower one. */
  lemma AmazonWinsAppend(ps: seq<Product>, p: Product)
    ensures AmazonWins(ps + [p]) == AmazonWins(ps) + (if AmazonPriceLower(p) then 1 else 0)
  {
    FilterAppend(ps, [p], AmazonPriceLower);
  }

  /** With equal shipping and both platforms available and priced, a
      product counted as an Amazon win has Amazon as its best price. */
  lemma AmazonWinIsBestPrice(p: Product)
    requires AmazonPriceLower(p)
    requires IsCandidate(p.amazon) && IsCandidate(p.ebay)
    requires p.amazon.shipping == p.ebay.shipping
    ensures BestPrice(p.amazon, p.ebay).Some?
    ensures BestPrice(p.amazon, p.ebay).value.platform == Amazon
  {
  }

  /** The two rules disagree on a zero Amazon price: it counts as an Amazon
      win on the home page, but the best price never considers it. */
  lemma ZeroAmazonPriceCountsAsWin(p: Product)
    requires p.amazon.price == Some(0)
    requires p.ebay.price.Some? && p.ebay.price.value > 0
    ensures AmazonPriceLower(p)
    ensures BestPrice(p.amazon, p.ebay).None? || BestPrice(p.amazon, p.ebay).value.platform == EBay
  {
  }

  // ------------------------------------------------------------ product page

  const RelatedShown: nat := 4

  /** Up to four other products of the same category, in table order. */
  function RelatedProducts(ps: seq<Product>, product: Product): (r: seq<Product>)
    ensures |r| <= RelatedShown
    ensures forall q :: q in r ==> q in ps && q.category == product.category && q.id != product.id
    ensures |r| < RelatedShown ==>
      forall q :: q in ps && q.category == product.category && q.id != product.id ==> q in r
    ensures var f := Filter(ps, (q: Product) => q.category == product.category && q.id != product.id);
      |r| <= |f| && r == f[..|r|]
    ensures var f := Filter(ps, (q: Product) => q.category == product.category && q.id != product.id);
      |r| == if |f| <= RelatedShown then |f| else RelatedShown
  {
    Take(Filter(ps, (q: Product) => q.category == product.category && q.id != product.id), RelatedShown)
  }

  // ----------------------------------------------------------- category page

  /** The platform query parameter: `amazon` or `ebay` keeps the products
      available there; a missing or any other value keeps everything. */
  predicate PassesPlatform(p: Product, platform: Option<string>)
  {
    if platform == Some("amazon") then p.amazon.available
    else if platform == Some("ebay") then p.ebay.available
    else true
  }

  /** The sort query parameter, `newest` when absent. */
  function SortKey(sort: Option<string>): string
  {
    sort.GetOr("newest")
  }

  /** Whether `a` may precede `b` in base-price order. */
  predicate InOrder(a: Product, b: Product, descending: bool)
  {
    if descending then a.basePrice >= b.basePrice else a.basePrice <= b.basePrice
  }

  predicate SortedBy(s: seq<Product>, descending: bool)
  {
    forall i, j :: 0 <= i < j < |s| ==> InOrder(s[i], s[j], descending)
  }

  /** Every element of a sequence that is sorted after `first` comes after it. */
  lemma ConsSorted(first: Product, rest: seq<Product>, descending: bool)
    requires SortedBy(rest, descending)
    requires forall q :: q in rest ==> InOrder(first, q, descending)
    ensures SortedBy([first] + rest, descending)
  {
  }

  function Insert(p: Product, s: seq<Product>, descending: bool): (r: seq<Product>)
    requires SortedBy(s, descending)
    ensures SortedBy(r, descending)
    ensures multiset(r) == multiset(s) + multiset{p}
  {
    if |s| == 0 then [p]
    else if InOrder(p, s[0], descending) then
      assert forall q :: q in s ==> InOrder(p, q, descending);
      ConsSorted(p, s, descending);
      [p] + s
    else
      var rest := Insert(p, s[1..], descending);
      InsertAfterHead(p, s, rest, descending);
      [s[0]] + rest
  }

  lemma InsertAfterHead(p: Product, s: seq<Product>, rest: seq<Product>, descending: bool)
    requires SortedBy(s, descending) && |s| > 0
    requires !InOrder(p, s[0], descending)
    requires SortedBy(rest, descending)
    requires multiset(rest) == multiset(s[1..]) + multiset{p}
    ensures SortedBy([s[0]] + rest, descending)
    ensures multiset([s[0]] + rest) == multiset(s) + multiset{p}
  {
    assert s == [s[0]] + s[1..];
    forall q | q in rest
      ensures InOrder(s[0], q, descending)
    {
      assert q in multiset(rest);
      if q != p {
        assert q in multiset(s[1..]);
        var j :| 0 <= j < |s[1..]| && s[1..][j] == q;
        assert s[j + 1] == q;
      }
    }
    ConsSorted(s[0], rest, descending);
  }

  /** The products ordered by base price (ascending, or descending); the
      order among equal prices is the database's and is not specified. */
  function SortByPrice(s: seq<Product>, descending: bool): (r: seq<Product>)
    ensures SortedBy(r, descending)
    ensures multiset(r) == multiset(s)
  {
    if |s| == 0 then []
    else
      assert s == [s[0]] + s[1..];
      Insert(s[0], SortByPrice(s[1..], descending), descending)
  }

  /** The rows a category listing shows, before ordering. */
  predicate Listed(p: Product, category: nat, platform: Option<string>, sort: Option<string>)
  {
    p.category == category && PassesPlatform(p, platform)
    && (SortKey(sort) == "popular" ==> p.isFeatured)
  }

  /** A category listing: the category's products, filtered by platform,
      then ordered by base price or restricted to featured products. The
      chained query filters select the conjunction of their conditions. */
  function CategoryListing(ps: seq<Product>, category: nat, platform: Option<string>, sort: Option<string>)
    : (r: seq<Product>)
    ensures forall p :: (multiset(r)[p] ==
      if Listed(p, category, platform, sort) then multiset(ps)[p] else 0)
    ensures SortKey(sort) == "price_low" ==> SortedBy(r, false)
    ensures SortKey(sort) == "price_high" ==> SortedBy(r, true)
    ensures SortKey(sort) != "price_low" && SortKey(sort) != "price_high" ==> Subsequence(r, ps)
  {
    var selected := Filter(ps, (p: Product) => Listed(p, category, platform, sort));
    var key := SortKey(sort);
    if key == "price_low" then SortByPrice(selected, false)
    else if key == "price_high" then SortByPrice(selected, true)
    else selected
  }

  /** A platform value other than `amazon` and `ebay` lists the same
      products as no platform value at all. */
  lemma OtherPlatformFiltersNothing(ps: seq<Product>, category: nat, platform: Option<string>, sort: Option<string>)
    requires platform != Some("amazon") && platform != Some("ebay")
    ensures CategoryListing(ps, category, platform, sort) == CategoryListing(ps, category, None, sort)
  {
    FilterSameVerdict(ps, (p: Product) => Listed(p, category, platform, sort),
                      (p: Product) => Listed(p, category, None, sort));
  }

  // -------------------------------------------------------------- pagination

  const PageSize: nat := 12

  /** The number of pages; an empty listing still has one (empty) page. */
  function PageCount(n: nat): (c: nat)
    ensures c >= 1
    ensures (c - 1) * PageSize < n <= c * PageSize || (n == 0 && c == 1)
  {
    if n == 0 then 1 else (n + PageSize - 1) / PageSize
  }

  /** Page `k` (counting from 1) of a listing: at most twelve consecutive
      products starting at position `(k - 1) * 12`. */
  function Page(ps: seq<Product>, k: nat): (r: seq<Product>)
    requires k >= 1
    ensures |r| <= PageSize
    ensures forall i :: 0 <= i < |r| ==> (k - 1) * PageSize + i < |ps| && r[i] == ps[(k - 1) * PageSize + i]
    ensures k <= PageCount(|ps|) && |ps| > 0 ==> |r| > 0
  {
    var lo := if (k - 1) * PageSize <= |ps| then (k - 1) * PageSize else |ps|;
    var hi := if k * PageSize <= |ps| then k * PageSize else |ps|;
    ps[lo..hi]
  }

  /** Every product of a listing is on exactly the page its position says,
      and that page exists. */
  lemma PageCovers(ps: seq<Product>, i: nat)
    requires i < |ps|
    ensures i / PageSize + 1 <= PageCount(|ps|)
    ensures i % PageSize < |Page(ps, i / PageSize + 1)|
    ensures Page(ps, i / PageSize + 1)[i % PageSize] == ps[i]
  {
  }
}
