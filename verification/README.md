# SmartShop pricing, vote ledger and catalogue rules, in Dafny

SmartShop is a small Django site that compares each product's price on
Amazon and on eBay and lets visitors vote for the platform they prefer.
This project models its three pieces of real logic as pure functions over
immutable datatypes, and proves properties about them:

- **Pricing engine** (`pricing.dfy`, module `Pricing`). Each platform gives
  a `Quote`: a nullable price, a shipping cost and an availability flag.
  Amounts are integer cents, because the fields are two-decimal decimals.
  `BestPrice` is the cheapest available, priced platform. `PriceDifference`
  gives the absolute difference of the two totals, its percentage of the
  smaller total, and the cheaper platform.
- **Record defaulting** (`catalogue.dfy`, module `Catalogue`). Saving a
  product or a category fills slug and SEO fields only when they are empty.
  The slug routine is a library function, so it is passed in as a parameter.
- **Vote ledger** (`votes.dfy`, module `Votes`). The vote table is an
  append-only `seq<Vote>`. The table's uniqueness constraint is the
  invariant `OnePerVisitor`: at most one row per (product, address).
  `Submit` is the one transition, a function from a ledger to
  (new ledger, outcome). The read model counts votes per platform and gives
  percentage shares.
- **Catalogue selection** (`listing.dfy`, module `Listing`, with the generic
  `Filter`/`Take` of `seqs.dfy`). A product sequence stands for the table in
  its default order. The module covers the home-page shortlists and the
  `amazon_wins` count, related products, and the category listing's
  platform filter, sort and 12-per-page pagination.

Edge cases the model keeps as the code has them:

- A price of `0` is falsy in Python, so it counts as absent in both pricing
  functions (`HasPrice`).
- When totals tie, `BestPrice` names Amazon. Amazon is appended first, and
  `min` keeps the first minimum (`FirstMinIndex`).
- When totals tie, the comparison's `cheaper` names eBay, because of the
  strict `<`. `TieBreaksDisagree` proves the two rules disagree.
- `PriceDifference` ignores availability, but `BestPrice` honours it.
- The home page's `amazon_wins` is a database comparison on the raw prices.
  A NULL price never counts. A price of 0 does count. Shipping and
  availability are ignored. `ZeroAmazonPriceCountsAsWin` shows the mismatch
  with `BestPrice`.
- The price fields have no minimum validator, so negative amounts are
  representable. When both prices are non-zero and the smaller of the two
  totals is 0 (price 5.00 with shipping -5.00 against a non-negative total),
  the percentage divides by zero, which raises in Python. The model returns this as the `DivisionByZero` outcome.
  `NonNegativeQuotesCompare` proves that it cannot happen when prices and
  shipping are non-negative. Operators are expected to enter non-negative
  amounts, but no validator enforces it (SmartShop/products/models.py:36,
  43, 47, 54), and the model follows the code.

## Model

| member | source | states |
|---|---|---|
| Platforms.Parse | SmartShop/products/views.py:101-104 | a submitted platform is accepted exactly when it is `amazon` or `ebay`, and it is accepted as the platform whose stored code it is; a missing field or any other text is rejected |
| Pricing.Candidates | SmartShop/products/models.py:73-87 | the candidate list holds each available quote with a non-null, non-zero price exactly once and nothing else, each with total = price + shipping, Amazon first and eBay last |
| Pricing.FirstMinIndex | SmartShop/products/models.py:89 | the position `min` picks has a total no larger than any other entry's, and every earlier entry's total is strictly larger (the first minimum) |
| Pricing.BestPrice | SmartShop/products/models.py:71-89 | None exactly when neither platform is available with a non-zero price; the winner is such a platform, reports its own price, shipping and total, its total is at most every candidate's total, and equal totals give Amazon |
| Pricing.SingleCandidateWins | SmartShop/products/models.py:73-89 | with exactly one candidate, that candidate wins whatever the other quote holds |
| Pricing.BothCandidatesWinner | SmartShop/products/models.py:73-89 | with two candidates, eBay wins exactly when its total is strictly lower |
| Pricing.PriceDifference | SmartShop/products/models.py:91-103 | no result exactly when either price is null or zero; the difference is the non-negative absolute difference of the totals; the percentage times the smaller total is 100 times the difference; Amazon is cheaper exactly when its total is strictly lower; a smaller total of 0 is the division-by-zero outcome |
| Pricing.PriceDifferenceIgnoresAvailability | SmartShop/products/models.py:93 | changing either availability flag never changes the price comparison |
| Pricing.PriceDifferenceSymmetric | SmartShop/products/models.py:94-101 | swapping the quotes keeps difference and percentage, and swaps the cheaper platform unless the totals tie |
| Pricing.NonNegativeQuotesCompare | SmartShop/products/models.py:93-97 | with non-negative prices and shipping, two non-zero prices always compare, with a non-negative percentage |
| Pricing.CheaperIsWinner | SmartShop/products/models.py:71-103 | when both platforms are candidates with different totals, the cheaper platform is the best-price winner |
| Pricing.TieBreaksDisagree | SmartShop/products/models.py:71-103 | when both are candidates with equal non-zero totals, the best price names Amazon and the comparison names eBay |
| Pricing.WorkedExample | SmartShop/products/models.py:71-103 | Amazon 100.00+5.00 against eBay 90.00+20.00 gives Amazon at 105.00, 5.00 cheaper, a percentage that rounds to 4.8 |
| Catalogue.SaveCategory | SmartShop/products/models.py:19-22 | an empty slug is derived from the name; a non-empty slug and every other field are kept |
| Catalogue.SaveCategoryIdempotent | SmartShop/products/models.py:19-22 | saving a category twice equals saving it once |
| Catalogue.DefaultMetaTitle | SmartShop/products/models.py:109 | the default meta title is longer than the title and starts with it |
| Catalogue.DefaultMetaDescription | SmartShop/products/models.py:111 | the default meta description contains the title right after its fixed opening words |
| Catalogue.SaveProduct | SmartShop/products/models.py:105-112 | only slug, meta title and meta description can change; each is replaced by its default only when empty; both meta fields are non-empty afterwards |
| Catalogue.SaveProductIdempotent | SmartShop/products/models.py:105-112 | saving a product twice equals saving it once |
| Catalogue.CategoryMetaDescription | SmartShop/products/views.py:93 | a category page shows the stored meta description when non-empty, otherwise a sentence containing the category name |
| Listing.FeaturedProducts | SmartShop/products/views.py:11 | the first six featured products in table order, exactly six when there are more and all of them otherwise, each featured and from the table |
| Listing.LatestProducts | SmartShop/products/views.py:12 | the first eight products of the table: exactly eight when there are more, all of them otherwise |
| Listing.AmazonWins | SmartShop/products/views.py:17-19 | the number of products with both prices present and the Amazon price strictly lower; 0 exactly when no product qualifies; at most the number of products |
| Listing.AmazonWinsAppend | SmartShop/products/views.py:17-19 | adding a product raises the count by one exactly when its Amazon price is the lower one |
| Listing.AmazonWinIsBestPrice | SmartShop/products/views.py:17-19 | with equal shipping and both platforms candidates, a counted Amazon win is also Amazon's best price |
| Listing.ZeroAmazonPriceCountsAsWin | SmartShop/products/views.py:17-19 | a zero Amazon price against a positive eBay price counts as an Amazon win, though the best price is never Amazon |
| Listing.RelatedProducts | SmartShop/products/views.py:34-36 | the first four products in table order that share the product's category and have another id, exactly four when there are more and all of them otherwise |
| Listing.Insert | SmartShop/products/views.py:78-81 | inserting into a base-price-sorted sequence keeps it sorted and adds exactly the new element |
| Listing.SortByPrice | SmartShop/products/views.py:78-81 | the result is sorted by base price (ascending or descending) and is a permutation of the input |
| Listing.CategoryListing | SmartShop/products/views.py:68-83 | every product appears with its table multiplicity exactly when it is in the category, passes the platform filter and, for `popular`, is featured; `price_low`/`price_high` results are sorted ascending/descending; any other sort keeps table order |
| Listing.OtherPlatformFiltersNothing | SmartShop/products/views.py:71-75 | a platform value other than `amazon`/`ebay` lists the same products as no value |
| Listing.PageCount | SmartShop/products/views.py:85-87 | the page count is the number of products divided by 12, rounded up, and 1 for an empty listing |
| Listing.Page | SmartShop/products/views.py:85-87 | page k holds at most 12 consecutive products starting at position (k-1)*12, and an existing page of a non-empty listing is non-empty |
| Listing.PageCovers | SmartShop/products/views.py:85-87 | every product is on the page its position names, and that page exists |
| Votes.Lookup | SmartShop/products/views.py:109-113 | the lookup finds a platform exactly when a row for (product, address) exists, and then a row with that platform exists |
| Votes.LookupFindsTheRow | SmartShop/products/models.py:126-127 | under the uniqueness constraint, the lookup returns the platform of the pair's one row |
| Votes.CountFor | SmartShop/products/views.py:43-46 | a platform's count is at most the ledger size, and is 0 exactly when the product has no vote for it |
| Votes.CountForAppend | SmartShop/products/views.py:43-46 | a platform's count on a product grows by one for each appended row for that product and platform and is unchanged by any other row, so it is the number of matching rows |
| Votes.VotesOnAppend | SmartShop/products/views.py:48 | a product's vote total grows by one for each appended row for that product and is unchanged by any other row |
| Votes.CountsSumToVotes | SmartShop/products/views.py:44-48 | the Amazon and eBay counts add up to the product's number of votes |
| Votes.CountVotes | SmartShop/products/views.py:119-123 | the counts returned after a vote are the per-platform counts, defaulting to 0, summing to the product's votes |
| Votes.SharesOf | SmartShop/products/views.py:49-51 | shares exist exactly when the total is positive; each lies in [0, 100], they sum to 100, and the Amazon share is 100 times the Amazon count over the total |
| Votes.ProductStats | SmartShop/products/views.py:43-51 | the product page shows each platform's own count, summing to the product's votes; shares are present exactly when it has votes, sum to 100, and the Amazon share is 100 times the Amazon count over the total |
| Votes.Submit | SmartShop/products/views.py:103-128 | an invalid platform is rejected with the ledger unchanged; a repeat vote is rejected with the ledger unchanged; a first vote appends exactly one row with the submitted platform and returns the new counts; the uniqueness invariant is preserved |
| Votes.RecordedVoteCounts | SmartShop/products/views.py:109-123 | a recorded vote adds one to the chosen platform's count for that product and changes no other count |
| Votes.FirstVoteSticks | SmartShop/products/views.py:109-116 | a repeat vote, whatever its platform, leaves the ledger and the stored platform unchanged and records nothing |
| Votes.Replay | SmartShop/products/models.py:126-127 | any run of submissions preserves the uniqueness invariant |
| Votes.RepeatsChangeNothing | SmartShop/products/views.py:109-116 | once an address has voted on a product, further submissions for that pair change nothing and record nothing |
| Votes.OneVisitorOneVote | SmartShop/products/views.py:103-116 | a run of submissions from one address for one product records exactly one vote if some submission is valid and none otherwise, and the stored platform is the first valid one |
| Votes.SecondVoteRejected | SmartShop/products/views.py:103-116 | an Amazon vote is recorded, a later eBay vote from the same address is rejected leaving only the Amazon row, and `paypal` is rejected |
| Votes.SharesExample | SmartShop/products/views.py:49-51 | three Amazon votes and one eBay vote give 75 and 25 percent |

## Left out

- HTTP handling, templates, routing, JSON responses and the 404 lookups
  (`get_object_or_404`). These are framework I/O. A vote is submitted for a
  product id that is assumed to exist, and outcomes are the `Outcome`
  datatype.
- The admin configuration (`admin.py`). It is declarative UI. Its
  `get_winner` only formats `BestPrice`'s platform label or "N/A".
- Float conversion and `round(percentage, 1)`. Totals are exact integer
  cents. At these field widths (at most 11 significant digits) float
  conversion keeps the order and the equality of totals, so the `min`
  winner and `cheaper` are unaffected. The source's `difference` and
  `percentage`, however, carry floating-point error (totals 100.10 and
  100.00 give a difference of 0.09999999999999432), which the exact model
  does not reproduce. Percentages are exact `real`s. `WorkedExample` states
  the rounding only as a bound on the exact value.
- The slug routine's rules. It is library code and is a parameter of the
  save functions.
- Page-number parsing and clamping in the paginator's `get_page`. This is
  library code. `Page` is defined for page numbers from 1 up.
- The order among products with equal base prices under `order_by`. This
  is database-defined, so only sortedness and the permutation are stated.
- The table's default newest-first ordering and all timestamps. A product
  sequence is taken to be already in that order.
- Concurrency of get-or-create and the race on the uniqueness constraint.
  Submissions are modelled sequentially, and `Replay` and
  `OneVisitorOneVote` state the one-vote-per-address outcome of any
  order in which the submissions reach the table.
- The generic error path that answers 500, including a missing network
  address, which would fail the column's non-null constraint.
- Field length limits (70 characters for the meta title, 160 for the meta
  description). Saving does not validate them.
- Images, links, ratings, review counts, delivery days, the category page
  title and cascade deletion. No modelled rule reads them.
