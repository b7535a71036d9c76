# Shop ranking for a shopping bag

This project models the ranking step of the bag endpoint in
`app/api/endpoints/bag.py`. For one catalog category, the endpoint takes the
resolved products of the bag and a fixed, ordered list of candidate shops.
For each shop it computes the total price of the items the shop has priced and
in stock, how many items are available and how many are missing, and a
per-product presentation list. Shops with no available item are dropped. The
rest are stable-sorted by (missing count, total). The best shop is the first
one carrying every item, or failing that the head of the list. The endpoint
runs this once for the parapharmacy catalog and once for the electronics
catalog, and returns a result only for a category that has products.

Modules, one per component:

- `Wrappers` (`wrappers.dfy`): the `Option` type standing for Python's `None`.
- `Offers` (`offers.dfy`): `Offer` and `Product` records. It also holds the
  shop-key lookup that tries the exact key, then the key with `-` replaced by
  `_`, then the key with `_` replaced by `-`.
- `ShopTotals` (`shop_totals.dfy`): the `ProductInShop` and `ShopTotal`
  records, and the per-shop accounting as specification functions (`Tally`).
  The loop that computes it is the method `TallyShop`.
- `Ranking` (`ranking.dfy`): the exclusion rule (`Emitted`), the stable sort
  (`SortByKey`, with the insertion method `SortShopTotals`), the best-shop
  search (`BestOf`, with the loop method `PickBest`), and the whole routine
  `CalculateShopTotals`.
- `Bag` (`bag.dfy`): the per-category result and the two-category response.
- `Scenarios` (`scenarios.dfy`): two worked example bags showing the
  coverage-before-price policy.

Representation choices:

- Prices and totals are integers counting thousandths of the currency unit.
  Rounding a total to three decimals (`round(total, 3)`) is then the identity.
- A product's `shops` mapping is a `map<string, Offer>`. An entry that is
  absent, `None` or an empty dictionary is modelled as an absent key, because
  all three fall through to the next spelling.
- `Offer.available` is optional and defaults to true when absent.
- `Offer.images` is optional. An absent or empty list gives no image.
- The `shop_totals` list that the source appends to and sorts in place is a
  local `seq` that the methods reassign.

Line 76 checks the price only for `None`, so a negative price is used like
any other price and is added to the total when the offer is available.

## Model

| member | source | states |
|---|---|---|
| Offers.ReplaceAll | app/api/endpoints/bag.py:74 | the replaced key has the same length, each separator `from` becomes `to`, other characters are kept, and no `from` is left |
| Offers.Variants | app/api/endpoints/bag.py:74 | the three spellings tried, in order: the exact key, then the key with every `-` replaced by `_`, then the key with every `_` replaced by `-` (character by character, same length) |
| Offers.Lookup | app/api/endpoints/bag.py:72-74 | an exact key always wins; no offer is found iff no spelling is present; otherwise the offer is the one under the first present spelling |
| Offers.ExamplePharmaShopKey | app/api/endpoints/bag.py:74 | worked example: the configured key `pharma-shop` finds an offer stored under `pharma_shop` |
| Offers.LookupToleratesUnderscoreSpelling | app/api/endpoints/bag.py:74 | a key that is absent finds the offer stored under its underscore spelling |
| Offers.IsAvailable | app/api/endpoints/bag.py:78 | an offer is in stock unless its `available` field says false; an absent field means in stock |
| Offers.FirstImage | app/api/endpoints/bag.py:81-82 | no image iff the image list is absent or empty, otherwise its first element |
| ShopTotals.PricedOffer | app/api/endpoints/bag.py:76 | an offer is used only when the lookup found it and it carries a price |
| ShopTotals.Contribution | app/api/endpoints/bag.py:76-96 | what a product adds to a shop's total: present iff a priced offer was found and it is in stock, and then it is that offer's price |
| ShopTotals.Presentation | app/api/endpoints/bag.py:76-106 | the entry echoes sku and title; it has a price iff a priced offer was found, and then shows that offer's price and first image whether or not it is in stock; it is available iff the product contributes to the total; without a price it has no image and is unavailable |
| ShopTotals.Total | app/api/endpoints/bag.py:66-93 | the sum of the products' contributions at the shop (the accumulator `total`); zero when nothing is available |
| ShopTotals.AvailableCount | app/api/endpoints/bag.py:68-94 | the number of products that contribute at the shop (the accumulator `available_count`); at most the number of products |
| ShopTotals.MissingCount | app/api/endpoints/bag.py:69-99 | the number of products that do not contribute at the shop (the accumulator `missing_count`); at most the number of products |
| ShopTotals.Presentations | app/api/endpoints/bag.py:67-106 | the presentation entries of the products in product order (the list `products_in_shop`); one per product |
| ShopTotals.Tally | app/api/endpoints/bag.py:66-106 | the shop's totals before the exclusion rule: its key, total, entries and counts, with available + missing = number of products |
| ShopTotals.TallyStep | app/api/endpoints/bag.py:71-106 | one more product extends the entries by its presentation and grows the total and the counts by exactly its contribution |
| ShopTotals.TallyPair | app/api/endpoints/bag.py:71-106 | the totals and counts over a two-product bag are the sums of the two products' shares |
| ShopTotals.TallyCounts | app/api/endpoints/bag.py:71-106 | available count + missing count = number of products; the presentation list has one entry per product, in product order |
| ShopTotals.TallyMatchesPresentation | app/api/endpoints/bag.py:84-96 | the total is the sum of the prices shown as available, and the available count is the number of entries shown as available |
| ShopTotals.NothingAvailable | app/api/endpoints/bag.py:97-106 | a shop where no product contributes has available count 0, total 0, and every product missing |
| ShopTotals.PricedButUnavailable | app/api/endpoints/bag.py:76-96 | a priced, out-of-stock product at any position in the bag adds an entry with its price and first image marked unavailable, adds 1 to the missing count, and leaves the total and the available count unchanged |
| ShopTotals.TallyShop | app/api/endpoints/bag.py:66-106 | the per-shop loop yields exactly the specified total, counts and presentation list |
| Ranking.Emitted | app/api/endpoints/bag.py:65-115 | the shops' tallies in shop-list order, keeping only shops with an available item; at most one entry per candidate shop, each with available count > 0 |
| Ranking.EmitShopTotals | app/api/endpoints/bag.py:63-115 | the loop over the candidate shops yields exactly the emitted tallies |
| Ranking.EmittedSound | app/api/endpoints/bag.py:65-115 | every emitted entry is the tally of a candidate shop, has an available item, counts every product once and lists every product |
| Ranking.EmittedComplete | app/api/endpoints/bag.py:108-115 | every candidate shop with an available item is emitted |
| Ranking.NoProductsNoShops | app/api/endpoints/bag.py:65-115 | with no products, no shop is emitted |
| Ranking.KeyLess | app/api/endpoints/bag.py:118 | the strict order of the sort key `(missing_count, total)`, compared lexicographically; a strictly smaller key never has more missing items |
| Ranking.Sorted | app/api/endpoints/bag.py:118 | no entry has a strictly smaller key than an earlier one; missing counts are then non-decreasing |
| Ranking.Insert | app/api/endpoints/bag.py:118 | inserts an entry after every entry whose key is not greater, one entry longer |
| Ranking.SortByKey | app/api/endpoints/bag.py:118 | the stable sort by the key, inserting each entry in input order; same length as its input |
| Ranking.InsertPermutes | app/api/endpoints/bag.py:118 | inserting adds exactly the inserted entry and loses none |
| Ranking.InsertSorted | app/api/endpoints/bag.py:118 | inserting into a sorted list keeps it sorted |
| Ranking.SortByKeySorted | app/api/endpoints/bag.py:118 | the sort orders by (missing count, total) ascending |
| Ranking.SortByKeyPermutes | app/api/endpoints/bag.py:118 | the sort is a permutation of its input |
| Ranking.SortByKeyStable | app/api/endpoints/bag.py:118 | for every key, the entries with that key keep their relative order |
| Ranking.CoverageFirst | app/api/endpoints/bag.py:117-118 | in a sorted list, a shop missing fewer items always comes before one missing more, whatever their totals |
| Ranking.RankedWellFormed | app/api/endpoints/bag.py:71-118 | every entry of the ranking has an available item, available + missing = number of products, and one presentation line per product |
| Ranking.SortShopTotals | app/api/endpoints/bag.py:118 | the insertion loop computes the stable sort |
| Ranking.FirstComplete | app/api/endpoints/bag.py:124-128 | the index found is that of a shop with no missing item and one available, and no earlier entry is such a shop; when none is found, no entry is |
| Ranking.Complete | app/api/endpoints/bag.py:125 | a shop with no missing item and at least one available |
| Ranking.BestOf | app/api/endpoints/bag.py:124-133 | the first complete entry, otherwise the head; present iff the list is non-empty, always an entry of the list, and complete when a complete entry exists |
| Ranking.BestIsHead | app/api/endpoints/bag.py:120-133 | on a sorted list of emitted entries, the best entry is the head, and there is none for an empty list |
| Ranking.PickBest | app/api/endpoints/bag.py:120-133 | the search loop with `break` and the fallback return the best entry's shop and total, or none for an empty list |
| Ranking.CalculateShopTotals | app/api/endpoints/bag.py:61-135 | the result is the stable sort of the emitted shops: sorted, a permutation, with equal keys in shop-list order, and fewer missing items always first; every entry has an available item, consistent counts and one line per product; best shop and total are those of the head, or none; no products gives no shops and no best shop |
| Bag.EvaluateCategory | app/api/endpoints/bag.py:195-215 | a category result exists iff the category has products; it carries the category, its label, the ranking, the best shop at its head, and the `(sku, title)` pairs in input order |
| Bag.EvaluateBag | app/api/endpoints/bag.py:192-220 | each category has a result iff it has products, with its own label and its own candidate shops |
| Scenarios.ExampleBothShopsCarryTheProduct | app/api/endpoints/bag.py:61-135 | worked example: one product at two shops: both emitted with one available and no missing item, the cheaper first and best |
| Scenarios.ExampleNoShopCarriesEverything | app/api/endpoints/bag.py:61-135 | worked example: two products at one shop each: both shops miss one item, the cheaper first and best |

## Left out

- The HTTP handler `calculate_best_shop` (lines 138-190) is not modelled. It
  rejects an empty item list with status 400, parses object ids, logs and skips
  invalid ones, and queries the two databases. `Bag.EvaluateBag` takes the
  products each query returns as parameters.
- The order of a category's products is the order in which its database
  query returns them. `Bag.EvaluateBag` takes that order as given.
- Pydantic validation and coercion of the records are not modelled. An
  `available` field set explicitly to `null` or to a non-boolean value is not
  modelled either.
- Floating-point arithmetic is not modelled. Prices are exact thousandths, so
  sums do not round, and `round(total, 3)` is the identity.
- `float(price)` raising on a non-numeric price is not modelled. Prices are
  always numbers.
- A product whose stored `shops` field is `null` is not modelled. The handler
  copies it with `doc.get("shops", {})` (lines 174 and 187), which keeps the
  `None`; line 72 then yields `None` and the `.get` of line 74 raises, which
  aborts the whole request. In the model `Product.shops` is always a map.
- Python truthiness in the lookup chain is not modelled. A shop entry is
  either present or absent.
- Bag.EvaluateBag: states presence, category, label and ranking for each
  category; best shop and product pairs are stated per category by
  `Bag.EvaluateCategory`, which it calls.
