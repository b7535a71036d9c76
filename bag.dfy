/**
 * Assembly of the bag evaluation: the ranking is run once per category that
 * has products, each with its own candidate shops and label
 * (app/api/endpoints/bag.py, lines 9-11, 39-50 and 192-220).
 */
module Bag {
  import opened Wrappers
  import opened Offers
  import opened ShopTotals
  import opened Ranking

  /** Candidate shops of the parapharmacy catalog, in ranking-tie order. */
  const ParaShops: seq<string> := ["parashop", "pharma-shop", "parafendri"]
  /** Candidate shops of the electronics catalog, in ranking-tie order. */
  const RetailShops: seq<string> := ["mytek", "tunisianet", "spacenet"]

  /** The `{sku, title}` pair echoed for each product of a category. */
  datatype ProductRef = ProductRef(sku: string, title: string)

  /** The result of one category (the source's `CategoryResult`). */
  datatype CategoryResult = CategoryResult(
    category: string,
    categoryLabel: string,
    bestShop: Option<string>,
    bestTotal: Option<int>,
    shopTotals: seq<ShopTotal>,
    products: seq<ProductRef>)

  /** The response pairing both categories (the source's `BestShopResponse`). */
  datatype BestShopResponse = BestShopResponse(paraResult: Option<CategoryResult>, retailResult: Option<CategoryResult>)

  /**
   * The result of one category: absent when the category has no product;
   * otherwise the ranking of `shops` over `products`, the best shop at its
   * head, and the products' `(sku, title)` pairs in input order.
   */
  method EvaluateCategory(products: seq<Product>, shops: seq<string>, category: string, categoryLabel: string)
    returns (r: Option<CategoryResult>)
    ensures r.Some? <==> products != []
    ensures r.Some? ==> r.value.category == category && r.value.categoryLabel == categoryLabel
    ensures r.Some? ==> r.value.shopTotals == SortByKey(Emitted(products, shops))
    ensures r.Some? && r.value.shopTotals == [] ==> r.value.bestShop.None? && r.value.bestTotal.None?
    ensures r.Some? && r.value.shopTotals != [] ==>
      r.value.bestShop == Some(r.value.shopTotals[0].shop) && r.value.bestTotal == Some(r.value.shopTotals[0].total)
    ensures r.Some? ==> |r.value.products| == |products|
    ensures r.Some? ==>
      forall i :: 0 <= i < |products| ==> r.value.products[i] == ProductRef(products[i].sku, products[i].title)
  {
    if products == [] {
      return None;
    }
    var shopTotals, bestShop, bestTotal := CalculateShopTotals(products, shops);
    var refs := seq(|products|, i requires 0 <= i < |products| => ProductRef(products[i].sku, products[i].title));
    r := Some(CategoryResult(category, categoryLabel, bestShop, bestTotal, shopTotals, refs));
  }

  /**
   * The evaluation of a bag whose products have already been resolved per
   * catalog: each category is ranked against its own shops, and a category
   * without products has no result.
   */
  method EvaluateBag(paraProducts: seq<Product>, retailProducts: seq<Product>) returns (resp: BestShopResponse)
    ensures resp.paraResult.Some? <==> paraProducts != []
    ensures resp.retailResult.Some? <==> retailProducts != []
    ensures resp.paraResult.Some? ==>
      resp.paraResult.value.category == "para" && resp.paraResult.value.categoryLabel == "Parapharmacie" &&
      resp.paraResult.value.shopTotals == SortByKey(Emitted(paraProducts, ParaShops))
    ensures resp.retailResult.Some? ==>
      resp.retailResult.value.category == "retail" && resp.retailResult.value.categoryLabel == "Électronique" &&
      resp.retailResult.value.shopTotals == SortByKey(Emitted(retailProducts, RetailShops))
  {
    var paraResult := EvaluateCategory(paraProducts, ParaShops, "para", "Parapharmacie");
    var retailResult := EvaluateCategory(retailProducts, RetailShops, "retail", "Électronique");
    resp := BestShopResponse(paraResult, retailResult);
  }
}
