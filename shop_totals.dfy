/**
 * What one candidate shop offers for the whole product list: its total over
 * the priced, available offers, its available and missing counts, and the
 * per-product presentation list (app/api/endpoints/bag.py, lines 23-36 and 66-106).
 */
module ShopTotals {
  import opened Wrappers
  import opened Offers

  /** One product as presented for one shop (the source's `ProductInShop`). */
  datatype ProductInShop = ProductInShop(sku: string, title: string, image: Option<string>, price: Option<int>, available: bool)

  /** One shop's totals (the source's `ShopTotal`); `total` is in thousandths. */
  datatype ShopTotal = ShopTotal(shop: string, total: int, products: seq<ProductInShop>, availableCount: nat, missingCount: nat)

  /** The product's offer at `shop` when one is found and carries a price. */
  function PricedOffer(p: Product, shop: string): (r: Option<Offer>)
    ensures r.Some? ==> r.value.price.Some? && Lookup(p.shops, shop) == r
    ensures r.None? ==> Lookup(p.shops, shop).None? || Lookup(p.shops, shop).value.price.None?
  {
    match Lookup(p.shops, shop)
    case Some(o) => if o.price.Some? then Some(o) else None
    case None => None
  }

  /**
   * The price a product adds to the shop's total: present exactly when its
   * offer is priced and available. A product without it counts as missing.
   */
  function Contribution(p: Product, shop: string): (r: Option<int>)
    ensures r.Some? <==> PricedOffer(p, shop).Some? && IsAvailable(PricedOffer(p, shop).value)
    ensures r.Some? ==> r == PricedOffer(p, shop).value.price
  {
    match PricedOffer(p, shop)
    case Some(o) => if IsAvailable(o) then o.price else None
    case None => None
  }

  /**
   * The presentation entry of a product at a shop. A priced offer is shown
   * with its price, availability and first image even when it is out of
   * stock; otherwise the entry has no price, no image and is unavailable.
   */
  function Presentation(p: Product, shop: string): (e: ProductInShop)
    ensures e.sku == p.sku && e.title == p.title
    ensures e.available <==> Contribution(p, shop).Some?
    ensures e.available ==> e.price == Contribution(p, shop)
    ensures e.price.Some? <==> PricedOffer(p, shop).Some?
    ensures PricedOffer(p, shop).Some? ==>
      e.price == PricedOffer(p, shop).value.price && e.image == FirstImage(PricedOffer(p, shop).value.images)
    ensures e.price.None? ==> e.image.None? && !e.available
  {
    match PricedOffer(p, shop)
    case Some(o) => ProductInShop(p.sku, p.title, FirstImage(o.images), o.price, IsAvailable(o))
    case None => ProductInShop(p.sku, p.title, None, None, false)
  }

  /** The sum of the contributions of `ps` at `shop`. */
  function Total(ps: seq<Product>, shop: string): (r: int)
    ensures AvailableCount(ps, shop) == 0 ==> r == 0
  {
    if ps == [] then 0 else Total(Init(ps), shop) + Contribution(Last(ps), shop).GetOr(0)
  }

  /** How many of `ps` contribute at `shop`. */
  function AvailableCount(ps: seq<Product>, shop: string): (r: nat)
    ensures r <= |ps|
  {
    if ps == [] then 0 else AvailableCount(Init(ps), shop) + (if Contribution(Last(ps), shop).Some? then 1 else 0)
  }

  /** How many of `ps` do not contribute at `shop`. */
  function MissingCount(ps: seq<Product>, shop: string): (r: nat)
    ensures r <= |ps|
  {
    if ps == [] then 0 else MissingCount(Init(ps), shop) + (if Contribution(Last(ps), shop).None? then 1 else 0)
  }

  /** The presentation entries of `ps` at `shop`, in product order. */
  function Presentations(ps: seq<Product>, shop: string): (r: seq<ProductInShop>)
    ensures |r| == |ps|
  {
    if ps == [] then [] else Presentations(Init(ps), shop) + [Presentation(Last(ps), shop)]
  }

  /** The totals of `shop` over the product list, before the exclusion rule. */
  function Tally(ps: seq<Product>, shop: string): (r: ShopTotal)
    ensures r.shop == shop
    ensures r.availableCount + r.missingCount == |ps| && |r.products| == |ps|
  {
    TallyCounts(ps, shop);
    ShopTotal(shop, Total(ps, shop), Presentations(ps, shop), AvailableCount(ps, shop), MissingCount(ps, shop))
  }

  /**
   * Count bookkeeping: every product is either available or missing, and the
   * presentation list holds one entry per product, in product order.
   */
  lemma {:induction false} TallyCounts(ps: seq<Product>, shop: string)
    ensures AvailableCount(ps, shop) + MissingCount(ps, shop) == |ps|
    ensures |Presentations(ps, shop)| == |ps|
    ensures forall i :: 0 <= i < |ps| ==> Presentations(ps, shop)[i] == Presentation(ps[i], shop)
  {
    if ps != [] {
      TallyCounts(Init(ps), shop);
    }
  }

  /** The sum of the prices of the entries marked available (an independent reading of a total). */
  function SumAvailable(es: seq<ProductInShop>): int {
    if es == [] then 0
    else SumAvailable(Init(es)) + (if Last(es).available && Last(es).price.Some? then Last(es).price.value else 0)
  }

  /** The number of entries marked available. */
  function CountAvailable(es: seq<ProductInShop>): nat {
    if es == [] then 0 else CountAvailable(Init(es)) + (if Last(es).available then 1 else 0)
  }

  /**
   * A shop's total and available count agree with its presentation list: the
   * total is the sum of the prices shown as available, and the available
   * count is the number of entries shown as available.
   */
  lemma {:induction false} TallyMatchesPresentation(ps: seq<Product>, shop: string)
    ensures Total(ps, shop) == SumAvailable(Presentations(ps, shop))
    ensures AvailableCount(ps, shop) == CountAvailable(Presentations(ps, shop))
  {
    if ps != [] {
      TallyMatchesPresentation(Init(ps), shop);
      var es := Presentations(ps, shop);
      assert Init(es) == Presentations(Init(ps), shop);
    }
  }

  /** A shop at which no product contributes has no available item and a zero total. */
  lemma {:induction false} NothingAvailable(ps: seq<Product>, shop: string)
    requires forall i :: 0 <= i < |ps| ==> Contribution(ps[i], shop).None?
    ensures AvailableCount(ps, shop) == 0 && Total(ps, shop) == 0
    ensures MissingCount(ps, shop) == |ps|
  {
    if ps != [] {
      assert Contribution(Last(ps), shop).None?;
      NothingAvailable(Init(ps), shop);
    }
  }

  /**
   * A priced offer that is out of stock, at any position in the bag, keeps
   * its price and first image in its entry, adds one to the missing count and
   * leaves the total and the available count unchanged.
   */
  lemma PricedButUnavailable(ps: seq<Product>, p: Product, shop: string)
    requires PricedOffer(p, shop).Some? && !IsAvailable(PricedOffer(p, shop).value)
    ensures var o, before := PricedOffer(p, shop).value, Tally(ps, shop);
      Tally(ps + [p], shop) == before.(
        missingCount := before.missingCount + 1,
        products := before.products + [ProductInShop(p.sku, p.title, FirstImage(o.images), o.price, false)])
  {
    assert Init(ps + [p]) == ps && Last(ps + [p]) == p;
  }

  /** The accumulators after one more product: each grows by that product's share. */
  lemma TallyStep(ps: seq<Product>, p: Product, shop: string)
    ensures Tally(ps + [p], shop).total == Tally(ps, shop).total + Contribution(p, shop).GetOr(0)
    ensures Tally(ps + [p], shop).availableCount ==
      Tally(ps, shop).availableCount + (if Contribution(p, shop).Some? then 1 else 0)
    ensures Tally(ps + [p], shop).missingCount ==
      Tally(ps, shop).missingCount + (if Contribution(p, shop).None? then 1 else 0)
    ensures Tally(ps + [p], shop).products == Tally(ps, shop).products + [Presentation(p, shop)]
  {
    assert Init(ps + [p]) == ps && Last(ps + [p]) == p;
  }

  /** The accumulators over a bag of two products. */
  lemma TallyPair(p1: Product, p2: Product, shop: string)
    ensures Tally([p1, p2], shop).total == Contribution(p1, shop).GetOr(0) + Contribution(p2, shop).GetOr(0)
    ensures Tally([p1, p2], shop).availableCount ==
      (if Contribution(p1, shop).Some? then 1 else 0) + (if Contribution(p2, shop).Some? then 1 else 0)
    ensures Tally([p1, p2], shop).missingCount ==
      (if Contribution(p1, shop).None? then 1 else 0) + (if Contribution(p2, shop).None? then 1 else 0)
  {
    assert [] + [p1] == [p1] && [p1] + [p2] == [p1, p2];
    TallyStep([], p1, shop);
    TallyStep([p1], p2, shop);
  }

  /**
   * The per-shop loop: walks the products in order, accumulating the total
   * and the counts and appending a presentation entry per product.
   */
  method TallyShop(products: seq<Product>, shop: string) returns (st: ShopTotal)
    ensures st == Tally(products, shop)
  {
    var total := 0;
    var productsInShop: seq<ProductInShop> := [];
    var availableCount: nat := 0;
    var missingCount: nat := 0;
    for j := 0 to |products|
      invariant Tally(products[..j], shop) == ShopTotal(shop, total, productsInShop, availableCount, missingCount)
    {
      var product := products[j];
      assert products[..j + 1] == products[..j] + [product];
      TallyStep(products[..j], product, shop);
      var shopData := Lookup(product.shops, shop);
      if shopData.Some? && shopData.value.price.Some? {
        var price := shopData.value.price.value;
        var available := shopData.value.available.GetOr(true);
        var image := FirstImage(shopData.value.images);
        productsInShop := productsInShop + [ProductInShop(product.sku, product.title, image, Some(price), available)];
        if available {
          total := total + price;
          availableCount := availableCount + 1;
        } else {
          missingCount := missingCount + 1;
        }
      } else {
        missingCount := missingCount + 1;
        productsInShop := productsInShop + [ProductInShop(product.sku, product.title, None, None, false)];
      }
    }
    assert products[..|products|] == products;
    st := ShopTotal(shop, total, productsInShop, availableCount, missingCount);
  }
}
