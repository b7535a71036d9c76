/**
 * The per-product price data the ranking reads: a product's map from shop
 * key to offer, and the lookup that tolerates the two separator spellings of
 * a shop key (app/api/endpoints/bag.py).
 */
module Offers {
  import opened Wrappers

  /**
   * One shop's listing of one product. Prices are whole thousandths of the
   * currency unit, so the source's rounding to three decimals is exact.
   * `available` and `images` are optional fields: an absent `available`
   * means the product is available.
   */
  datatype Offer = Offer(price: Option<int>, available: Option<bool>, images: Option<seq<string>>)

  /** A resolved catalog product with its offers keyed by shop. */
  datatype Product = Product(sku: string, title: string, shops: map<string, Offer>)

  /** `s` with every occurrence of `from` replaced by `to` (Python's `str.replace` on one character). */
  function ReplaceAll(s: string, from: char, to: char): (r: string)
    ensures |r| == |s|
    ensures forall i :: 0 <= i < |s| ==> r[i] == (if s[i] == from then to else s[i])
    ensures from != to ==> from !in r
  {
    if s == [] then [] else [if s[0] == from then to else s[0]] + ReplaceAll(s[1..], from, to)
  }

  /** The spellings under which a shop's offer is looked up, in the order they are tried. */
  function Variants(shop: string): (vs: seq<string>)
    ensures |vs| == 3 && vs[0] == shop
    ensures |vs[1]| == |shop| && |vs[2]| == |shop|
    ensures forall i :: 0 <= i < |shop| ==>
      vs[1][i] == (if shop[i] == '-' then '_' else shop[i]) && vs[2][i] == (if shop[i] == '_' then '-' else shop[i])
    ensures '-' !in vs[1] && '_' !in vs[2]
  {
    [shop, ReplaceAll(shop, '-', '_'), ReplaceAll(shop, '_', '-')]
  }

  /**
   * The offer a product has at `shop`: the first spelling of the key that is
   * present wins, and there is none when no spelling is present.
   */
  function Lookup(shops: map<string, Offer>, shop: string): (r: Option<Offer>)
    ensures shop in shops ==> r == Some(shops[shop])
    ensures r.None? <==> forall i :: 0 <= i < 3 ==> Variants(shop)[i] !in shops
    ensures r.Some? ==>
      exists i :: 0 <= i < 3 && Variants(shop)[i] in shops && r.value == shops[Variants(shop)[i]] &&
        forall k :: 0 <= k < i ==> Variants(shop)[k] !in shops
  {
    var vs := Variants(shop);
    if vs[0] in shops then Some(shops[vs[0]])
    else if vs[1] in shops then Some(shops[vs[1]])
    else if vs[2] in shops then Some(shops[vs[2]])
    else None
  }

  /** Whether an offer is in stock; an offer that does not say is. */
  predicate IsAvailable(o: Offer)
    ensures IsAvailable(o) <==> o.available != Some(false)
  {
    o.available.GetOr(true)
  }

  /** The first image of an offer, none when the list is absent or empty. */
  function FirstImage(images: Option<seq<string>>): (r: Option<string>)
    ensures r.None? <==> images.None? || images.value == []
    ensures r.Some? ==> r.value == images.value[0]
  {
    match images
    case Some(imgs) => if imgs != [] then Some(imgs[0]) else None
    case None => None
  }

  /**
   * Worked example: the configured key `pharma-shop` finds an offer the
   * product stores under `pharma_shop`. The keys are parameters fixed by the
   * precondition.
   */
  lemma ExamplePharmaShopKey(o: Offer, key: string, stored: string)
    requires key == "pharma-shop" && stored == "pharma_shop"
    ensures Lookup(map[stored := o], key) == Some(o)
  {
    var r := ReplaceAll(key, '-', '_');
    forall i | 0 <= i < |key| ensures r[i] == stored[i] {
    }
    assert r == stored;
    assert key[6] != stored[6];
    LookupToleratesUnderscoreSpelling(map[stored := o], key);
  }

  /**
   * A shop key that is absent finds an offer stored under its underscore
   * spelling.
   */
  lemma LookupToleratesUnderscoreSpelling(shops: map<string, Offer>, shop: string)
    requires shop !in shops
    requires ReplaceAll(shop, '-', '_') in shops
    ensures Lookup(shops, shop) == Some(shops[ReplaceAll(shop, '-', '_')])
  {
  }
}
