/**
 * Two small bags worked through the ranking: the policy "coverage first,
 * then price" on concrete data.
 */
module Scenarios {
  import opened Wrappers
  import opened Offers
  import opened ShopTotals
  import opened Ranking

  function InStock(price: int): Offer {
    Offer(Some(price), Some(true), None)
  }

  /** Looking up a one-letter shop key: no separator variant differs from the key itself. */
  lemma LookupSingle(shops: map<string, Offer>, c: char)
    requires c != '-' && c != '_'
    ensures Lookup(shops, [c]) == if [c] in shops then Some(shops[[c]]) else None
  {
    assert ReplaceAll([c], '-', '_') == [c];
    assert ReplaceAll([c], '_', '-') == [c];
  }

  /** What a product offering one-letter shop keys contributes at a one-letter shop. */
  lemma ContributionSingle(p: Product, c: char)
    requires c != '-' && c != '_'
    ensures Contribution(p, [c]) ==
      if [c] in p.shops && p.shops[[c]].price.Some? && IsAvailable(p.shops[[c]]) then p.shops[[c]].price else None
  {
    LookupSingle(p.shops, c);
  }

  /** Two entries, the second strictly before the first, are swapped by the sort. */
  lemma SortSwapsPair(a: ShopTotal, b: ShopTotal)
    requires KeyLess(b, a)
    ensures SortByKey([a, b]) == [b, a]
  {
    assert Init([a, b]) == [a] && Last([a, b]) == b;
    assert Init([a]) == [] && Last([a]) == a;
    assert SortByKey([a]) == Insert([], a) == [a];
    assert Insert([a], b) == [b] + [a];
  }

  /** Both shops have an available item, so both are emitted in shop order. */
  lemma EmittedPair(ps: seq<Product>, s1: string, s2: string)
    requires Tally(ps, s1).availableCount > 0 && Tally(ps, s2).availableCount > 0
    ensures Emitted(ps, [s1, s2]) == [Tally(ps, s1), Tally(ps, s2)]
  {
    assert Init([s1, s2]) == [s1] && Last([s1, s2]) == s2;
    assert Init([s1]) == [] && Last([s1]) == s1;
    assert Emitted(ps, [s1]) == Emitted(ps, []) + [Tally(ps, s1)];
  }

  /**
   * Worked example: one product sold by both shops. Both are emitted
   * complete, the cheaper one sorts first and is the best shop. The shop keys
   * are parameters fixed by the precondition.
   */
  lemma ExampleBothShopsCarryTheProduct(x: string, y: string)
    requires x == "x" && y == "y"
    ensures var p := Product("p1", "P1", map[x := InStock(10000), y := InStock(8000)]);
      var ranked := SortByKey(Emitted([p], [x, y]));
      |ranked| == 2 && ranked[0].shop == y && ranked[0].total == 8000 && ranked[0].missingCount == 0 &&
      ranked[1].shop == x && ranked[1].total == 10000 && ranked[1].missingCount == 0 &&
      ranked[0].availableCount == 1 && ranked[1].availableCount == 1 &&
      BestOf(ranked) == Some(ranked[0])
  {
    var p := Product("p1", "P1", map[x := InStock(10000), y := InStock(8000)]);
    ContributionSingle(p, 'x');
    ContributionSingle(p, 'y');
    assert [] + [p] == [p];
    TallyStep([], p, x);
    TallyStep([], p, y);
    EmittedPair([p], x, y);
    SortSwapsPair(Tally([p], x), Tally([p], y));
  }

  /**
   * Worked example: two products, each sold by only one shop. Both shops
   * miss one item, so the tie on coverage is broken by price and the cheaper
   * shop is best. The shop keys are parameters fixed by the precondition.
   */
  lemma ExampleNoShopCarriesEverything(x: string, y: string)
    requires x == "x" && y == "y"
    ensures var p1 := Product("p1", "P1", map[x := InStock(10000)]);
      var p2 := Product("p2", "P2", map[y := InStock(5000)]);
      var ranked := SortByKey(Emitted([p1, p2], [x, y]));
      |ranked| == 2 && ranked[0].shop == y && ranked[0].total == 5000 && ranked[0].missingCount == 1 &&
      ranked[1].shop == x && ranked[1].total == 10000 && ranked[1].missingCount == 1 &&
      BestOf(ranked) == Some(ranked[0])
  {
    var p1 := Product("p1", "P1", map[x := InStock(10000)]);
    var p2 := Product("p2", "P2", map[y := InStock(5000)]);
    assert y !in p1.shops && x !in p2.shops;
    ContributionSingle(p1, 'x');
    ContributionSingle(p1, 'y');
    ContributionSingle(p2, 'x');
    ContributionSingle(p2, 'y');
    TallyPair(p1, p2, x);
    TallyPair(p1, p2, y);
    EmittedPair([p1, p2], x, y);
    SortSwapsPair(Tally([p1, p2], x), Tally([p1, p2], y));
  }
}
