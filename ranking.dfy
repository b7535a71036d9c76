/**
 * Ranking of the candidate shops of one category: keep the shops with at
 * least one available item, stable-sort them by (missing count, total) and
 * pick the best one (`calculate_shop_totals_for_products`,
 * app/api/endpoints/bag.py, lines 61-135).
 */
module Ranking {
  import opened Wrappers
  import opened Offers
  import opened ShopTotals

  /** The shops' totals in `shops` order, keeping only shops with an available item. */
  function Emitted(ps: seq<Product>, shops: seq<string>): (r: seq<ShopTotal>)
    ensures |r| <= |shops|
    ensures forall k :: 0 <= k < |r| ==> r[k].availableCount > 0
  {
    if shops == [] then []
    else Emitted(ps, Init(shops)) + (if Tally(ps, Last(shops)).availableCount > 0 then [Tally(ps, Last(shops))] else [])
  }

  /**
   * The exclusion rule and the count bookkeeping: every emitted entry is the
   * tally of a candidate shop, has an available item, and accounts for every
   * product exactly once.
   */
  lemma {:induction false} EmittedSound(ps: seq<Product>, shops: seq<string>, st: ShopTotal)
    requires st in Emitted(ps, shops)
    ensures exists i :: 0 <= i < |shops| && st == Tally(ps, shops[i])
    ensures st.availableCount > 0
    ensures st.availableCount + st.missingCount == |ps| && |st.products| == |ps|
  {
    var init, last := Init(shops), Last(shops);
    if st in Emitted(ps, init) {
      EmittedSound(ps, init, st);
      var i :| 0 <= i < |init| && st == Tally(ps, init[i]);
      assert shops[i] == init[i];
    } else {
      assert st == Tally(ps, last);
      TallyCounts(ps, last);
    }
  }

  /** Every candidate shop with an available item is emitted. */
  lemma {:induction false} EmittedComplete(ps: seq<Product>, shops: seq<string>, i: nat)
    requires i < |shops| && Tally(ps, shops[i]).availableCount > 0
    ensures Tally(ps, shops[i]) in Emitted(ps, shops)
  {
    if i < |shops| - 1 {
      assert Init(shops)[i] == shops[i];
      EmittedComplete(ps, Init(shops), i);
    }
  }

  /** With no products no shop has an available item, so nothing is emitted. */
  lemma {:induction false} NoProductsNoShops(shops: seq<string>)
    ensures Emitted([], shops) == []
  {
    if shops != [] {
      NoProductsNoShops(Init(shops));
      assert Tally([], Last(shops)).availableCount == 0;
    }
  }

  /** The sort key `(missing_count, total)`, compared lexicographically: `a` strictly before `b`. */
  predicate KeyLess(a: ShopTotal, b: ShopTotal)
    ensures KeyLess(a, b) ==> a.missingCount <= b.missingCount
  {
    a.missingCount < b.missingCount || (a.missingCount == b.missingCount && a.total < b.total)
  }

  predicate Sorted(s: seq<ShopTotal>)
    ensures Sorted(s) ==> forall i, j :: 0 <= i < j < |s| ==> s[i].missingCount <= s[j].missingCount
  {
    forall i, j :: 0 <= i < j < |s| ==> !KeyLess(s[j], s[i])
  }

  /**
   * Inserts `x` after every entry whose key is not greater than its own, so
   * that entries with equal keys keep their order.
   */
  function Insert(s: seq<ShopTotal>, x: ShopTotal): (r: seq<ShopTotal>)
    ensures |r| == |s| + 1
  {
    if s == [] then [x]
    else if KeyLess(x, s[0]) then [x] + s
    else [s[0]] + Insert(s[1..], x)
  }

  /** The stable sort of `s` by the key: insertion of each entry in turn. */
  function SortByKey(s: seq<ShopTotal>): (r: seq<ShopTotal>)
    ensures |r| == |s|
  {
    if s == [] then [] else Insert(SortByKey(Init(s)), Last(s))
  }

  /** Insertion adds exactly the inserted entry. */
  lemma {:induction false} InsertPermutes(s: seq<ShopTotal>, x: ShopTotal)
    ensures multiset(Insert(s, x)) == multiset(s) + multiset{x}
  {
    if s != [] && !KeyLess(x, s[0]) {
      InsertPermutes(s[1..], x);
      assert s == [s[0]] + s[1..];
    }
  }

  /** Inserting an entry not before `y` into entries not before `y` gives entries not before `y`. */
  lemma {:induction false} InsertLowerBound(s: seq<ShopTotal>, x: ShopTotal, y: ShopTotal)
    requires forall k :: 0 <= k < |s| ==> !KeyLess(s[k], y)
    requires !KeyLess(x, y)
    ensures forall k :: 0 <= k < |Insert(s, x)| ==> !KeyLess(Insert(s, x)[k], y)
  {
    if s != [] && !KeyLess(x, s[0]) {
      InsertLowerBound(s[1..], x, y);
    }
  }

  /** Insertion into a sorted list keeps it sorted. */
  lemma {:induction false} InsertSorted(s: seq<ShopTotal>, x: ShopTotal)
    requires Sorted(s)
    ensures Sorted(Insert(s, x))
  {
    if s != [] && !KeyLess(x, s[0]) {
      var t := Insert(s[1..], x);
      assert Sorted(s[1..]);
      InsertSorted(s[1..], x);
      InsertLowerBound(s[1..], x, s[0]);
      var r := [s[0]] + t;
      forall i, j | 0 <= i < j < |r| ensures !KeyLess(r[j], r[i]) {
        assert r[j] == t[j - 1];
        if i > 0 {
          assert r[i] == t[i - 1];
        }
      }
    }
  }

  /** The sort orders by the key. */
  lemma {:induction false} SortByKeySorted(s: seq<ShopTotal>)
    ensures Sorted(SortByKey(s))
  {
    if s != [] {
      SortByKeySorted(Init(s));
      InsertSorted(SortByKey(Init(s)), Last(s));
    }
  }

  /** The sort only reorders: it is a permutation of its input. */
  lemma {:induction false} SortByKeyPermutes(s: seq<ShopTotal>)
    ensures multiset(SortByKey(s)) == multiset(s)
  {
    if s != [] {
      SortByKeyPermutes(Init(s));
      InsertPermutes(SortByKey(Init(s)), Last(s));
      assert s == Init(s) + [Last(s)];
    }
  }

  /** The entries of `s` whose key is `(m, t)`, in order. */
  function WithKey(s: seq<ShopTotal>, m: int, t: int): seq<ShopTotal> {
    if s == [] then []
    else (if s[0].missingCount == m && s[0].total == t then [s[0]] else []) + WithKey(s[1..], m, t)
  }

  lemma {:induction false} WithKeyAppend(a: seq<ShopTotal>, b: seq<ShopTotal>, m: int, t: int)
    ensures WithKey(a + b, m, t) == WithKey(a, m, t) + WithKey(b, m, t)
  {
    if a == [] {
      assert a + b == b;
    } else {
      assert (a + b)[0] == a[0] && (a + b)[1..] == a[1..] + b;
      WithKeyAppend(a[1..], b, m, t);
      var head := if a[0].missingCount == m && a[0].total == t then [a[0]] else [];
      assert WithKey(a + b, m, t) == head + WithKey(a[1..] + b, m, t);
      assert WithKey(a, m, t) == head + WithKey(a[1..], m, t);
    }
  }

  lemma {:induction false} WithKeyNone(s: seq<ShopTotal>, x: ShopTotal)
    requires forall k :: 0 <= k < |s| ==> KeyLess(x, s[k])
    ensures WithKey(s, x.missingCount, x.total) == []
  {
    if s != [] {
      WithKeyNone(s[1..], x);
    }
  }

  lemma BeforeHeadBeforeAll(s: seq<ShopTotal>, x: ShopTotal)
    requires Sorted(s) && s != [] && KeyLess(x, s[0])
    ensures forall k :: 0 <= k < |s| ==> KeyLess(x, s[k])
  {
  }

  lemma SortedTail(s: seq<ShopTotal>)
    requires Sorted(s) && s != []
    ensures Sorted(s[1..])
  {
  }

  /** `WithKey` on a sequence with a known first entry. */
  lemma WithKeyCons(y: ShopTotal, rest: seq<ShopTotal>, m: int, t: int)
    ensures WithKey([y] + rest, m, t) ==
      (if y.missingCount == m && y.total == t then [y] else []) + WithKey(rest, m, t)
  {
    assert ([y] + rest)[0] == y && ([y] + rest)[1..] == rest;
  }

  lemma {:induction false} InsertWithKey(s: seq<ShopTotal>, x: ShopTotal, m: int, t: int)
    requires Sorted(s)
    ensures WithKey(Insert(s, x), m, t) ==
      WithKey(s, m, t) + (if x.missingCount == m && x.total == t then [x] else [])
  {
    var tail := if x.missingCount == m && x.total == t then [x] else [];
    if s == [] {
      assert Insert(s, x) == [x] + [];
      WithKeyCons(x, [], m, t);
    } else if KeyLess(x, s[0]) {
      assert Insert(s, x) == [x] + s;
      WithKeyCons(x, s, m, t);
      if tail != [] {
        BeforeHeadBeforeAll(s, x);
        WithKeyNone(s, x);
      }
    } else {
      var head := if s[0].missingCount == m && s[0].total == t then [s[0]] else [];
      assert Insert(s, x) == [s[0]] + Insert(s[1..], x);
      WithKeyCons(s[0], Insert(s[1..], x), m, t);
      WithKeyCons(s[0], s[1..], m, t);
      assert [s[0]] + s[1..] == s;
      SortedTail(s);
      InsertWithKey(s[1..], x, m, t);
      assert head + (WithKey(s[1..], m, t) + tail) == (head + WithKey(s[1..], m, t)) + tail;
    }
  }

  /**
   * The sort is stable: for every key, the entries with that key appear in
   * the same relative order before and after sorting.
   */
  lemma {:induction false} SortByKeyStable(s: seq<ShopTotal>, m: int, t: int)
    ensures WithKey(SortByKey(s), m, t) == WithKey(s, m, t)
  {
    if s != [] {
      var init, x := Init(s), Last(s);
      var sorted := SortByKey(init);
      assert SortByKey(s) == Insert(sorted, x);
      SortByKeyStable(init, m, t);
      SortByKeySorted(init);
      InsertWithKey(sorted, x, m, t);
      assert s == init + [x];
      WithKeyAppend(init, [x], m, t);
      assert [x][1..] == [];
      assert WithKey([x], m, t) == (if x.missingCount == m && x.total == t then [x] else []) + WithKey([], m, t);
    }
  }

  /** A shop that carries every item and has at least one available (the test of line 125). */
  predicate Complete(st: ShopTotal) {
    st.missingCount == 0 && st.availableCount > 0
  }

  /** The index of the first complete entry, if any. */
  function FirstComplete(s: seq<ShopTotal>): (r: Option<nat>)
    ensures r.Some? ==> r.value < |s| && Complete(s[r.value])
    ensures r.Some? ==> forall k :: 0 <= k < r.value ==> !Complete(s[k])
    ensures r.None? ==> forall k :: 0 <= k < |s| ==> !Complete(s[k])
  {
    if s == [] then None
    else if Complete(s[0]) then Some(0)
    else match FirstComplete(s[1..])
      case Some(i) => Some(i + 1)
      case None => None
  }

  /** The best entry: the first complete one, otherwise the head, none for an empty list. */
  function BestOf(s: seq<ShopTotal>): (r: Option<ShopTotal>)
    ensures r.Some? <==> s != []
    ensures r.Some? ==> r.value in s
    ensures FirstComplete(s).Some? ==> r.Some? && Complete(r.value)
  {
    match FirstComplete(s)
    case Some(i) => Some(s[i])
    case None => if s == [] then None else Some(s[0])
  }

  /**
   * On a sorted list of emitted entries, the best entry is always the head:
   * a complete shop, if any exists, sorts first.
   */
  lemma BestIsHead(s: seq<ShopTotal>)
    requires Sorted(s)
    requires forall k :: 0 <= k < |s| ==> s[k].availableCount > 0
    ensures BestOf(s) == if s == [] then None else Some(s[0])
  {
    match FirstComplete(s)
    case Some(i) =>
      if i > 0 {
        assert false;
      }
    case None =>
  }

  /**
   * The in-place sort of `shop_totals` (line 118): each entry is inserted
   * into the sorted prefix after every entry whose key is not greater.
   */
  method SortShopTotals(s: seq<ShopTotal>) returns (r: seq<ShopTotal>)
    ensures r == SortByKey(s)
  {
    r := [];
    for i := 0 to |s|
      invariant r == SortByKey(s[..i])
    {
      assert Init(s[..i + 1]) == s[..i] && Last(s[..i + 1]) == s[i];
      var x := s[i];
      var j := 0;
      while j < |r| && !KeyLess(x, r[j])
        invariant 0 <= j <= |r|
        invariant forall k :: 0 <= k < j ==> !KeyLess(x, r[k])
      {
        j := j + 1;
      }
      InsertAt(r, x, j);
      r := r[..j] + [x] + r[j..];
    }
    assert s[..|s|] == s;
  }

  lemma {:induction false} InsertAt(s: seq<ShopTotal>, x: ShopTotal, j: nat)
    requires j <= |s|
    requires forall k :: 0 <= k < j ==> !KeyLess(x, s[k])
    requires j == |s| || KeyLess(x, s[j])
    ensures Insert(s, x) == s[..j] + [x] + s[j..]
  {
    if j > 0 {
      InsertAt(s[1..], x, j - 1);
      assert s[1..][..j - 1] == s[..j][1..];
      assert s[1..][j - 1..] == s[j..];
    }
  }

  /**
   * The best-shop search (lines 120-133): the first complete entry, found by
   * a loop that stops at it, and otherwise the head of the list.
   */
  method PickBest(shopTotals: seq<ShopTotal>) returns (bestShop: Option<string>, bestTotal: Option<int>)
    ensures BestOf(shopTotals).None? ==> bestShop.None? && bestTotal.None?
    ensures BestOf(shopTotals).Some? ==>
      bestShop == Some(BestOf(shopTotals).value.shop) && bestTotal == Some(BestOf(shopTotals).value.total)
  {
    bestShop, bestTotal := None, None;
    var i := 0;
    while i < |shopTotals|
      invariant 0 <= i <= |shopTotals|
      invariant forall k :: 0 <= k < i ==> !Complete(shopTotals[k])
      invariant bestShop.None? && bestTotal.None?
    {
      var st := shopTotals[i];
      if st.missingCount == 0 && st.availableCount > 0 {
        bestShop, bestTotal := Some(st.shop), Some(st.total);
        break;
      }
      i := i + 1;
    }
    if bestShop.None? && |shopTotals| > 0 {
      bestShop, bestTotal := Some(shopTotals[0].shop), Some(shopTotals[0].total);
    }
  }

  /**
   * Every entry of the ranking has an available item and accounts for every
   * product exactly once, with one presentation line per product.
   */
  lemma RankedWellFormed(ps: seq<Product>, shops: seq<string>)
    ensures forall k :: 0 <= k < |SortByKey(Emitted(ps, shops))| ==>
      var st := SortByKey(Emitted(ps, shops))[k];
      st.availableCount > 0 && st.availableCount + st.missingCount == |ps| && |st.products| == |ps|
  {
    var emitted := Emitted(ps, shops);
    var r := SortByKey(emitted);
    SortByKeyPermutes(emitted);
    forall k | 0 <= k < |r|
      ensures r[k].availableCount > 0 && r[k].availableCount + r[k].missingCount == |ps| && |r[k].products| == |ps|
    {
      assert r[k] in multiset(emitted);
      EmittedSound(ps, shops, r[k]);
    }
  }

  /** Coverage before price: in a sorted list a shop missing fewer items always comes first. */
  lemma CoverageFirst(s: seq<ShopTotal>)
    requires Sorted(s)
    ensures forall i, j :: 0 <= i < |s| && 0 <= j < |s| && s[i].missingCount < s[j].missingCount ==> i < j
  {
  }

  /**
   * The loop over the candidate shops (lines 63-115): each shop is tallied
   * and appended when it has an available item.
   */
  method EmitShopTotals(products: seq<Product>, shopList: seq<string>) returns (shopTotals: seq<ShopTotal>)
    ensures shopTotals == Emitted(products, shopList)
  {
    shopTotals := [];
    for i := 0 to |shopList|
      invariant shopTotals == Emitted(products, shopList[..i])
    {
      assert Init(shopList[..i + 1]) == shopList[..i] && Last(shopList[..i + 1]) == shopList[i];
      var st := TallyShop(products, shopList[i]);
      if st.availableCount > 0 {
        shopTotals := shopTotals + [st];
      }
    }
    assert shopList[..|shopList|] == shopList;
  }

  /**
   * The ranking of one category: the shops with an available item, sorted
   * by (missing count, total) with ties in `shopList` order, and the best
   * shop, which is the head of that list.
   */
  method CalculateShopTotals(products: seq<Product>, shopList: seq<string>)
    returns (shopTotals: seq<ShopTotal>, bestShop: Option<string>, bestTotal: Option<int>)
    ensures shopTotals == SortByKey(Emitted(products, shopList))
    ensures Sorted(shopTotals)
    ensures multiset(shopTotals) == multiset(Emitted(products, shopList))
    ensures forall m, t :: WithKey(shopTotals, m, t) == WithKey(Emitted(products, shopList), m, t)
    ensures forall i, j ::
      0 <= i < |shopTotals| && 0 <= j < |shopTotals| && shopTotals[i].missingCount < shopTotals[j].missingCount
      ==> i < j
    ensures forall k :: 0 <= k < |shopTotals| ==>
      shopTotals[k].availableCount > 0 &&
      shopTotals[k].availableCount + shopTotals[k].missingCount == |products| &&
      |shopTotals[k].products| == |products|
    ensures shopTotals == [] ==> bestShop.None? && bestTotal.None?
    ensures shopTotals != [] ==> bestShop == Some(shopTotals[0].shop) && bestTotal == Some(shopTotals[0].total)
    ensures products == [] ==> shopTotals == [] && bestShop.None?
  {
    shopTotals := EmitShopTotals(products, shopList);
    ghost var emitted := shopTotals;
    shopTotals := SortShopTotals(shopTotals);
    SortByKeySorted(emitted);
    SortByKeyPermutes(emitted);
    forall m, t ensures WithKey(shopTotals, m, t) == WithKey(emitted, m, t) {
      SortByKeyStable(emitted, m, t);
    }
    CoverageFirst(shopTotals);
    RankedWellFormed(products, shopList);
    BestIsHead(shopTotals);
    bestShop, bestTotal := PickBest(shopTotals);
    if products == [] {
      NoProductsNoShops(shopList);
    }
  }
}
