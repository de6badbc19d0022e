/** The product grid's ordering (frontend/components/product-grid.tsx): a copy of the list
    sorted with the comparator chosen by the "sort by" menu. JavaScript's `sort` is stable, so
    the order is fixed by the comparator together with the input order; it is modelled as a
    stable insertion sort. */
module ProductGrid {
  import opened Seqs
  import opened Catalog

  /** The comparator of `sortedProducts`: negative when `a` goes before `b`. */
  function Compare(sortBy: string, a: Product, b: Product): real
  {
    if sortBy == "price-low" then a.price - b.price
    else if sortBy == "price-high" then b.price - a.price
    else if sortBy == "rating" then b.rating - a.rating
    else 0.0
  }

  /** The sort key the comparator compares: the comparator is the difference of the keys. */
  function Rank(sortBy: string, p: Product): real
  {
    if sortBy == "price-low" then p.price
    else if sortBy == "price-high" then -p.price
    else if sortBy == "rating" then -p.rating
    else 0.0
  }

  lemma CompareIsRankDifference(sortBy: string, a: Product, b: Product)
    ensures Compare(sortBy, a, b) == Rank(sortBy, a) - Rank(sortBy, b)
  {
  }

  /** Ordered by the comparator: no pair of products is out of order. */
  ghost predicate SortedBy(sortBy: string, s: seq<Product>)
  {
    forall i, j :: 0 <= i < j < |s| ==> Rank(sortBy, s[i]) <= Rank(sortBy, s[j])
  }

  /** Places `x` after every product that does not compare greater than it. */
  function Insert(sortBy: string, x: Product, s: seq<Product>): seq<Product>
  {
    if s == [] then [x]
    else if Rank(sortBy, s[0]) <= Rank(sortBy, x) then [s[0]] + Insert(sortBy, x, s[1..])
    else [x] + s
  }

  /** `[...products].sort(compare)`. */
  function SortProducts(sortBy: string, products: seq<Product>): seq<Product>
  {
    if products == [] then []
    else Insert(sortBy, products[|products| - 1], SortProducts(sortBy, products[..|products| - 1]))
  }

  /** The products with key `k`. */
  function RankIs(sortBy: string, k: real): Product -> bool
  {
    (p: Product) => Rank(sortBy, p) == k
  }

  lemma {:induction false} InsertPermutes(sortBy: string, x: Product, s: seq<Product>)
    ensures multiset(Insert(sortBy, x, s)) == multiset(s) + multiset{x}
  {
    if s != [] && Rank(sortBy, s[0]) <= Rank(sortBy, x) {
      InsertPermutes(sortBy, x, s[1..]);
      assert s == [s[0]] + s[1..];
    }
  }

  lemma {:induction false} InsertSorted(sortBy: string, x: Product, s: seq<Product>)
    requires SortedBy(sortBy, s)
    ensures SortedBy(sortBy, Insert(sortBy, x, s))
  {
    if s != [] && Rank(sortBy, s[0]) <= Rank(sortBy, x) {
      InsertSorted(sortBy, x, s[1..]);
      var rest := Insert(sortBy, x, s[1..]);
      InsertPermutes(sortBy, x, s[1..]);
      forall j | 0 <= j < |rest| ensures Rank(sortBy, s[0]) <= Rank(sortBy, rest[j]) {
        assert rest[j] in multiset(rest);
        if rest[j] != x {
          assert rest[j] in multiset(s[1..]);
          var m :| 0 <= m < |s[1..]| && s[1..][m] == rest[j];
          assert s[m + 1] == rest[j];
        }
      }
    }
  }

  /** Inserting into a sorted list puts `x` after every product with its key, so the products
      with any one key keep their relative order. */
  lemma {:induction false} InsertStable(sortBy: string, x: Product, s: seq<Product>, k: real)
    requires SortedBy(sortBy, s)
    ensures Filter(Insert(sortBy, x, s), RankIs(sortBy, k))
         == Filter(s, RankIs(sortBy, k)) + if Rank(sortBy, x) == k then [x] else []
  {
    var keep := RankIs(sortBy, k);
    if s == [] {
      assert Filter([x], keep) == (if keep(x) then [x] else []) + Filter([], keep);
    } else if Rank(sortBy, s[0]) <= Rank(sortBy, x) {
      SortedTail(sortBy, s);
      InsertStable(sortBy, x, s[1..], k);
      InsertStableAfterHead(sortBy, x, s, keep, if Rank(sortBy, x) == k then [x] else []);
    } else {
      InsertStableInFront(sortBy, x, s, k);
    }
  }

  /** A tail of a sorted list is sorted. */
  lemma SortedTail(sortBy: string, s: seq<Product>)
    requires s != [] && SortedBy(sortBy, s)
    ensures SortedBy(sortBy, s[1..])
  {
    forall i, j | 0 <= i < j < |s| - 1 ensures Rank(sortBy, s[1..][i]) <= Rank(sortBy, s[1..][j]) {
      assert s[1..][i] == s[i + 1] && s[1..][j] == s[j + 1];
    }
  }

  /** The step of `InsertStable` where `x` goes after the head of `s`. */
  lemma InsertStableAfterHead(sortBy: string, x: Product, s: seq<Product>, keep: Product -> bool,
                              tail: seq<Product>)
    requires s != [] && Rank(sortBy, s[0]) <= Rank(sortBy, x)
    requires Filter(Insert(sortBy, x, s[1..]), keep) == Filter(s[1..], keep) + tail
    ensures Filter(Insert(sortBy, x, s), keep) == Filter(s, keep) + tail
  {
    var rest := Insert(sortBy, x, s[1..]);
    var head := if keep(s[0]) then [s[0]] else [];
    assert Insert(sortBy, x, s) == [s[0]] + rest;
    FilterCons(s[0], rest, keep);
    assert head + (Filter(s[1..], keep) + tail) == (head + Filter(s[1..], keep)) + tail;
  }

  /** Filtering a list with a given head. */
  lemma FilterCons(h: Product, rest: seq<Product>, keep: Product -> bool)
    ensures Filter([h] + rest, keep) == (if keep(h) then [h] else []) + Filter(rest, keep)
  {
    assert ([h] + rest)[0] == h;
    assert ([h] + rest)[1..] == rest;
  }

  /** The step of `InsertStable` where `x` goes before every product of `s`. */
  lemma InsertStableInFront(sortBy: string, x: Product, s: seq<Product>, k: real)
    requires SortedBy(sortBy, s) && s != [] && Rank(sortBy, s[0]) > Rank(sortBy, x)
    ensures Filter(Insert(sortBy, x, s), RankIs(sortBy, k))
         == Filter(s, RankIs(sortBy, k)) + if Rank(sortBy, x) == k then [x] else []
  {
    var keep := RankIs(sortBy, k);
    assert Insert(sortBy, x, s) == [x] + s;
    FilterAppend([x], s, keep);
    assert Filter([x], keep) == (if keep(x) then [x] else []) + Filter([], keep);
    if keep(x) {
      forall p | p in s ensures !keep(p) {
        var m :| 0 <= m < |s| && s[m] == p;
        assert Rank(sortBy, s[0]) <= Rank(sortBy, s[m]);
      }
      FilterNone(s, keep);
    }
  }


  lemma {:induction false} SortPermutes(sortBy: string, products: seq<Product>)
    ensures multiset(SortProducts(sortBy, products)) == multiset(products)
  {
    if products != [] {
      var init := products[..|products| - 1];
      var x := products[|products| - 1];
      SortPermutes(sortBy, init);
      InsertPermutes(sortBy, x, SortProducts(sortBy, init));
      assert products == init + [x];
    }
  }

  lemma {:induction false} SortSorted(sortBy: string, products: seq<Product>)
    ensures SortedBy(sortBy, SortProducts(sortBy, products))
  {
    if products != [] {
      var init := products[..|products| - 1];
      SortSorted(sortBy, init);
      InsertSorted(sortBy, products[|products| - 1], SortProducts(sortBy, init));
    }
  }

  lemma {:induction false} SortStable(sortBy: string, products: seq<Product>, k: real)
    ensures Filter(SortProducts(sortBy, products), RankIs(sortBy, k)) == Filter(products, RankIs(sortBy, k))
  {
    if products != [] {
      var init := products[..|products| - 1];
      var x := products[|products| - 1];
      var keep := RankIs(sortBy, k);
      var sorted := SortProducts(sortBy, init);
      SortStable(sortBy, init, k);
      SortSorted(sortBy, init);
      InsertStable(sortBy, x, sorted, k);
      assert SortProducts(sortBy, products) == Insert(sortBy, x, sorted);
      FilterSnoc(products, keep);
    }
  }

  /** Filtering a non-empty list: the filtered front followed by the last product if it is kept. */
  lemma FilterSnoc(s: seq<Product>, keep: Product -> bool)
    requires s != []
    ensures Filter(s, keep) == Filter(s[..|s| - 1], keep) + if keep(s[|s| - 1]) then [s[|s| - 1]] else []
  {
    var x := s[|s| - 1];
    assert s == s[..|s| - 1] + [x];
    FilterAppend(s[..|s| - 1], [x], keep);
    assert Filter([x], keep) == (if keep(x) then [x] else []) + Filter([], keep);
  }

  /** The sorted copy holds the same products, is ordered by the comparator, and is stable:
      for every key, the products with that key appear in their input order. */
  lemma SortSpec(sortBy: string, products: seq<Product>)
    ensures |SortProducts(sortBy, products)| == |products|
    ensures multiset(SortProducts(sortBy, products)) == multiset(products)
    ensures SortedBy(sortBy, SortProducts(sortBy, products))
    ensures forall k :: Filter(SortProducts(sortBy, products), RankIs(sortBy, k))
                     == Filter(products, RankIs(sortBy, k))
  {
    SortPermutes(sortBy, products);
    SortSorted(sortBy, products);
    forall k ensures Filter(SortProducts(sortBy, products), RankIs(sortBy, k))
                  == Filter(products, RankIs(sortBy, k)) {
      SortStable(sortBy, products, k);
    }
    assert |multiset(SortProducts(sortBy, products))| == |multiset(products)|;
  }

  /** "price-low" lists prices from low to high. */
  lemma PriceLowAscending(products: seq<Product>)
    ensures var r := SortProducts("price-low", products);
      forall i, j :: 0 <= i < j < |r| ==> r[i].price <= r[j].price
  {
    SortSpec("price-low", products);
  }

  /** "price-high" lists prices from high to low. */
  lemma PriceHighDescending(products: seq<Product>)
    ensures var r := SortProducts("price-high", products);
      forall i, j :: 0 <= i < j < |r| ==> r[i].price >= r[j].price
  {
    SortSpec("price-high", products);
  }

  /** "rating" lists ratings from high to low. */
  lemma RatingDescending(products: seq<Product>)
    ensures var r := SortProducts("rating", products);
      forall i, j :: 0 <= i < j < |r| ==> r[i].rating >= r[j].rating
  {
    SortSpec("rating", products);
  }

  /** Any other choice ("featured", "newest", ...) compares every pair as equal, so the list
      is shown in its input order. */
  lemma OtherKeyKeepsOrder(sortBy: string, products: seq<Product>)
    requires sortBy != "price-low" && sortBy != "price-high" && sortBy != "rating"
    ensures SortProducts(sortBy, products) == products
  {
    SortSpec(sortBy, products);
    var r := SortProducts(sortBy, products);
    FilterKeepsAll(r, RankIs(sortBy, 0.0));
    FilterKeepsAll(products, RankIs(sortBy, 0.0));
  }
}
