/** The catalogue page's list logic (frontend/app/products/page.tsx and its copy
    frontend/components/client-productsGrid.tsx): the four-stage filter pipeline, the price
    bounds handed to the filter panel, the category options, and the page's handlers. */
module Listing {
  import opened Seqs
  import opened Text
  import opened Catalog
  import opened ProductsStore

  /** The active filters: selected categories, the inclusive price range and selected ratings. */
  datatype Filters = Filters(categories: seq<string>, low: real, high: real, ratings: seq<real>)

  /** The page's initial filters. */
  const InitialFilters := Filters([], 0.0, 2000.0, [])

  /** The search stage: the query occurs in the name, description or category, ignoring case. */
  predicate MatchesQuery(p: Product, query: string)
  {
    ContainsIgnoringCase(p.name, query) || ContainsIgnoringCase(p.description, query)
    || ContainsIgnoringCase(p.category, query)
  }

  /** The rating stage: the product is rated at least one of the selected values. */
  predicate MeetsSomeRating(p: Product, ratings: seq<real>)
  {
    exists i :: 0 <= i < |ratings| && p.rating >= ratings[i]
  }

  predicate InPriceRange(p: Product, f: Filters)
  {
    f.low <= p.price <= f.high
  }

  function SearchStage(query: string): Product -> bool
  {
    (p: Product) => MatchesQuery(p, query)
  }

  function CategoryStage(f: Filters): Product -> bool
  {
    (p: Product) => p.category in f.categories
  }

  function PriceStage(f: Filters): Product -> bool
  {
    (p: Product) => InPriceRange(p, f)
  }

  function RatingStage(f: Filters): Product -> bool
  {
    (p: Product) => MeetsSomeRating(p, f.ratings)
  }

  /** `applyFilters(query)`: the stages in source order; a stage whose input is empty (the
      query, the category selection, the rating selection) is skipped. */
  function FilterProducts(products: seq<Product>, query: string, f: Filters): seq<Product>
  {
    var afterSearch := if query != "" then Filter(products, SearchStage(query)) else products;
    var afterCategory := if |f.categories| > 0 then Filter(afterSearch, CategoryStage(f)) else afterSearch;
    var afterPrice := Filter(afterCategory, PriceStage(f));
    if |f.ratings| > 0 then Filter(afterPrice, RatingStage(f)) else afterPrice
  }

  /** Every condition that applies to a product under this query and these filters. */
  predicate Selected(p: Product, query: string, f: Filters)
  {
    && (query != "" ==> MatchesQuery(p, query))
    && (|f.categories| > 0 ==> p.category in f.categories)
    && InPriceRange(p, f)
    && (|f.ratings| > 0 ==> MeetsSomeRating(p, f.ratings))
  }

  function Selects(query: string, f: Filters): Product -> bool
  {
    (p: Product) => Selected(p, query, f)
  }

  /** A stage that only applies when `active`. */
  function Optional(active: bool, keep: Product -> bool): Product -> bool
  {
    (p: Product) => active ==> keep(p)
  }

  /** Skipping a stage is filtering by a condition that always holds. */
  lemma OptionalStage(s: seq<Product>, active: bool, keep: Product -> bool)
    ensures (if active then Filter(s, keep) else s) == Filter(s, Optional(active, keep))
  {
    if active {
      FilterCongruent(s, keep, Optional(active, keep));
    } else {
      FilterKeepsAll(s, Optional(active, keep));
    }
  }

  /** The four stages as one filter each. */
  lemma StagesAsFilters(products: seq<Product>, query: string, f: Filters)
    ensures FilterProducts(products, query, f)
         == Filter(Filter(Filter(Filter(products, Optional(query != "", SearchStage(query))),
                                 Optional(|f.categories| > 0, CategoryStage(f))),
                          PriceStage(f)),
                   Optional(|f.ratings| > 0, RatingStage(f)))
  {
    var s1 := Filter(products, Optional(query != "", SearchStage(query)));
    OptionalStage(products, query != "", SearchStage(query));
    var s2 := Filter(s1, Optional(|f.categories| > 0, CategoryStage(f)));
    OptionalStage(s1, |f.categories| > 0, CategoryStage(f));
    var s3 := Filter(s2, PriceStage(f));
    OptionalStage(s3, |f.ratings| > 0, RatingStage(f));
  }

  /** The stage-by-stage pipeline is one filter by the conjunction of the active conditions. */
  lemma ApplyFiltersIsOneFilter(products: seq<Product>, query: string, f: Filters)
    ensures FilterProducts(products, query, f) == Filter(products, Selects(query, f))
  {
    StagesAsFilters(products, query, f);
    var c1 := Optional(query != "", SearchStage(query));
    var c2 := Optional(|f.categories| > 0, CategoryStage(f));
    var c3 := PriceStage(f);
    var c4 := Optional(|f.ratings| > 0, RatingStage(f));
    FilterFilter(products, c1, c2);
    var c12 := Both(c1, c2);
    FilterFilter(products, c12, c3);
    var c123 := Both(c12, c3);
    FilterFilter(products, c123, c4);
    var all := Both(c123, c4);
    forall p | p in products ensures all(p) == Selects(query, f)(p) {
      assert all(p) == (c1(p) && c2(p) && c3(p) && c4(p));
    }
    FilterCongruent(products, all, Selects(query, f));
  }

  /** The pipeline keeps the products' order, keeps exactly the products meeting every active
      condition, and with an empty query applies no text condition. */
  lemma ApplyFiltersSpec(products: seq<Product>, query: string, f: Filters)
    ensures IsSubseq(FilterProducts(products, query, f), products)
    ensures forall p :: p in FilterProducts(products, query, f) <==> p in products && Selected(p, query, f)
  {
    ApplyFiltersIsOneFilter(products, query, f);
    FilterIsSubseq(products, Selects(query, f));
  }

  /** What each stage guarantees of every product shown: the price lies in the inclusive
      range; a query occurs in one of the text fields; the category is a selected one; and
      the rating is at least the smallest selected rating. */
  lemma ShownProductsMeetFilters(products: seq<Product>, query: string, f: Filters, p: Product)
    requires p in FilterProducts(products, query, f)
    ensures p in products
    ensures f.low <= p.price <= f.high
    ensures query != "" ==> MatchesQuery(p, query)
    ensures |f.categories| > 0 ==> p.category in f.categories
    ensures |f.ratings| > 0 ==> p.rating >= MinOf(f.ratings)
  {
    ApplyFiltersSpec(products, query, f);
    if |f.ratings| > 0 {
      var i :| 0 <= i < |f.ratings| && p.rating >= f.ratings[i];
      MinOfIsLeast(f.ratings, i);
    }
  }

  /** The smallest element of a non-empty list. */
  function MinOf(s: seq<real>): real
    requires |s| > 0
  {
    if |s| == 1 then s[0]
    else
      var m := MinOf(s[1..]);
      if s[0] <= m then s[0] else m
  }

  lemma {:induction false} MinOfIsLeast(s: seq<real>, i: nat)
    requires i < |s|
    ensures MinOf(s) <= s[i]
  {
    if i > 0 {
      MinOfIsLeast(s[1..], i - 1);
    } else if |s| > 1 {
      MinOfIsLeast(s[1..], 0);
    }
  }

  /** `Math.min(...prices)`, or 0 for an empty catalogue. */
  function MinPrice(products: seq<Product>): (m: real)
    ensures forall i :: 0 <= i < |products| ==> m <= products[i].price
    ensures products == [] ==> m == 0.0
    ensures products != [] ==> exists i :: 0 <= i < |products| && products[i].price == m
  {
    if products == [] then 0.0
    else if |products| == 1 then products[0].price
    else
      var rest := MinPrice(products[1..]);
      assert forall i :: 1 <= i < |products| ==> products[i] == products[1..][i - 1];
      if products[0].price <= rest then products[0].price else rest
  }

  /** `Math.max(...prices)`, or 2000 for an empty catalogue. */
  function MaxPrice(products: seq<Product>): (m: real)
    ensures forall i :: 0 <= i < |products| ==> products[i].price <= m
    ensures products == [] ==> m == 2000.0
    ensures products != [] ==> exists i :: 0 <= i < |products| && products[i].price == m
  {
    if products == [] then 2000.0
    else if |products| == 1 then products[0].price
    else
      var rest := MaxPrice(products[1..]);
      assert forall i :: 1 <= i < |products| ==> products[i] == products[1..][i - 1];
      if products[0].price >= rest then products[0].price else rest
  }

  /** With the panel's range set to the catalogue's bounds and no other filter, every
      product is shown. */
  lemma FullRangeShowsAll(products: seq<Product>)
    ensures FilterProducts(products, "", Filters([], MinPrice(products), MaxPrice(products), [])) == products
  {
    var f := Filters([], MinPrice(products), MaxPrice(products), []);
    forall p | p in products ensures PriceStage(f)(p) {
      var i :| 0 <= i < |products| && products[i] == p;
    }
    FilterKeepsAll(products, PriceStage(f));
  }

  /** The category options: the categories in order of first occurrence, each once. */
  function CategoryOptions(products: seq<Product>): seq<string>
  {
    Dedup(seq(|products|, i requires 0 <= i < |products| => products[i].category))
  }

  /** `[...new Set(s)]`: the elements of `s` in order of first occurrence, without repeats. */
  function Dedup(s: seq<string>): (r: seq<string>)
    ensures Distinct(r)
    ensures forall x :: x in r <==> x in s
  {
    if s == [] then []
    else
      var d := Dedup(s[..|s| - 1]);
      assert forall x :: x in s <==> x in s[..|s| - 1] || x == s[|s| - 1] by {
        assert s == s[..|s| - 1] + [s[|s| - 1]];
      }
      if s[|s| - 1] in d then d else d + [s[|s| - 1]]
  }

  /** First-occurrence order: the options for a prefix of the list are a prefix of the
      options for the whole list. */
  lemma {:induction false} DedupPrefix(a: seq<string>, b: seq<string>)
    ensures Dedup(a) <= Dedup(a + b)
  {
    if b != [] {
      var c := b[..|b| - 1];
      assert (a + b)[..|a + b| - 1] == a + c;
      DedupPrefix(a, c);
    } else {
      assert a + b == a;
    }
  }

  /** The list state behind the catalogue page: the search text and the active filters; the
      product lists live in the product store. */
  class ProductListing {
    var searchQuery: string
    var activeFilters: Filters
    const store: ProductStore

    constructor(productStore: ProductStore)
      ensures searchQuery == "" && activeFilters == InitialFilters && store == productStore
    {
      searchQuery := "";
      activeFilters := InitialFilters;
      store := productStore;
    }

    /** `applyFilters(query)`: the shown list becomes the pipeline's result over the catalogue;
        the catalogue itself is not touched. */
    method ApplyFilters(query: string)
      modifies store
      ensures store.filteredProducts == FilterProducts(store.products, query, activeFilters)
      ensures store.products == old(store.products)
    {
      store.SetFilteredProducts(FilterProducts(store.products, query, activeFilters));
    }

    /** `handleFilterChange`: only records the filters; they take effect when the debounced
        effect next calls `applyFilters`. */
    method HandleFilterChange(f: Filters)
      modifies this
      ensures activeFilters == f && searchQuery == old(searchQuery)
    {
      activeFilters := f;
    }

    /** `clearSearch`: empties the search text and filters with the empty query. */
    method ClearSearch()
      modifies this, store
      ensures searchQuery == "" && activeFilters == old(activeFilters)
      ensures store.products == old(store.products)
      ensures store.filteredProducts == FilterProducts(store.products, "", activeFilters)
      ensures forall p :: p in store.filteredProducts <==>
        p in store.products && Selected(p, "", activeFilters)
    {
      searchQuery := "";
      ApplyFiltersSpec(store.products, "", activeFilters);
      ApplyFilters("");
    }
  }

  /** After `clearSearch` no text condition applies: a product is shown exactly when it meets
      the category, price and rating conditions. */
  lemma ClearedSearchIgnoresText(products: seq<Product>, f: Filters, p: Product)
    ensures p in FilterProducts(products, "", f) <==>
      p in products && (|f.categories| > 0 ==> p.category in f.categories) && InPriceRange(p, f)
      && (|f.ratings| > 0 ==> MeetsSomeRating(p, f.ratings))
  {
    ApplyFiltersSpec(products, "", f);
  }
}
