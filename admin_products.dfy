/** The admin products table (frontend/app/admin/page.tsx): the search over the store's
    products, the pagination (page count, page slice, the row of page links), the row
    selection, and the handlers that change the selection and the current page. */
module AdminProducts {
  import opened Seqs
  import opened Text
  import opened Catalog
  import opened ProductsStore
  import Listing

  function Min(a: int, b: int): int
  {
    if a <= b then a else b
  }

  /** The products the table searches: those whose name, description or category contains the
      query, ignoring case, in store order. */
  function FilteredProducts(products: seq<Product>, query: string): seq<Product>
  {
    Filter(products, Listing.SearchStage(query))
  }

  /** The search keeps exactly the matching products, in their order; an empty query keeps
      every product. */
  lemma FilteredProductsSpec(products: seq<Product>, query: string)
    ensures IsSubseq(FilteredProducts(products, query), products)
    ensures forall p :: p in FilteredProducts(products, query) <==>
      p in products && Listing.MatchesQuery(p, query)
    ensures query == "" ==> FilteredProducts(products, query) == products
  {
    FilterIsSubseq(products, Listing.SearchStage(query));
    if query == "" {
      forall p | p in products ensures Listing.SearchStage(query)(p) {
        ContainsEmpty(Lower(p.name));
      }
      FilterKeepsAll(products, Listing.SearchStage(query));
    }
  }

  /** `Math.ceil(length / itemsPerPage)`: the least number of pages of `n` rows holding
      `len` rows. */
  function TotalPages(len: nat, n: int): (t: nat)
    requires n >= 1
    ensures t * n >= len
    ensures t == 0 || (t - 1) * n < len
    ensures t == 0 <==> len == 0
  {
    var t := (len + n - 1) / n;
    assert len + n - 1 == t * n + (len + n - 1) % n;
    assert (t - 1) * n == t * n - n;
    t
  }

  /** `slice((page - 1) * n, page * n)`: the rows of page `page`, clipped to the list. */
  function PageSlice(s: seq<Product>, page: int, n: int): (r: seq<Product>)
    requires page >= 1 && n >= 1
    ensures |r| <= n
    ensures |r| == if (page - 1) * n >= |s| then 0 else Min(n, |s| - (page - 1) * n)
    ensures forall i :: 0 <= i < |r| ==> r[i] == s[(page - 1) * n + i]
  {
    assert page * n == (page - 1) * n + n;
    assert (page - 1) * n >= 0;
    s[Min((page - 1) * n, |s|)..Min(page * n, |s|)]
  }

  /** Pages 1 to `k` shown one after the other. */
  ghost function Pages(s: seq<Product>, n: int, k: nat): seq<Product>
    requires n >= 1
  {
    if k == 0 then [] else Pages(s, n, k - 1) + PageSlice(s, k, n)
  }

  lemma {:induction false} PagesPrefix(s: seq<Product>, n: int, k: nat)
    requires n >= 1
    ensures Pages(s, n, k) == s[..Min(k * n, |s|)]
  {
    if k > 0 {
      PagesPrefix(s, n, k - 1);
      assert k * n == (k - 1) * n + n;
      assert (k - 1) * n >= 0;
      var lo := Min((k - 1) * n, |s|);
      var hi := Min(k * n, |s|);
      assert PageSlice(s, k, n) == s[lo..hi];
      assert s[..lo] + s[lo..hi] == s[..hi];
    }
  }

  /** Showing pages 1 to `totalPages` one after the other gives back the searched list: every
      row is on exactly one page, in order. */
  lemma PagesCoverList(s: seq<Product>, n: int)
    requires n >= 1
    ensures Pages(s, n, TotalPages(|s|, n)) == s
  {
    PagesPrefix(s, n, TotalPages(|s|, n));
  }

  /** Every page before the last is full, and the last one is not empty. */
  lemma PageSizes(s: seq<Product>, n: int, page: int)
    requires n >= 1 && 1 <= page <= TotalPages(|s|, n)
    ensures page < TotalPages(|s|, n) ==> |PageSlice(s, page, n)| == n
    ensures PageSlice(s, page, n) != []
  {
    var t := TotalPages(|s|, n);
    MulMonotone(t - 1, page - 1, n);
    if page < t {
      MulMonotone(t - 1, page, n);
    }
  }

  /** One entry of the row of page links. */
  datatype PageItem = Link(page: int, active: bool) | Ellipsis | Hidden

  /** What the pagination shows for `page`: a link for the first and last pages and the pages
      next to the current one; an ellipsis for page 2 or page `total - 1` when the current page
      is far enough from them; nothing otherwise. */
  function PageItemFor(page: int, current: int, total: int): PageItem
  {
    if page == 1 || page == total || (page >= current - 1 && page <= current + 1) then
      Link(page, page == current)
    else if (page == 2 && current > 3) || (page == total - 1 && current < total - 2) then
      Ellipsis
    else
      Hidden
  }

  /** `Array.from({ length: totalPages }, (_, i) => i + 1).map(...)`. */
  function Window(current: int, total: nat): (w: seq<PageItem>)
    ensures |w| == total
    ensures forall i :: 0 <= i < total ==> w[i] == PageItemFor(i + 1, current, total)
  {
    seq(total, i requires 0 <= i < total => PageItemFor(i + 1, current, total))
  }

  /** The first and the last page always get a link, and so do the pages within one of the
      current page. */
  lemma WindowLinks(current: int, total: nat, page: int)
    requires 1 <= page <= total
    ensures Window(current, total)[page - 1].Link? <==>
      page == 1 || page == total || current - 1 <= page <= current + 1
    ensures Window(current, total)[page - 1].Link? ==> Window(current, total)[page - 1].page == page
  {
  }

  /** With the current page in range, its link is the only active one. */
  lemma OneActiveLink(current: int, total: nat)
    requires 1 <= current <= total
    ensures Window(current, total)[current - 1] == Link(current, true)
    ensures forall i :: 0 <= i < total && i != current - 1 ==>
      !(Window(current, total)[i].Link? && Window(current, total)[i].active)
  {
  }

  /** An ellipsis stands only in the second or the last-but-one position. */
  lemma EllipsisPlaces(current: int, total: nat, page: int)
    requires 1 <= page <= total && Window(current, total)[page - 1] == Ellipsis
    ensures (page == 2 && current > 3) || (page == total - 1 && current < total - 2)
    ensures page != 1 && page != total && (page < current - 1 || page > current + 1)
  {
  }

  /** Every page left out of the row is marked: one before the current page by the ellipsis in
      position 2, one after it by the ellipsis in position `total - 1`. */
  lemma HiddenPagesMarked(current: int, total: nat, page: int)
    requires 1 <= current <= total && 1 <= page <= total
    requires Window(current, total)[page - 1] == Hidden
    ensures page < current ==> Window(current, total)[1] == Ellipsis
    ensures page > current ==> Window(current, total)[total - 2] == Ellipsis
  {
  }

  /** The ids on the shown page. */
  function PageIds(page: seq<Product>): (ids: set<string>)
    ensures forall id :: id in ids <==> exists i :: 0 <= i < |page| && page[i].id == id
  {
    set p | p in page :: p.id
  }

  /** `toggleSelectRow`'s new set: `id` changes membership and nothing else does. */
  function ToggledRow(selected: set<string>, id: string): (r: set<string>)
    ensures id in r <==> id !in selected
    ensures forall x :: x != id ==> (x in r <==> x in selected)
  {
    if id in selected then selected - {id} else selected + {id}
  }

  /** Toggling a row twice restores the selection. */
  lemma ToggleRowTwice(selected: set<string>, id: string)
    ensures ToggledRow(ToggledRow(selected, id), id) == selected
  {
  }

  /** The table's state: the search text, the selected row ids, the current page and the page
      size, over the shared product store. */
  class AdminProductsPage {
    var searchQuery: string
    var selectedRows: set<string>
    var currentPage: int
    var itemsPerPage: int
    const store: ProductStore

    ghost predicate Valid()
      reads this
    {
      currentPage >= 1 && itemsPerPage >= 1
    }

    constructor(productStore: ProductStore)
      ensures Valid() && store == productStore
      ensures searchQuery == "" && selectedRows == {} && currentPage == 1 && itemsPerPage == 10
    {
      searchQuery := "";
      selectedRows := {};
      currentPage := 1;
      itemsPerPage := 10;
      store := productStore;
    }

    function Filtered(): seq<Product>
      reads this, store
    {
      FilteredProducts(store.products, searchQuery)
    }

    function PageCount(): nat
      reads this, store
      requires Valid()
    {
      TotalPages(|Filtered()|, itemsPerPage)
    }

    function Paginated(): seq<Product>
      reads this, store
      requires Valid()
    {
      PageSlice(Filtered(), currentPage, itemsPerPage)
    }

    /** The search box's `onChange`, as written: only the text changes, so the current page
        is kept even when the new search has fewer pages. */
    method SetSearchQuery(q: string)
      requires Valid()
      modifies this
      ensures Valid() && searchQuery == q && currentPage == old(currentPage)
      ensures selectedRows == old(selectedRows) && itemsPerPage == old(itemsPerPage)
    {
      searchQuery := q;
    }

    /** The search box's `onChange` with the page reset the page-size menu already does: a new
        search is shown from its first page. */
    method SetSearchQueryFromFirstPage(q: string)
      requires Valid()
      modifies this
      ensures Valid() && searchQuery == q && currentPage == 1
      ensures selectedRows == old(selectedRows) && itemsPerPage == old(itemsPerPage)
      ensures Filtered() != [] ==> Paginated() != []
    {
      searchQuery := q;
      currentPage := 1;
      if Filtered() != [] {
        FirstPageShowsMatches(Filtered(), itemsPerPage);
      }
    }

    /** `toggleSelectRow`. */
    method ToggleSelectRow(id: string)
      modifies this
      ensures selectedRows == ToggledRow(old(selectedRows), id)
      ensures searchQuery == old(searchQuery) && currentPage == old(currentPage)
      ensures itemsPerPage == old(itemsPerPage)
    {
      var newSelectedRows := selectedRows;
      if id in selectedRows {
        newSelectedRows := newSelectedRows - {id};
      } else {
        newSelectedRows := newSelectedRows + {id};
      }
      selectedRows := newSelectedRows;
    }

    /** `toggleSelectAll`: when the selection has as many ids as the page has rows it is
        cleared, whichever ids they are; otherwise it becomes exactly the page's ids. */
    method ToggleSelectAll()
      requires Valid()
      modifies this
      ensures Valid()
      ensures |old(selectedRows)| == |old(Paginated())| ==> selectedRows == {}
      ensures |old(selectedRows)| != |old(Paginated())| ==> selectedRows == PageIds(old(Paginated()))
      ensures searchQuery == old(searchQuery) && currentPage == old(currentPage)
      ensures itemsPerPage == old(itemsPerPage)
    {
      var page := Paginated();
      if |selectedRows| == |page| {
        selectedRows := {};
      } else {
        selectedRows := PageIds(page);
      }
    }

    /** The state change of `handleDeleteProduct`; `ok` is whether the server accepted the
        deletion. On success the product leaves the store and its id leaves the selection, and
        every other selected id stays; on failure nothing changes. */
    method DeleteProduct(id: string, ok: bool)
      requires Valid()
      modifies this, store
      ensures Valid()
      ensures !ok ==> selectedRows == old(selectedRows) && store.products == old(store.products)
      ensures ok ==> store.products == Filter(old(store.products), OtherId(id))
      ensures ok ==> selectedRows == old(selectedRows) - {id}
      ensures ok ==> forall i :: 0 <= i < |store.products| ==> store.products[i].id != id
      ensures store.filteredProducts == old(store.filteredProducts)
      ensures searchQuery == old(searchQuery) && currentPage == old(currentPage)
      ensures itemsPerPage == old(itemsPerPage)
    {
      if !ok {
        return;
      }
      store.RemoveProduct(id);
      if id in selectedRows {
        var newSelectedRows := selectedRows;
        newSelectedRows := newSelectedRows - {id};
        selectedRows := newSelectedRows;
      }
    }

    /** "Previous", shown only when there is more than one page: one page back, never below 1. */
    method Previous()
      requires Valid() && PageCount() > 1
      modifies this
      ensures Valid()
      ensures currentPage == if old(currentPage) > 1 then old(currentPage) - 1 else 1
      ensures old(currentPage) <= PageCount() ==> currentPage <= PageCount()
      ensures searchQuery == old(searchQuery) && selectedRows == old(selectedRows)
      ensures itemsPerPage == old(itemsPerPage)
    {
      currentPage := if 1 >= currentPage - 1 then 1 else currentPage - 1;
    }

    /** "Next", shown only when there is more than one page: one page on, never past the last. */
    method Next()
      requires Valid() && PageCount() > 1
      modifies this
      ensures Valid() && 1 <= currentPage <= PageCount()
      ensures old(currentPage) < PageCount() ==> currentPage == old(currentPage) + 1
      ensures old(currentPage) >= PageCount() ==> currentPage == PageCount()
      ensures searchQuery == old(searchQuery) && selectedRows == old(selectedRows)
      ensures itemsPerPage == old(itemsPerPage)
    {
      currentPage := Min(PageCount(), currentPage + 1);
    }

    /** A click on the link of page `page`; links exist only for pages 1 to `totalPages`. */
    method GoToPage(page: int)
      requires Valid() && 1 <= page <= PageCount()
      modifies this
      ensures Valid() && currentPage == page && Paginated() != []
      ensures searchQuery == old(searchQuery) && selectedRows == old(selectedRows)
      ensures itemsPerPage == old(itemsPerPage)
    {
      currentPage := page;
      PageSizes(Filtered(), itemsPerPage, page);
    }

    /** The page-size menu (5, 10, 25 or 50 rows): the new size, shown from page 1. */
    method SetItemsPerPage(n: int)
      requires Valid() && (n == 5 || n == 10 || n == 25 || n == 50)
      modifies this
      ensures Valid() && itemsPerPage == n && currentPage == 1
      ensures searchQuery == old(searchQuery) && selectedRows == old(selectedRows)
    {
      itemsPerPage := n;
      currentPage := 1;
    }
  }

  /** With the page kept across a search, a search whose matches fit on one page leaves any
      later page empty, and with a single page the pagination row is not shown: the table says
      "No products found." while matches exist. */
  lemma StalePageShowsNothing(s: seq<Product>, page: int, n: int)
    requires n >= 1 && 1 <= |s| <= n && page >= 2
    ensures TotalPages(|s|, n) == 1
    ensures PageSlice(s, page, n) == []
  {
    var t := TotalPages(|s|, n);
    if t >= 2 {
      MulMonotone(t - 1, 1, n);
    }
    MulMonotone(page - 1, 1, n);
  }

  lemma MulMonotone(a: int, b: int, n: int)
    requires a >= b && n >= 0
    ensures a * n >= b * n
  {
    assert a * n == b * n + (a - b) * n;
  }

  /** The first page of a non-empty search shows its first rows. */
  lemma FirstPageShowsMatches(s: seq<Product>, n: int)
    requires n >= 1 && s != []
    ensures PageSlice(s, 1, n) == s[..Min(n, |s|)]
    ensures PageSlice(s, 1, n) != []
  {
  }
}
