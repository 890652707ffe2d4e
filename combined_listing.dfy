/**
 * The collection listing engine of the `combined-listing` element: the
 * active filter lists and price window, the filter predicate, the eight
 * sort modes, page slicing and the five-page pagination window.
 *
 * Products are plain records. The listing keeps them in `allProducts` (each
 * stamped with its original index) and derives `filteredProducts`,
 * `sortedProducts`, the current page and the pagination controls from the
 * active filters and the sort mode, the way the element's handlers do.
 */
module CombinedListing {
  import opened Optional

  function Min(a: int, b: int): int { if a <= b then a else b }
  function Max(a: int, b: int): int { if a >= b then a else b }

  /** A product card with the data attributes the listing reads. Prices and
      creation dates are integers (cents, milliseconds); the title takes part
      only through its rank in the locale collation order. */
  datatype Product = Product(
    productType: string,
    vendor: string,
    price: int,
    sales: int,
    created: int,
    titleRank: int,
    originalIndex: nat)

  // ---------------------------------------------------------------------
  // Duplicate-free value lists
  // ---------------------------------------------------------------------

  predicate NoDuplicates<T(==)>(s: seq<T>) {
    forall i, j :: 0 <= i < j < |s| ==> s[i] != s[j]
  }

  /** `r` is `s` with some elements left out, in the same order. */
  ghost predicate SubsequenceOf<T>(r: seq<T>, s: seq<T>)
    decreases |s|
  {
    if s == [] then r == []
    else (r != [] && r[0] == s[0] && SubsequenceOf(r[1..], s[1..])) || SubsequenceOf(r, s[1..])
  }

  lemma {:induction false} SubsequenceReflexive<T>(s: seq<T>)
    ensures SubsequenceOf(s, s)
    decreases |s|
  {
    if s != [] {
      SubsequenceReflexive(s[1..]);
    }
  }

  lemma {:induction false} SubsequenceMembers<T>(r: seq<T>, s: seq<T>)
    requires SubsequenceOf(r, s)
    ensures forall x :: x in r ==> x in s
    decreases |s|
  {
    if s != [] {
      if r != [] && r[0] == s[0] && SubsequenceOf(r[1..], s[1..]) {
        SubsequenceMembers(r[1..], s[1..]);
        assert r == [r[0]] + r[1..];
      } else {
        SubsequenceMembers(r, s[1..]);
      }
    }
  }

  /** Checking a filter value: `push` unless already `includes`d. */
  function AddValue(list: seq<string>, v: string): (r: seq<string>)
    ensures forall x :: x in r <==> x in list || x == v
    ensures NoDuplicates(list) ==> NoDuplicates(r)
    ensures v in list ==> r == list
    ensures |list| <= |r| && r[..|list|] == list
  {
    if v in list then list else list + [v]
  }

  /** Unchecking a filter value: keep every element different from it. */
  function RemoveValue(list: seq<string>, v: string): (r: seq<string>)
    ensures forall x :: x in r <==> x in list && x != v
    ensures NoDuplicates(list) ==> NoDuplicates(r)
  {
    if list == [] then []
    else
      assert forall x :: x in list <==> x == list[0] || x in list[1..];
      if list[0] == v then RemoveValue(list[1..], v)
      else
        assert NoDuplicates(list) ==> list[0] !in list[1..] && NoDuplicates(list[1..]);
        [list[0]] + RemoveValue(list[1..], v)
  }

  /** Unchecking keeps the remaining values in their order. */
  lemma {:induction false} RemoveValueKeepsOrder(list: seq<string>, v: string)
    ensures SubsequenceOf(RemoveValue(list, v), list)
  {
    if list != [] {
      RemoveValueKeepsOrder(list[1..], v);
    }
  }

  // ---------------------------------------------------------------------
  // Filters
  // ---------------------------------------------------------------------

  /** `activeFilters`: selected product types and vendors, and the price
      window [minPrice, maxPrice]; `None` for `maxPrice` is `Infinity`. */
  datatype Filters = Filters(productTypes: seq<string>, vendors: seq<string>, minPrice: int, maxPrice: Option<int>)

  /** The filters a fresh listing starts with and a clear resets to. */
  const NoFilters := Filters([], [], 0, None)

  /** The predicate of `applyFilters`. */
  predicate Matches(f: Filters, p: Product) {
    && (|f.productTypes| == 0 || p.productType in f.productTypes)
    && (|f.vendors| == 0 || p.vendor in f.vendors)
    && !(p.price < f.minPrice || (f.maxPrice.Some? && p.price > f.maxPrice.value))
  }

  /** `allProducts.filter(...)`. */
  function FilterProducts(s: seq<Product>, f: Filters): (r: seq<Product>)
    ensures forall p :: p in r <==> p in s && Matches(f, p)
    ensures |r| <= |s|
  {
    if s == [] then []
    else if Matches(f, s[0]) then [s[0]] + FilterProducts(s[1..], f)
    else FilterProducts(s[1..], f)
  }

  /** The filtered list keeps the order of the catalogue. */
  lemma {:induction false} FilterIsSubsequence(s: seq<Product>, f: Filters)
    ensures SubsequenceOf(FilterProducts(s, f), s)
  {
    if s != [] {
      FilterIsSubsequence(s[1..], f);
    }
  }

  /** With no type or vendor selected and the window [0, Infinity), a product
      is kept exactly when its price is not negative. */
  lemma NoFiltersKeepsPriced(p: Product)
    ensures Matches(NoFilters, p) <==> p.price >= 0
  {
  }

  // ---------------------------------------------------------------------
  // Sorting
  // ---------------------------------------------------------------------

  datatype SortMode =
    | BestSelling | TitleAscending | TitleDescending | PriceAscending | PriceDescending
    | CreatedAscending | CreatedDescending | Manual

  /** The `switch (this.sortBy)` of `applySorting`: unknown values sort manually. */
  function ModeOf(sortBy: string): SortMode {
    if sortBy == "best-selling" then BestSelling
    else if sortBy == "title-ascending" then TitleAscending
    else if sortBy == "title-descending" then TitleDescending
    else if sortBy == "price-ascending" then PriceAscending
    else if sortBy == "price-descending" then PriceDescending
    else if sortBy == "created-ascending" then CreatedAscending
    else if sortBy == "created-descending" then CreatedDescending
    else Manual
  }

  /** Each comparator of `applySorting` is `key(a) - key(b)` for this key:
      a descending comparator `b - a` is the ascending one on the negated key. */
  function KeyOf(mode: SortMode): Product -> int {
    match mode
    case BestSelling => (p: Product) => -p.sales
    case TitleAscending => (p: Product) => p.titleRank
    case TitleDescending => (p: Product) => -p.titleRank
    case PriceAscending => (p: Product) => p.price
    case PriceDescending => (p: Product) => -p.price
    case CreatedAscending => (p: Product) => p.created
    case CreatedDescending => (p: Product) => -p.created
    case Manual => (p: Product) => p.originalIndex
  }

  predicate SortedBy<T>(key: T -> int, s: seq<T>) {
    forall i, j :: 0 <= i < j < |s| ==> key(s[i]) <= key(s[j])
  }

  /** Puts `x` in front of the first element whose key is not smaller. */
  function Insert<T>(key: T -> int, x: T, s: seq<T>): seq<T>
  {
    if s == [] then [x]
    else if key(x) <= key(s[0]) then [x] + s
    else [s[0]] + Insert(key, x, s[1..])
  }

  /** Inserting adds exactly `x`. */
  lemma {:induction false} InsertAddsOne<T>(key: T -> int, x: T, s: seq<T>)
    ensures multiset(Insert(key, x, s)) == multiset(s) + multiset{x}
  {
    if s != [] && key(x) > key(s[0]) {
      InsertAddsOne(key, x, s[1..]);
      assert s == [s[0]] + s[1..];
    }
  }

  /** The stable sort `Array.prototype.sort` performs with a comparator
      `key(a) - key(b)`. */
  function SortBy<T>(key: T -> int, s: seq<T>): seq<T>
  {
    if s == [] then [] else Insert(key, s[0], SortBy(key, s[1..]))
  }

  /** Inserting adds one element. */
  lemma {:induction false} InsertLength<T>(key: T -> int, x: T, s: seq<T>)
    ensures |Insert(key, x, s)| == |s| + 1
  {
    if s != [] && key(x) > key(s[0]) {
      InsertLength(key, x, s[1..]);
    }
  }

  /** Sorting keeps the length. */
  lemma {:induction false} SortLength<T>(key: T -> int, s: seq<T>)
    ensures |SortBy(key, s)| == |s|
  {
    if s != [] {
      SortLength(key, s[1..]);
      InsertLength(key, s[0], SortBy(key, s[1..]));
    }
  }

  /** Sorting is a permutation. */
  lemma {:induction false} SortPermutes<T>(key: T -> int, s: seq<T>)
    ensures multiset(SortBy(key, s)) == multiset(s)
    ensures |SortBy(key, s)| == |s|
  {
    if s != [] {
      SortPermutes(key, s[1..]);
      InsertAddsOne(key, s[0], SortBy(key, s[1..]));
      assert s == [s[0]] + s[1..];
    }
    assert |multiset(SortBy(key, s))| == |multiset(s)|;
  }

  /** Sorting puts the keys in non-decreasing order. */
  lemma {:induction false} SortOrders<T>(key: T -> int, s: seq<T>)
    ensures SortedBy(key, SortBy(key, s))
  {
    if s != [] {
      SortOrders(key, s[1..]);
      InsertKeepsOrder(key, s[0], SortBy(key, s[1..]));
    }
  }

  /** `applySorting` on a copy of the filtered list. */
  function SortProducts(mode: SortMode, s: seq<Product>): seq<Product> {
    SortBy(KeyOf(mode), s)
  }

  /** Inserting into a list in order gives a list in order. */
  lemma {:induction false} InsertKeepsOrder<T>(key: T -> int, x: T, s: seq<T>)
    requires SortedBy(key, s)
    ensures SortedBy(key, Insert(key, x, s))
  {
    if s == [] {
    } else if key(x) <= key(s[0]) {
      SortedCons(key, x, s);
    } else {
      var t := Insert(key, x, s[1..]);
      SortedTail(key, s);
      InsertKeepsOrder(key, x, s[1..]);
      InsertAddsOne(key, x, s[1..]);
      forall k | 0 <= k < |t| ensures key(s[0]) <= key(t[k]) {
        assert t[k] in multiset(t);
        if t[k] != x {
          assert t[k] in multiset(s[1..]);
          var j :| 0 <= j < |s[1..]| && s[1..][j] == t[k];
          assert s[1..][j] == s[j + 1];
        }
      }
      SortedCons(key, s[0], t);
    }
  }

  /** A list in order stays in order behind a smallest element. */
  lemma SortedCons<T>(key: T -> int, a: T, t: seq<T>)
    requires SortedBy(key, t)
    requires forall k :: 0 <= k < |t| ==> key(a) <= key(t[k])
    ensures SortedBy(key, [a] + t)
  {
    var r := [a] + t;
    forall i, j | 0 <= i < j < |r| ensures key(r[i]) <= key(r[j]) {
      assert r[j] == t[j - 1];
      if i > 0 {
        assert r[i] == t[i - 1];
      }
    }
  }

  /** The tail of a list in order is in order. */
  lemma SortedTail<T>(key: T -> int, s: seq<T>)
    requires s != [] && SortedBy(key, s)
    ensures SortedBy(key, s[1..])
  {
    forall i, j | 0 <= i < j < |s| - 1 ensures key(s[1..][i]) <= key(s[1..][j]) {
      assert s[1..][i] == s[i + 1] && s[1..][j] == s[j + 1];
    }
  }

  /** The elements of `s` whose key is `v`, in order. */
  function WithKey<T>(key: T -> int, s: seq<T>, v: int): seq<T> {
    if s == [] then []
    else (if key(s[0]) == v then [s[0]] else []) + WithKey(key, s[1..], v)
  }

  lemma WithKeyCons<T>(key: T -> int, x: T, s: seq<T>, v: int)
    ensures WithKey(key, [x] + s, v) == (if key(x) == v then [x] else []) + WithKey(key, s, v)
  {
    assert ([x] + s)[1..] == s;
  }

  lemma {:induction false} InsertWithKey<T>(key: T -> int, x: T, s: seq<T>, v: int)
    ensures WithKey(key, Insert(key, x, s), v) == (if key(x) == v then [x] else []) + WithKey(key, s, v)
  {
    if s == [] || key(x) <= key(s[0]) {
      WithKeyCons(key, x, s, v);
    } else {
      InsertWithKey(key, x, s[1..], v);
      InsertWithKeyStep(key, x, s, v);
    }
  }

  /** The step of `InsertWithKey` where `x` goes behind the head `s[0]`:
      the head has a smaller key, so it is never among the keys equal to `x`'s. */
  lemma InsertWithKeyStep<T>(key: T -> int, x: T, s: seq<T>, v: int)
    requires s != [] && key(x) > key(s[0])
    requires WithKey(key, Insert(key, x, s[1..]), v) == (if key(x) == v then [x] else []) + WithKey(key, s[1..], v)
    ensures WithKey(key, Insert(key, x, s), v) == (if key(x) == v then [x] else []) + WithKey(key, s, v)
  {
    var t := Insert(key, x, s[1..]);
    assert Insert(key, x, s) == [s[0]] + t;
    WithKeyCons(key, s[0], t, v);
    WithKeyCons(key, s[0], s[1..], v);
    assert s == [s[0]] + s[1..];
    if key(x) == v {
      assert WithKey(key, s, v) == WithKey(key, s[1..], v);
      assert WithKey(key, Insert(key, x, s), v) == WithKey(key, t, v);
    }
  }

  /** Sorting is stable: elements with equal keys keep their relative order. */
  lemma {:induction false} SortIsStable<T>(key: T -> int, s: seq<T>, v: int)
    ensures WithKey(key, SortBy(key, s), v) == WithKey(key, s, v)
  {
    if s != [] {
      SortIsStable(key, s[1..], v);
      InsertWithKey(key, s[0], SortBy(key, s[1..]), v);
    }
  }

  /** Sorting a list that is already in order changes nothing. */
  lemma {:induction false} SortSortedIsIdentity<T>(key: T -> int, s: seq<T>)
    requires SortedBy(key, s)
    ensures SortBy(key, s) == s
  {
    if s != [] {
      SortedTail(key, s);
      SortSortedIsIdentity(key, s[1..]);
      assert s == [s[0]] + s[1..];
      assert |s| == 1 || key(s[0]) <= key(s[1..][0]);
    }
  }

  /** price-ascending gives non-decreasing prices and price-descending
      non-increasing ones, each a permutation of the input. */
  lemma SortByPrice(s: seq<Product>)
    ensures var r := SortProducts(PriceAscending, s);
      multiset(r) == multiset(s) && forall i, j :: 0 <= i < j < |r| ==> r[i].price <= r[j].price
    ensures var r := SortProducts(PriceDescending, s);
      multiset(r) == multiset(s) && forall i, j :: 0 <= i < j < |r| ==> r[i].price >= r[j].price
  {
    SortPermutes(KeyOf(PriceAscending), s);
    SortOrders(KeyOf(PriceAscending), s);
    SortPermutes(KeyOf(PriceDescending), s);
    SortOrders(KeyOf(PriceDescending), s);
    var up := SortProducts(PriceAscending, s);
    assert forall i, j :: 0 <= i < j < |up| ==> KeyOf(PriceAscending)(up[i]) <= KeyOf(PriceAscending)(up[j]);
    var down := SortProducts(PriceDescending, s);
    assert forall i, j :: 0 <= i < j < |down| ==> KeyOf(PriceDescending)(down[i]) <= KeyOf(PriceDescending)(down[j]);
  }

  /** A subsequence of a list in order is in order. */
  lemma {:induction false} SubsequenceKeepsOrder<T>(key: T -> int, r: seq<T>, s: seq<T>)
    requires SubsequenceOf(r, s) && SortedBy(key, s)
    ensures SortedBy(key, r)
    decreases |s|
  {
    if s != [] {
      SortedTail(key, s);
      if r != [] && r[0] == s[0] && SubsequenceOf(r[1..], s[1..]) {
        SubsequenceKeepsOrder(key, r[1..], s[1..]);
        SubsequenceMembers(r[1..], s[1..]);
        forall k | 0 <= k < |r[1..]| ensures key(r[0]) <= key(r[1..][k]) {
          assert r[1..][k] in r[1..];
          var j :| 0 <= j < |s[1..]| && s[1..][j] == r[1..][k];
          assert s[1..][j] == s[j + 1];
        }
        SortedCons(key, r[0], r[1..]);
        assert r == [r[0]] + r[1..];
      } else {
        SubsequenceKeepsOrder(key, r, s[1..]);
      }
    }
  }

  /** The manual order is the catalogue order: sorting manually a list taken
      in catalogue order from a catalogue stamped with its indexes gives the
      list back unchanged. */
  lemma ManualRestoresCatalogueOrder(all: seq<Product>, s: seq<Product>)
    requires forall i :: 0 <= i < |all| ==> all[i].originalIndex == i
    requires SubsequenceOf(s, all)
    ensures SortProducts(Manual, s) == s
  {
    assert SortedBy(KeyOf(Manual), all);
    SubsequenceKeepsOrder(KeyOf(Manual), s, all);
    SortSortedIsIdentity(KeyOf(Manual), s);
  }

  // ---------------------------------------------------------------------
  // Pages
  // ---------------------------------------------------------------------

  /** `Math.ceil(n / d)` on a non-negative count and a positive page size. */
  function CeilDiv(n: nat, d: nat): nat
    requires d > 0
    decreases n
  {
    if n == 0 then 0 else if n <= d then 1 else 1 + CeilDiv(n - d, d)
  }

  /** `CeilDiv(n, d)` is the least number of pages of `d` items that hold
      `n` items. */
  lemma {:induction false} CeilDivBounds(n: nat, d: nat)
    requires d > 0
    ensures n == 0 ==> CeilDiv(n, d) == 0
    ensures n > 0 ==> (CeilDiv(n, d) - 1) * d < n <= CeilDiv(n, d) * d
    decreases n
  {
    if n > d {
      CeilDivBounds(n - d, d);
    }
  }

  /** `sortedProducts.slice(startIndex, startIndex + perPage)` with
      `startIndex = (page - 1) * perPage`. */
  function PageSlice<T>(s: seq<T>, page: int, perPage: int): seq<T>
    requires page >= 1 && perPage > 0
  {
    var start := PageStart(page, perPage);
    if start >= |s| then [] else s[start..Min(|s|, start + perPage)]
  }

  /** `(page - 1) * perPage`, the index of the first item of a page. */
  function PageStart(page: int, perPage: nat): nat
    requires page >= 1
    decreases page
  {
    if page == 1 then 0 else PageStart(page - 1, perPage) + perPage
  }

  lemma {:induction false} PageStartIsProduct(page: int, perPage: nat)
    requires page >= 1
    ensures PageStart(page, perPage) == (page - 1) * perPage
    decreases page
  {
    if page > 1 {
      PageStartIsProduct(page - 1, perPage);
    }
  }

  /** Page `page` holds the items from index `(page - 1) * perPage` on, at
      most `perPage` of them. */
  lemma PageSliceContents<T>(s: seq<T>, page: int, perPage: int)
    requires page >= 1 && perPage > 0
    ensures var r := PageSlice(s, page, perPage);
      && |r| == Max(0, Min(perPage, |s| - (page - 1) * perPage))
      && forall k :: 0 <= k < |r| ==> r[k] == s[(page - 1) * perPage + k]
  {
    PageStartIsProduct(page, perPage);
    MulMonotonic(0, page - 1, perPage);
  }

  /** A page shows something exactly when it is one of the `totalPages` pages. */
  lemma PageNonEmptyIff<T>(s: seq<T>, page: int, perPage: int)
    requires page >= 1 && perPage > 0
    ensures |PageSlice(s, page, perPage)| > 0 <==> page <= CeilDiv(|s|, perPage)
  {
    var t := CeilDiv(|s|, perPage);
    CeilDivBounds(|s|, perPage);
    PageSliceContents(s, page, perPage);
    var start := (page - 1) * perPage;
    if page <= t {
      MulMonotonic(page - 1, t - 1, perPage);
      assert start < |s|;
    } else {
      MulMonotonic(t, page - 1, perPage);
      assert start >= |s|;
    }
  }

  lemma MulMonotonic(a: int, b: int, c: nat)
    requires a <= b
    ensures a * c <= b * c
  {
    assert b * c - a * c == (b - a) * c;
  }

  /** The page numbers `updatePagination` shows: up to five, centred on the
      current page where possible. The window is `start..end`, empty when
      `end < start`. */
  function PageWindow(current: int, total: int): (int, int) {
    var start := Max(1, current - 5 / 2);
    var end := Min(total, start + 5 - 1);
    if end - start + 1 < 5 then (Max(1, end - 5 + 1), end) else (start, end)
  }

  /** The window holds at most five pages, each between 1 and `total`; it
      holds the current page whenever that page exists; and it is as full as
      the page count allows. */
  lemma PageWindowContract(current: int, total: int)
    ensures var (s, e) := PageWindow(current, total);
      && 1 <= s
      && e <= total
      && e - s + 1 <= 5
      && (1 <= current <= total ==> s <= current <= e)
      && (current >= 1 && total >= 0 ==> Max(0, e - s + 1) == Min(5, total))
  {
  }

  /** One page-number button: its page and whether it is marked active. */
  datatype PageButton = PageButton(page: int, active: bool)

  /** The page-button loop of `updatePagination`. */
  method BuildPageButtons(current: int, total: int) returns (buttons: seq<PageButton>)
    ensures var (s, e) := PageWindow(current, total);
      && |buttons| == Max(0, e - s + 1)
      && forall k :: 0 <= k < |buttons| ==> buttons[k].page == s + k
    ensures forall k :: 0 <= k < |buttons| ==> 1 <= buttons[k].page <= total
    ensures forall k :: 0 <= k < |buttons| ==> (buttons[k].active <==> buttons[k].page == current)
    ensures |buttons| <= 5
    ensures current >= 1 && total >= 0 ==> |buttons| == Min(5, total)
    ensures 1 <= current <= total <==> exists k :: 0 <= k < |buttons| && buttons[k].active
  {
    PageWindowContract(current, total);
    var (startPage, endPage) := PageWindow(current, total);
    buttons := [];
    var i := startPage;
    while i <= endPage
      invariant startPage <= i <= Max(startPage, endPage + 1)
      invariant |buttons| == i - startPage
      invariant forall k :: 0 <= k < |buttons| ==> buttons[k] == PageButton(startPage + k, startPage + k == current)
    {
      buttons := buttons + [PageButton(i, i == current)];
      i := i + 1;
    }
    if 1 <= current <= total {
      assert buttons[current - startPage].active;
    }
  }

  // ---------------------------------------------------------------------
  // The listing element
  // ---------------------------------------------------------------------

  datatype FilterKind = ProductTypeFilter | VendorFilter

  /** Stamps every product with its position, as `setupProducts` does. */
  method SetupProducts(products: seq<Product>) returns (all: seq<Product>)
    ensures |all| == |products|
    ensures forall i :: 0 <= i < |all| ==> all[i] == products[i].(originalIndex := i)
  {
    all := [];
    for i := 0 to |products|
      invariant |all| == i
      invariant forall k :: 0 <= k < i ==> all[k] == products[k].(originalIndex := k)
    {
      all := all + [products[i].(originalIndex := i)];
    }
  }

  class Listing {
    const allProducts: seq<Product>
    const productsPerPage: int
    const enablePagination: bool
    /** Whether the `[data-pagination]` element (with its buttons) exists. */
    const hasPagination: bool
    /** Whether the `[data-no-results]` element exists. */
    const hasNoResults: bool

    var activeFilters: Filters
    /** The sort select's value, as the `switch` of `applySorting` reads it. */
    var sortBy: SortMode
    var filteredProducts: seq<Product>
    var sortedProducts: seq<Product>
    var currentPage: int
    /** 0 stands for `undefined` while pagination is disabled: every
        comparison the element makes against it then fails as well. */
    var totalPages: int
    var prevDisabled: bool
    var nextDisabled: bool
    var pageButtons: seq<PageButton>
    /** The products with `display: block`. */
    var visibleProducts: seq<Product>
    var noResultsVisible: bool

    /** The part of the invariant that does not involve the product lists. */
    ghost predicate Settled()
      reads this`activeFilters, this`totalPages, this`pageButtons, this`currentPage
    {
      && productsPerPage > 0
      && (forall i :: 0 <= i < |allProducts| ==> allProducts[i].originalIndex == i)
      && NoDuplicates(activeFilters.productTypes)
      && NoDuplicates(activeFilters.vendors)
      && (!enablePagination ==> totalPages == 0)
      && (enablePagination && !hasPagination ==> totalPages == CeilDiv(|allProducts|, productsPerPage))
      && (forall k :: 0 <= k < |pageButtons| ==> 1 <= pageButtons[k].page <= totalPages)
      && currentPage >= 1
    }

    ghost predicate Valid()
      reads this`activeFilters, this`totalPages, this`pageButtons, this`currentPage
      reads this`sortBy, this`filteredProducts, this`sortedProducts
    {
      && Settled()
      && SubsequenceOf(filteredProducts, allProducts)
      && sortedProducts == SortProducts(sortBy, filteredProducts)
      && (enablePagination && hasPagination ==> totalPages == CeilDiv(|sortedProducts|, productsPerPage))
      && currentPage <= Max(1, totalPages)
    }

    /** The products `updateDisplay` shows: the current page of the sorted
        list, or all of it without pagination. */
    ghost function PageContents(): seq<Product>
      reads this`sortedProducts, this`currentPage
      requires productsPerPage > 0 && currentPage >= 1
    {
      if enablePagination then PageSlice(sortedProducts, currentPage, productsPerPage) else sortedProducts
    }

    /** The pagination as `updatePagination` draws it: the page count of
        the sorted list, the arrows disabled at the first and last page, and
        the window of page buttons around the current page with the current
        one marked. */
    ghost predicate PaginationDrawn()
      reads this`totalPages, this`prevDisabled, this`nextDisabled, this`pageButtons
      reads this`currentPage, this`sortedProducts
      requires productsPerPage > 0
    {
      && totalPages == CeilDiv(|sortedProducts|, productsPerPage)
      && prevDisabled == (currentPage <= 1)
      && nextDisabled == (currentPage >= totalPages)
      && (var (s, e) := PageWindow(currentPage, totalPages);
          |pageButtons| == Max(0, e - s + 1) &&
          forall k :: 0 <= k < |pageButtons| ==>
            pageButtons[k].page == s + k && (pageButtons[k].active <==> s + k == currentPage))
    }

    /** The element after `updatePagination` and `updateDisplay`, from the
        given page count, arrows, buttons and no-results state: the
        pagination is drawn when it is on and its element exists (and is
        kept otherwise), the current page is shown, and the no-results
        element shows exactly when nothing is left (kept when it does not
        exist). */
    ghost predicate Redrawn(total: int, prev: bool, next: bool, buttons: seq<PageButton>, noResults: bool)
      reads this`totalPages, this`prevDisabled, this`nextDisabled, this`pageButtons
      reads this`currentPage, this`sortedProducts, this`visibleProducts, this`noResultsVisible
    {
      && productsPerPage > 0 && currentPage >= 1
      && (if enablePagination && hasPagination then PaginationDrawn()
          else totalPages == total && prevDisabled == prev && nextDisabled == next && pageButtons == buttons)
      && visibleProducts == PageContents()
      && noResultsVisible == (if hasNoResults then |sortedProducts| == 0 else noResults)
    }

    /** The element's constructor and `init`. `perPageAttribute` is
        `parseInt(data-products-per-page)`, `None` when not a number. */
    constructor (products: seq<Product>, perPageAttribute: Option<int>,
                 enablePagination: bool, hasPagination: bool, hasNoResults: bool)
      requires perPageAttribute.None? || perPageAttribute.value >= 0
      ensures Valid()
      ensures |allProducts| == |products|
      ensures forall i :: 0 <= i < |products| ==> allProducts[i] == products[i].(originalIndex := i)
      ensures productsPerPage == if perPageAttribute == None || perPageAttribute == Some(0) then 12 else perPageAttribute.value
      ensures activeFilters == NoFilters && sortBy == Manual
      ensures filteredProducts == allProducts && sortedProducts == allProducts
      ensures currentPage == 1
      ensures Redrawn(if enablePagination then CeilDiv(|allProducts|, productsPerPage) else 0, false, false, [], false)
    {
      var all := SetupProducts(products);
      SubsequenceReflexive(all);
      ManualRestoresCatalogueOrder(all, all);
      var perPage := if perPageAttribute == None || perPageAttribute == Some(0) then 12 else perPageAttribute.value;
      this.allProducts := all;
      this.productsPerPage := perPage;
      this.enablePagination := enablePagination;
      this.hasPagination := hasPagination;
      this.hasNoResults := hasNoResults;
      activeFilters := NoFilters;
      sortBy := Manual;
      filteredProducts := all;
      sortedProducts := all;
      currentPage := 1;
      totalPages := 0;
      prevDisabled := false;
      nextDisabled := false;
      pageButtons := [];
      visibleProducts := [];
      noResultsVisible := false;
      new;
      Init();
    }

    /** The drawing half of `init`: the pagination of the whole catalogue
        and the first page, from the blank state the constructor leaves. */
    method Init()
      modifies this`totalPages, this`prevDisabled, this`nextDisabled, this`pageButtons
      modifies this`visibleProducts, this`noResultsVisible
      requires productsPerPage > 0 && currentPage == 1 && totalPages == 0 && pageButtons == []
      requires !prevDisabled && !nextDisabled && !noResultsVisible
      requires forall i :: 0 <= i < |allProducts| ==> allProducts[i].originalIndex == i
      requires NoDuplicates(activeFilters.productTypes) && NoDuplicates(activeFilters.vendors)
      requires SubsequenceOf(filteredProducts, allProducts) && |sortedProducts| == |allProducts|
      requires sortedProducts == SortProducts(sortBy, filteredProducts)
      ensures Valid()
      ensures Redrawn(if enablePagination then CeilDiv(|allProducts|, productsPerPage) else 0, false, false, [], false)
    {
      SetupPagination();
      UpdateDisplay();
    }

    /** `setupPagination`: with pagination on, the page count of the whole
        catalogue and the pagination state it implies. */
    method SetupPagination()
      modifies this`totalPages, this`prevDisabled, this`nextDisabled, this`pageButtons
      requires productsPerPage > 0 && currentPage == 1 && totalPages == 0 && pageButtons == []
      requires forall i :: 0 <= i < |allProducts| ==> allProducts[i].originalIndex == i
      requires NoDuplicates(activeFilters.productTypes) && NoDuplicates(activeFilters.vendors)
      requires SubsequenceOf(filteredProducts, allProducts) && |sortedProducts| == |allProducts|
      requires sortedProducts == SortProducts(sortBy, filteredProducts)
      ensures Valid()
      ensures totalPages == if enablePagination then CeilDiv(|allProducts|, productsPerPage) else 0
      ensures enablePagination && hasPagination ==> PaginationDrawn()
      ensures !(enablePagination && hasPagination) ==>
        prevDisabled == old(prevDisabled) && nextDisabled == old(nextDisabled) && pageButtons == old(pageButtons)
    {
      if !enablePagination {
        return;
      }
      totalPages := CeilDiv(|allProducts|, productsPerPage);
      UpdatePagination();
    }

    /** `updatePagination`: the page count, the arrow states and the page
        buttons, when pagination is on and its element exists. */
    method UpdatePagination()
      modifies this`totalPages, this`prevDisabled, this`nextDisabled, this`pageButtons
      requires productsPerPage > 0
      ensures enablePagination && hasPagination ==>
        PaginationDrawn() && (forall k :: 0 <= k < |pageButtons| ==> 1 <= pageButtons[k].page <= totalPages)
      ensures !(enablePagination && hasPagination) ==>
        unchanged(this`totalPages, this`prevDisabled, this`nextDisabled, this`pageButtons)
    {
      if !enablePagination || !hasPagination {
        return;
      }
      totalPages := CeilDiv(|sortedProducts|, productsPerPage);
      prevDisabled := currentPage <= 1;
      nextDisabled := currentPage >= totalPages;
      pageButtons := BuildPageButtons(currentPage, totalPages);
    }

    /** `updateDisplay`: show the current page and the no-results state. */
    method UpdateDisplay()
      modifies this`visibleProducts, this`noResultsVisible
      requires productsPerPage > 0 && currentPage >= 1
      ensures visibleProducts == PageContents()
      ensures noResultsVisible == if hasNoResults then |sortedProducts| == 0 else old(noResultsVisible)
    {
      visibleProducts := if enablePagination then PageSlice(sortedProducts, currentPage, productsPerPage) else sortedProducts;
      if hasNoResults {
        noResultsVisible := |sortedProducts| == 0;
      }
    }

    /** `updatePagination` followed by `updateDisplay`, the redraw every
        filter and page change ends with. */
    method Redraw()
      modifies this`totalPages, this`prevDisabled, this`nextDisabled, this`pageButtons
      modifies this`visibleProducts, this`noResultsVisible
      requires productsPerPage > 0 && currentPage >= 1
      ensures Redrawn(old(totalPages), old(prevDisabled), old(nextDisabled), old(pageButtons), old(noResultsVisible))
      ensures enablePagination && hasPagination ==> forall k :: 0 <= k < |pageButtons| ==> 1 <= pageButtons[k].page <= totalPages
    {
      UpdatePagination();
      UpdateDisplay();
    }

    /** `applySorting`: sort a copy of the filtered list by the current mode. */
    method ApplySorting()
      modifies this`sortedProducts
      ensures sortedProducts == SortProducts(sortBy, filteredProducts)
    {
      sortedProducts := SortProducts(sortBy, filteredProducts);
    }

    /** `applyFilters`: filter, sort, go back to page 1 and redraw. */
    method ApplyFilters()
      modifies this`filteredProducts, this`sortedProducts, this`currentPage
      modifies this`totalPages, this`prevDisabled, this`nextDisabled, this`pageButtons
      modifies this`visibleProducts, this`noResultsVisible
      requires Settled()
      ensures Valid()
      ensures filteredProducts == FilterProducts(allProducts, activeFilters)
      ensures sortedProducts == SortProducts(sortBy, filteredProducts)
      ensures currentPage == 1
      ensures Redrawn(old(totalPages), old(prevDisabled), old(nextDisabled), old(pageButtons), old(noResultsVisible))
    {
      filteredProducts := FilterProducts(allProducts, activeFilters);
      FilterIsSubsequence(allProducts, activeFilters);
      ApplySorting();
      currentPage := 1;
      Redraw();
    }

    /** `handleFilterChange` for a type or vendor checkbox. */
    method HandleFilterChange(kind: FilterKind, value: string, checked: bool)
      modifies this
      requires Valid()
      ensures Valid()
      ensures kind == ProductTypeFilter ==>
        && activeFilters.productTypes == (if checked then AddValue(old(activeFilters.productTypes), value) else RemoveValue(old(activeFilters.productTypes), value))
        && activeFilters.vendors == old(activeFilters.vendors)
      ensures kind == VendorFilter ==>
        && activeFilters.vendors == (if checked then AddValue(old(activeFilters.vendors), value) else RemoveValue(old(activeFilters.vendors), value))
        && activeFilters.productTypes == old(activeFilters.productTypes)
      ensures activeFilters.minPrice == old(activeFilters.minPrice) && activeFilters.maxPrice == old(activeFilters.maxPrice)
      ensures sortBy == old(sortBy)
      ensures filteredProducts == FilterProducts(allProducts, activeFilters)
      ensures currentPage == 1 && Redrawn(old(totalPages), old(prevDisabled), old(nextDisabled), old(pageButtons), old(noResultsVisible))
    {
      var f := activeFilters;
      match kind {
        case ProductTypeFilter =>
          activeFilters := f.(productTypes := if checked then AddValue(f.productTypes, value) else RemoveValue(f.productTypes, value));
        case VendorFilter =>
          activeFilters := f.(vendors := if checked then AddValue(f.vendors, value) else RemoveValue(f.vendors, value));
      }
      ApplyFilters();
    }

    /** `handlePriceInput`: `value` is `parseFloat(input.value)`, `None` when
        not a number; `|| 0` turns that into 0, and a maximum of 0 means no
        upper bound. */
    method HandlePriceInput(isMin: bool, value: Option<int>)
      modifies this
      requires Valid()
      ensures Valid()
      ensures var v := if value == None then 0 else value.value;
        if isMin then activeFilters == old(activeFilters).(minPrice := v)
        else activeFilters == old(activeFilters).(maxPrice := if v == 0 then None else Some(v))
      ensures sortBy == old(sortBy)
      ensures filteredProducts == FilterProducts(allProducts, activeFilters)
      ensures currentPage == 1 && Redrawn(old(totalPages), old(prevDisabled), old(nextDisabled), old(pageButtons), old(noResultsVisible))
    {
      var v := if value == None then 0 else value.value;
      if isMin {
        activeFilters := activeFilters.(minPrice := v);
      } else {
        activeFilters := activeFilters.(maxPrice := if v == 0 then None else Some(v));
      }
      ApplyFilters();
    }

    /** `handleFilterClear`: back to no type, no vendor and [0, Infinity). */
    method HandleFilterClear()
      modifies this
      requires Valid()
      ensures Valid()
      ensures activeFilters == NoFilters && sortBy == old(sortBy)
      ensures filteredProducts == FilterProducts(allProducts, NoFilters)
      ensures currentPage == 1 && Redrawn(old(totalPages), old(prevDisabled), old(nextDisabled), old(pageButtons), old(noResultsVisible))
    {
      activeFilters := NoFilters;
      ApplyFilters();
    }

    /** `handleSortChange`: re-sorts without redrawing. */
    method HandleSortChange(value: string)
      modifies this`sortBy, this`sortedProducts
      requires Valid()
      ensures Valid()
      ensures sortBy == ModeOf(value)
      ensures sortedProducts == SortProducts(ModeOf(value), filteredProducts)
    {
      sortBy := ModeOf(value);
      ApplySorting();
      SortLength(KeyOf(old(sortBy)), filteredProducts);
      SortLength(KeyOf(sortBy), filteredProducts);
    }

    /** `setSorting`: re-sorts and redraws. */
    method SetSorting(value: string)
      modifies this`sortBy, this`sortedProducts, this`visibleProducts, this`noResultsVisible
      requires Valid()
      ensures Valid()
      ensures sortBy == ModeOf(value)
      ensures sortedProducts == SortProducts(ModeOf(value), filteredProducts)
      ensures visibleProducts == PageContents()
      ensures noResultsVisible == if hasNoResults then |sortedProducts| == 0 else old(noResultsVisible)
    {
      HandleSortChange(value);
      UpdateDisplay();
    }

    /** `handlePaginationPrev`. */
    method HandlePaginationPrev()
      modifies this`currentPage, this`totalPages, this`prevDisabled, this`nextDisabled, this`pageButtons
      modifies this`visibleProducts, this`noResultsVisible
      requires Valid()
      ensures Valid()
      ensures currentPage == if old(currentPage) > 1 then old(currentPage) - 1 else old(currentPage)
      ensures old(currentPage) > 1 ==> Redrawn(old(totalPages), old(prevDisabled), old(nextDisabled), old(pageButtons), old(noResultsVisible))
      ensures old(currentPage) <= 1 ==> unchanged(this)
    {
      if currentPage > 1 {
        currentPage := currentPage - 1;
        Redraw();
      }
    }

    /** `handlePaginationNext`. */
    method HandlePaginationNext()
      modifies this`currentPage, this`totalPages, this`prevDisabled, this`nextDisabled, this`pageButtons
      modifies this`visibleProducts, this`noResultsVisible
      requires Valid()
      ensures Valid()
      ensures currentPage == if old(currentPage) < old(totalPages) then old(currentPage) + 1 else old(currentPage)
      ensures old(currentPage) < old(totalPages) ==> Redrawn(old(totalPages), old(prevDisabled), old(nextDisabled), old(pageButtons), old(noResultsVisible))
      ensures old(currentPage) >= old(totalPages) ==> unchanged(this)
    {
      if currentPage < totalPages {
        currentPage := currentPage + 1;
        Redraw();
      }
    }

    /** `handlePaginationPage` for a click on the `k`-th page button. */
    method HandlePaginationPage(k: nat)
      modifies this`currentPage, this`totalPages, this`prevDisabled, this`nextDisabled, this`pageButtons
      modifies this`visibleProducts, this`noResultsVisible
      requires Valid() && k < |pageButtons|
      ensures Valid()
      ensures currentPage == old(pageButtons[k].page)
      ensures old(pageButtons[k].page) != old(currentPage) ==> Redrawn(old(totalPages), old(prevDisabled), old(nextDisabled), old(pageButtons), old(noResultsVisible))
      ensures old(pageButtons[k].page) == old(currentPage) ==> unchanged(this)
    {
      var page := pageButtons[k].page;
      if page != 0 && page != currentPage {
        currentPage := page;
        Redraw();
      }
    }

    /** `goToPage`: pages outside 1..totalPages are ignored. */
    method GoToPage(page: int)
      modifies this`currentPage, this`totalPages, this`prevDisabled, this`nextDisabled, this`pageButtons
      modifies this`visibleProducts, this`noResultsVisible
      requires Valid()
      ensures Valid()
      ensures 1 <= page <= old(totalPages) ==> currentPage == page && Redrawn(old(totalPages), old(prevDisabled), old(nextDisabled), old(pageButtons), old(noResultsVisible))
      ensures !(1 <= page <= old(totalPages)) ==> unchanged(this)
    {
      if page >= 1 && page <= totalPages {
        currentPage := page;
        Redraw();
      }
    }
  }
}
