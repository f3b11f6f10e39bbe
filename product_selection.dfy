/** The product picker: free-text search, a category chip row, optional
    sorting by price in lira, and highlighting of products already chosen. */
module ProductSelection {
  import opened Wrappers
  import opened JsText
  import opened JsArray
  import opened CurrencyIcon

  /** A row of the `products` table. */
  datatype Product = Product(id: int, name: string, price: real, imageUrl: Option<string>, category: Option<string>)

  /** The two price orders the sort buttons select. */
  datatype SortOrder = Asc | Desc

  /** The search box matches the name, the (truthy) category or the price
      text, case-insensitively for the first two; `priceText` is the number's
      `toString`, which is not modelled. */
  predicate MatchesSearch(p: Product, searchQuery: string, priceText: real -> string) {
    var query := Lower(searchQuery);
    Includes(Lower(p.name), query)
    || (Truthy(p.category) && Includes(Lower(p.category.value), query))
    || Includes(priceText(p.price), query)
  }

  /** No (truthy) category chip is selected, or the product has exactly that category. */
  predicate MatchesCategory(p: Product, categoryFilter: Option<string>) {
    !Truthy(categoryFilter) || p.category == categoryFilter
  }

  /** The products the grid shows before sorting. */
  function FilteredProducts(products: seq<Product>, searchQuery: string, categoryFilter: Option<string>,
                            priceText: real -> string): (r: seq<Product>)
    ensures IsSubsequence(r, products)
    ensures forall i :: 0 <= i < |r| ==>
      r[i] in products && MatchesSearch(r[i], searchQuery, priceText) && MatchesCategory(r[i], categoryFilter)
    ensures forall i :: 0 <= i < |products| ==>
      (MatchesSearch(products[i], searchQuery, priceText) && MatchesCategory(products[i], categoryFilter)
       ==> products[i] in r)
    ensures forall q :: q in multiset(products) ==>
      multiset(r)[q] == if MatchesSearch(q, searchQuery, priceText) && MatchesCategory(q, categoryFilter)
                        then multiset(products)[q] else 0
  {
    FilterCounts(products, p => MatchesSearch(p, searchQuery, priceText) && MatchesCategory(p, categoryFilter));
    Filter(products, p => MatchesSearch(p, searchQuery, priceText) && MatchesCategory(p, categoryFilter))
  }

  /** The sort key, written out inline in the comparator. */
  function ComparatorPrice(p: Product): real {
    if p.category == Some("Lazer Hastanesi") then p.price else p.price * 40.0
  }

  /** The comparator's key is the lira price `ConvertPrice` computes. */
  lemma ComparatorPriceIsConvertPrice(p: Product)
    ensures ComparatorPrice(p) == ConvertPrice(p.price, p.category)
  {
  }

  /** The comparator handed to `sort`: negative when `a` goes first. */
  function Compare(a: Product, b: Product, order: Option<SortOrder>): (r: real)
    ensures order == None ==> r == 0.0
    ensures order == Some(Asc) ==> r == ConvertPrice(a.price, a.category) - ConvertPrice(b.price, b.category)
    ensures order == Some(Desc) ==> r == ConvertPrice(b.price, b.category) - ConvertPrice(a.price, a.category)
  {
    match order
    case None => 0.0
    case Some(Asc) => ComparatorPrice(a) - ComparatorPrice(b)
    case Some(Desc) => ComparatorPrice(b) - ComparatorPrice(a)
  }

  /** No pair of elements is out of order for the comparator. */
  ghost predicate SortedBy(s: seq<Product>, order: Option<SortOrder>) {
    forall i, j :: 0 <= i < j < |s| ==> Compare(s[i], s[j], order) <= 0.0
  }

  /** A number per product whose differences are the comparator's answers. */
  function Rank(p: Product, order: Option<SortOrder>): real {
    match order
    case None => 0.0
    case Some(Asc) => ComparatorPrice(p)
    case Some(Desc) => -ComparatorPrice(p)
  }

  /** The comparator subtracts ranks, so it orders consistently (transitively). */
  lemma CompareIsRankDifference(a: Product, b: Product, order: Option<SortOrder>)
    ensures Compare(a, b, order) == Rank(a, order) - Rank(b, order)
  {
  }

  /** `sortedProducts`: a sorted copy of the filtered products. With no sort
      order the comparator always answers 0 and the copy keeps the filtered
      order; otherwise it is a permutation ordered by lira price. */
  method SortedProducts(filtered: seq<Product>, order: Option<SortOrder>) returns (sorted: seq<Product>)
    ensures multiset(sorted) == multiset(filtered)
    ensures SortedBy(sorted, order)
    ensures order == None ==> sorted == filtered
    ensures order == Some(Asc) ==> forall i, j :: 0 <= i < j < |sorted| ==>
      ConvertPrice(sorted[i].price, sorted[i].category) <= ConvertPrice(sorted[j].price, sorted[j].category)
    ensures order == Some(Desc) ==> forall i, j :: 0 <= i < j < |sorted| ==>
      ConvertPrice(sorted[i].price, sorted[i].category) >= ConvertPrice(sorted[j].price, sorted[j].category)
    ensures StableFor(sorted, filtered, ComparatorPrice)
  {
    var a := new Product[|filtered|](k requires 0 <= k < |filtered| => filtered[k]);
    assert a[..] == filtered;
    var rank := p => Rank(p, order);
    SortByKey(a, rank);
    sorted := a[..];
    forall i, j | 0 <= i < j < |sorted| ensures Compare(sorted[i], sorted[j], order) <= 0.0 {
      CompareIsRankDifference(sorted[i], sorted[j], order);
    }
    if order.Some? {
      forall k ensures WithKey(sorted, ComparatorPrice, k) == WithKey(filtered, ComparatorPrice, k) {
        var r := if order == Some(Asc) then k else -k;
        WithKeyRelabel(sorted, ComparatorPrice, k, rank, r);
        WithKeyRelabel(filtered, ComparatorPrice, k, rank, r);
      }
    }
  }

  /** The truthy categories of the products, in product order (with repeats):
      `products.map(p => p.category).filter(Boolean)`. */
  function TruthyCategories(products: seq<Product>): (r: seq<string>)
    ensures forall i :: 0 <= i < |r| ==> r[i] != ""
    ensures forall c :: c in r <==> exists i :: 0 <= i < |products| && products[i].category == Some(c) && c != ""
  {
    if products == [] then []
    else
      var rest := TruthyCategories(products[1..]);
      assert forall i :: 0 < i < |products| ==> products[i] == products[1..][i - 1];
      if Truthy(products[0].category) then [products[0].category.value] + rest else rest
  }

  /** Index of the first occurrence of `x` in `s`. */
  function FirstIndex(s: seq<string>, x: string): (r: nat)
    requires x in s
    ensures r < |s| && s[r] == x && x !in s[..r]
  {
    if s[0] == x then 0 else 1 + FirstIndex(s[1..], x)
  }

  /** `[...new Set(s)]`: each value once, at the place it first appears. */
  function DistinctInOrder(s: seq<string>): (r: seq<string>)
    ensures NoDuplicates(r)
    ensures forall x :: x in r <==> x in s
    ensures forall i, j :: 0 <= i < j < |r| ==> FirstIndex(s, r[i]) < FirstIndex(s, r[j])
    decreases |s|
  {
    if s == [] then []
    else
      var init := s[..|s| - 1];
      var last := s[|s| - 1];
      var r := DistinctInOrder(init);
      DistinctStep(init, last, r);
      assert init + [last] == s;
      if last in r then r else r + [last]
  }

  /** Appending an element leaves the first occurrence of an earlier value in place. */
  lemma {:induction false} FirstIndexAppend(init: seq<string>, last: string, x: string)
    requires x in init
    ensures FirstIndex(init + [last], x) == FirstIndex(init, x)
  {
    if init[0] != x {
      assert (init + [last])[1..] == init[1..] + [last];
      FirstIndexAppend(init[1..], last, x);
    }
  }

  /** A value new to `init` first appears where it is appended. */
  lemma {:induction false} FirstIndexOfAppended(init: seq<string>, last: string)
    requires last !in init
    ensures FirstIndex(init + [last], last) == |init|
  {
    if init != [] {
      assert (init + [last])[1..] == init[1..] + [last];
      FirstIndexOfAppended(init[1..], last);
    }
  }

  /** One step of building the set: `r` is the distinct list of `init`, and
      the result of inserting `last` is the distinct list of `init + [last]`. */
  lemma DistinctStep(init: seq<string>, last: string, r: seq<string>)
    requires NoDuplicates(r)
    requires forall x :: x in r <==> x in init
    requires forall i, j :: 0 <= i < j < |r| ==> FirstIndex(init, r[i]) < FirstIndex(init, r[j])
    ensures var r' := if last in r then r else r + [last];
      && NoDuplicates(r')
      && (forall x :: x in r' <==> x in init + [last])
      && (forall i, j :: 0 <= i < j < |r'| ==> FirstIndex(init + [last], r'[i]) < FirstIndex(init + [last], r'[j]))
  {
    var s := init + [last];
    forall i | 0 <= i < |r| ensures FirstIndex(s, r[i]) == FirstIndex(init, r[i]) {
      FirstIndexAppend(init, last, r[i]);
    }
    if last !in r {
      var r' := r + [last];
      FirstIndexOfAppended(init, last);
      forall i, j | 0 <= i < j < |r'| ensures FirstIndex(s, r'[i]) < FirstIndex(s, r'[j]) {
        if j == |r| {
          assert r'[i] == r[i];
        } else {
          assert r'[i] == r[i] && r'[j] == r[j];
        }
      }
    }
  }

  /** `uniqueCategories`: the chip row's categories. */
  function UniqueCategories(products: seq<Product>): (r: seq<string>)
    ensures NoDuplicates(r)
    ensures "" !in r
    ensures forall c :: c in r <==> exists i :: 0 <= i < |products| && products[i].category == Some(c) && c != ""
    ensures forall c :: c in r ==> c in TruthyCategories(products)
    ensures forall i, j :: 0 <= i < j < |r| ==>
      FirstIndex(TruthyCategories(products), r[i]) < FirstIndex(TruthyCategories(products), r[j])
  {
    DistinctInOrder(TruthyCategories(products))
  }

  /** `isProductSelected`: some already chosen product has the same id. */
  function IsProductSelected(selectedProducts: seq<Product>, product: Product): (r: bool)
    ensures r <==> exists i :: 0 <= i < |selectedProducts| && selectedProducts[i].id == product.id
  {
    Any(selectedProducts, (p: Product) => p.id == product.id)
  }

  /** Pressing a sort button: it switches sorting off when it is the active
      order and selects its own order otherwise. */
  function ToggleSort(current: Option<SortOrder>, pressed: SortOrder): (r: Option<SortOrder>)
    ensures r == None <==> current == Some(pressed)
    ensures r != None ==> r == Some(pressed)
  {
    if current == Some(pressed) then None else Some(pressed)
  }

  /** Pressing the same sort button twice from any state other than its own
      returns to unsorted. */
  lemma ToggleSortTwice(current: Option<SortOrder>, pressed: SortOrder)
    requires current != Some(pressed)
    ensures ToggleSort(ToggleSort(current, pressed), pressed) == None
  {
  }

  /** The picker's screen state: the fetched products, the search text, the
      selected category chip and the sort order. */
  class ProductPicker {
    var products: seq<Product>
    var searchQuery: string
    var categoryFilter: Option<string>
    var sortOrder: Option<SortOrder>

    constructor ()
      ensures products == [] && searchQuery == "" && categoryFilter == None && sortOrder == None
    {
      products := [];
      searchQuery := "";
      categoryFilter := None;
      sortOrder := None;
    }

    /** The fetched rows arrive (`setProducts(data || [])`). */
    method SetProducts(data: Option<seq<Product>>)
      modifies this
      ensures products == data.GetOr([])
      ensures searchQuery == old(searchQuery) && categoryFilter == old(categoryFilter) && sortOrder == old(sortOrder)
    {
      products := data.GetOr([]);
    }

    /** Typing in the search box. */
    method SetSearchQuery(text: string)
      modifies this
      ensures searchQuery == text
      ensures products == old(products) && categoryFilter == old(categoryFilter) && sortOrder == old(sortOrder)
    {
      searchQuery := text;
    }

    /** Pressing a category chip (`None` is the "All" chip). */
    method SetCategoryFilter(category: Option<string>)
      modifies this
      ensures categoryFilter == category
      ensures products == old(products) && searchQuery == old(searchQuery) && sortOrder == old(sortOrder)
    {
      categoryFilter := category;
    }

    /** Pressing "Low to High" (`Asc`) or "High to Low" (`Desc`). */
    method PressSortButton(pressed: SortOrder)
      modifies this
      ensures sortOrder == ToggleSort(old(sortOrder), pressed)
      ensures products == old(products) && searchQuery == old(searchQuery) && categoryFilter == old(categoryFilter)
    {
      sortOrder := ToggleSort(sortOrder, pressed);
    }

    /** The products the grid shows, in display order. */
    method Displayed(priceText: real -> string) returns (shown: seq<Product>)
      ensures multiset(shown) == multiset(FilteredProducts(products, searchQuery, categoryFilter, priceText))
      ensures sortOrder == None ==> shown == FilteredProducts(products, searchQuery, categoryFilter, priceText)
      ensures sortOrder == Some(Asc) ==> forall i, j :: 0 <= i < j < |shown| ==>
        ConvertPrice(shown[i].price, shown[i].category) <= ConvertPrice(shown[j].price, shown[j].category)
      ensures sortOrder == Some(Desc) ==> forall i, j :: 0 <= i < j < |shown| ==>
        ConvertPrice(shown[i].price, shown[i].category) >= ConvertPrice(shown[j].price, shown[j].category)
      ensures StableFor(shown, FilteredProducts(products, searchQuery, categoryFilter, priceText), ComparatorPrice)
    {
      var filteredProducts := FilteredProducts(products, searchQuery, categoryFilter, priceText);
      shown := SortedProducts(filteredProducts, sortOrder);
    }
  }
}
