/**
 * The storefront's filter panel: the category list offered in the select box,
 * the price ceiling of the slider, and the three handlers that change the
 * selected category and price range and report the new filters to the page.
 */
module ProductFilters {
  import opened Wrappers
  import Storage

  /** The ceiling and range the panel starts with, before any products arrive. */
  const InitialMax: int := 1000000

  /** What the panel reports to the page: `{category, priceRange}`, `null` category meaning all. */
  datatype Filters = Filters(category: Option<string>, low: int, high: int)

  predicate NoDuplicates(xs: seq<string>) {
    forall i, j :: 0 <= i < j < |xs| ==> xs[i] != xs[j]
  }

  /** The position where `x` first occurs in `xs`. */
  function FirstIndex(xs: seq<string>, x: string): (r: nat)
    requires x in xs
    ensures r < |xs| && xs[r] == x
    ensures forall k :: 0 <= k < r ==> xs[k] != x
  {
    if xs[0] == x then 0 else 1 + FirstIndex(xs[1..], x)
  }

  /**
   * `Array.from(new Set(xs))`: a `Set` keeps insertion order and ignores
   * repeated insertions, so each value appears once, where it was first seen.
   */
  function Dedup(xs: seq<string>): (r: seq<string>)
    ensures NoDuplicates(r)
    ensures forall x :: x in r <==> x in xs
  {
    if xs == [] then []
    else
      var seen := Dedup(xs[..|xs| - 1]);
      var last := xs[|xs| - 1];
      assert forall x :: x in xs <==> x in xs[..|xs| - 1] || x == last;
      if last in seen then seen else seen + [last]
  }

  /** The first occurrence of a value in a prefix is its first occurrence in the whole list. */
  lemma FirstIndexPrefix(xs: seq<string>, n: nat, x: string)
    requires n <= |xs| && x in xs[..n]
    ensures FirstIndex(xs, x) == FirstIndex(xs[..n], x)
  {
    var k := FirstIndex(xs[..n], x);
    assert xs[k] == x;
  }

  /** `Dedup` lists the values in the order of their first appearance in the input. */
  lemma {:induction false} DedupFirstSeenOrder(xs: seq<string>)
    ensures forall i, j :: 0 <= i < j < |Dedup(xs)| ==>
      FirstIndex(xs, Dedup(xs)[i]) < FirstIndex(xs, Dedup(xs)[j])
  {
    if xs != [] {
      var n := |xs| - 1;
      var prefix := xs[..n];
      DedupFirstSeenOrder(prefix);
      var seen := Dedup(prefix);
      var r := Dedup(xs);
      forall y | y in seen
        ensures FirstIndex(xs, y) == FirstIndex(prefix, y) < n
      {
        FirstIndexPrefix(xs, n, y);
      }
      if xs[n] !in seen {
        assert r == seen + [xs[n]];
        assert FirstIndex(xs, xs[n]) == n by {
          assert xs[n] !in prefix;
        }
      }
    }
  }

  /** `products.map((p) => p.category)` */
  function CategoryColumn(products: seq<Storage.Product>): (r: seq<string>)
    ensures |r| == |products|
    ensures forall i :: 0 <= i < |products| ==> r[i] == products[i].category
  {
    seq(|products|, i requires 0 <= i < |products| => products[i].category)
  }

  /** The categories offered in the select box: each product category once, first seen first. */
  function Categories(products: seq<Storage.Product>): (r: seq<string>)
    ensures NoDuplicates(r)
    ensures forall c :: c in r <==> exists i :: 0 <= i < |products| && products[i].category == c
  {
    Dedup(CategoryColumn(products))
  }

  /** The select box lists categories in the order their first product appears. */
  lemma CategoriesFirstSeenOrder(products: seq<Storage.Product>)
    ensures var r := Categories(products); var column := CategoryColumn(products);
      forall i, j :: 0 <= i < j < |r| ==> FirstIndex(column, r[i]) < FirstIndex(column, r[j])
  {
    DedupFirstSeenOrder(CategoryColumn(products));
  }

  /** `Math.max(...products.map((p) => p.price))`, only ever taken over a non-empty list. */
  function MaxPrice(products: seq<Storage.Product>): (r: int)
    requires |products| > 0
    ensures exists i :: 0 <= i < |products| && products[i].price == r
    ensures forall i :: 0 <= i < |products| ==> products[i].price <= r
  {
    if |products| == 1 then products[0].price
    else
      var rest := MaxPrice(products[1..]);
      assert forall i :: 1 <= i < |products| ==> products[i] == products[1..][i - 1];
      if products[0].price >= rest then products[0].price else rest
  }

  /** The panel's state: the selected category, the slider's range and its ceiling. */
  class FilterPanel {
    var selectedCategory: Option<string>
    var low: int
    var high: int
    var maxPrice: int

    constructor ()
      ensures selectedCategory == None && low == 0 && high == InitialMax && maxPrice == InitialMax
    {
      selectedCategory := None;
      low := 0;
      high := InitialMax;
      maxPrice := InitialMax;
    }

    /**
     * The effect that runs when the product list changes: with products, the
     * ceiling becomes the highest price, the range opens to [0, ceiling] and that
     * range is reported with the current category; with none, nothing happens.
     */
    method ProductsChanged(products: seq<Storage.Product>) returns (report: Option<Filters>)
      modifies this
      ensures |products| == 0 ==>
        report == None && selectedCategory == old(selectedCategory)
        && low == old(low) && high == old(high) && maxPrice == old(maxPrice)
      ensures |products| > 0 ==>
        && (exists i :: 0 <= i < |products| && products[i].price == maxPrice)
        && (forall i :: 0 <= i < |products| ==> products[i].price <= maxPrice)
        && selectedCategory == old(selectedCategory) && low == 0 && high == maxPrice
        && report == Some(Filters(selectedCategory, 0, maxPrice))
    {
      if |products| > 0 {
        var max := MaxPrice(products);
        maxPrice := max;
        low, high := 0, max;
        report := Some(Filters(selectedCategory, 0, max));
      } else {
        report := None;
      }
    }

    /** The slider moved: its first two values become the range, reported with the current category. */
    method HandlePriceChange(value: seq<int>) returns (report: Filters)
      requires |value| >= 2
      modifies this
      ensures low == value[0] && high == value[1]
      ensures selectedCategory == old(selectedCategory) && maxPrice == old(maxPrice)
      ensures report == Filters(selectedCategory, value[0], value[1])
    {
      low, high := value[0], value[1];
      report := Filters(selectedCategory, low, high);
    }

    /** A category was picked: "all" clears the selection, any other value selects it; the range stays. */
    method HandleCategoryChange(value: string) returns (report: Filters)
      modifies this
      ensures value == "all" ==> selectedCategory == None
      ensures value != "all" ==> selectedCategory == Some(value)
      ensures low == old(low) && high == old(high) && maxPrice == old(maxPrice)
      ensures report == Filters(selectedCategory, low, high)
    {
      selectedCategory := if value == "all" then None else Some(value);
      report := Filters(selectedCategory, low, high);
    }

    /** Reset: no category and the full range [0, ceiling], reported as such. */
    method HandleReset() returns (report: Filters)
      modifies this
      ensures selectedCategory == None && low == 0 && high == maxPrice
      ensures maxPrice == old(maxPrice)
      ensures report == Filters(None, 0, maxPrice)
    {
      selectedCategory := None;
      low, high := 0, maxPrice;
      report := Filters(None, 0, maxPrice);
    }
  }
}
