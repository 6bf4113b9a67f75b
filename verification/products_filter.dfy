/** The product listing's filter: a product is shown when its lower-cased
    name contains the lower-cased search term and, unless the selected
    category is "all", its category's name equals the selection. The sort
    selection is kept in state but never applied. */
module ProductsFilter {
  import opened Text

  /** The fields of a product the listing filter reads. */
  datatype Product = Product(id: string, name: string, categoryName: string)

  /** The listing's controls: search box, category select, sort select. */
  datatype Controls = Controls(searchTerm: string, selectedCategory: string, sortBy: string)

  const AllCategories: string := "all"

  /** `matchesSearch && matchesCategory`. */
  predicate Matches(p: Product, term: string, category: string) {
    Includes(Lower(p.name), Lower(term)) && (category == AllCategories || p.categoryName == category)
  }

  /** `products.filter(...)`. */
  function Filter(products: seq<Product>, term: string, category: string): (r: seq<Product>)
    ensures |r| <= |products|
    ensures forall i :: 0 <= i < |r| ==> r[i] in products && Matches(r[i], term, category)
    ensures forall p :: p in products && Matches(p, term, category) ==> p in r
  {
    if |products| == 0 then []
    else if Matches(products[0], term, category) then [products[0]] + Filter(products[1..], term, category)
    else Filter(products[1..], term, category)
  }

  /** `a` is `b` with some elements left out, the rest in the same order. */
  predicate Subsequence<T(==)>(a: seq<T>, b: seq<T>)
    decreases |b|
  {
    if |a| == 0 then true
    else if |b| == 0 then false
    else if a[0] == b[0] then Subsequence(a[1..], b[1..])
    else Subsequence(a, b[1..])
  }

  /** The filter keeps the order of the listing. */
  lemma {:induction false} FilterIsSubsequence(products: seq<Product>, term: string, category: string)
    ensures Subsequence(Filter(products, term, category), products)
    decreases |products|
  {
    if |products| > 0 {
      FilterIsSubsequence(products[1..], term, category);
      var rest := Filter(products[1..], term, category);
      if Matches(products[0], term, category) {
        assert ([products[0]] + rest)[1..] == rest;
      } else if |rest| > 0 {
        assert rest[0] in products[1..];
      }
    }
  }

  /** Each matching product appears as often as it does in the listing,
      duplicates included; a product that does not match never appears. */
  lemma {:induction false} FilterCount(products: seq<Product>, term: string, category: string, p: Product)
    ensures multiset(Filter(products, term, category))[p]
      == (if Matches(p, term, category) then multiset(products)[p] else 0)
    decreases |products|
  {
    if |products| > 0 {
      FilterCount(products[1..], term, category, p);
      assert products == [products[0]] + products[1..];
      assert multiset(products) == multiset([products[0]]) + multiset(products[1..]);
      var rest := Filter(products[1..], term, category);
      if Matches(products[0], term, category) {
        assert multiset(Filter(products, term, category)) == multiset([products[0]]) + multiset(rest);
      }
    }
  }

  /** Filtering an already filtered list changes nothing. */
  lemma {:induction false} FilterIdempotent(products: seq<Product>, term: string, category: string)
    ensures Filter(Filter(products, term, category), term, category) == Filter(products, term, category)
    decreases |products|
  {
    if |products| > 0 {
      FilterIdempotent(products[1..], term, category);
      var rest := Filter(products[1..], term, category);
      if Matches(products[0], term, category) {
        assert ([products[0]] + rest)[1..] == rest;
      }
    }
  }

  /** The filter keeps every product exactly when every product matches. */
  lemma {:induction false} FilterKeepsAll(products: seq<Product>, term: string, category: string)
    requires forall i :: 0 <= i < |products| ==> Matches(products[i], term, category)
    ensures Filter(products, term, category) == products
    decreases |products|
  {
    if |products| > 0 {
      FilterKeepsAll(products[1..], term, category);
    }
  }

  /** With an empty search term and category "all" every product is listed. */
  lemma EmptySearchListsAll(products: seq<Product>)
    ensures Filter(products, "", AllCategories) == products
  {
    forall i | 0 <= i < |products| ensures Matches(products[i], "", AllCategories) {
      IncludesEmpty(Lower(products[i].name));
    }
    FilterKeepsAll(products, "", AllCategories);
  }

  /** The search is case-insensitive: lower-casing the term first lists the
      same products. */
  lemma {:induction false} SearchIgnoresCase(products: seq<Product>, term: string, category: string)
    ensures Filter(products, Lower(term), category) == Filter(products, term, category)
    decreases |products|
  {
    LowerIdempotent(term);
    if |products| > 0 {
      SearchIgnoresCase(products[1..], term, category);
    }
  }

  /** The grid shows the filtered products in listing order. */
  function Visible(products: seq<Product>, c: Controls): (r: seq<Product>)
    ensures Subsequence(r, products)
    ensures forall p :: p in r <==> p in products && Matches(p, c.searchTerm, c.selectedCategory)
  {
    FilterIsSubsequence(products, c.searchTerm, c.selectedCategory);
    Filter(products, c.searchTerm, c.selectedCategory)
  }

  /** The sort selection never changes what is shown or in which order. */
  lemma SortIsIgnored(products: seq<Product>, c: Controls, sortBy: string)
    ensures Visible(products, c.(sortBy := sortBy)) == Visible(products, c)
  {
  }
}
