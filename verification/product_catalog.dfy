/**
 * The catalog panel (product-catalog.tsx): the category chips, the
 * search-and-category filter, and the gate on the add button.
 * Case folding is ASCII only; Unicode `toLowerCase` is not modelled.
 */
module ProductCatalog {
  import opened Seqs
  import opened Domain

  /** The chip that selects every category. */
  const ALL_CATEGORIES: string := "Semua"

  function CategoryList(products: seq<Product>): seq<string> {
    seq(|products|, i requires 0 <= i < |products| => products[i].category)
  }

  /** `['Semua', ...Array.from(new Set(products.map(p => p.category)))]`. */
  function Categories(products: seq<Product>): (chips: seq<string>)
    ensures 1 <= |chips| <= |products| + 1 && chips[0] == ALL_CATEGORIES
    ensures forall i :: 0 <= i < |products| ==> products[i].category in chips
  {
    assert forall i :: 0 <= i < |products| ==> CategoryList(products)[i] == products[i].category;
    [ALL_CATEGORIES] + Distinct(CategoryList(products))
  }

  /**
   * The chips are "Semua" followed by every category of the catalog exactly
   * once, in the order in which the categories first appear.
   */
  lemma CategoriesShape(products: seq<Product>)
    ensures |Categories(products)| >= 1 && Categories(products)[0] == ALL_CATEGORIES
    ensures var chips := Categories(products)[1..];
      && NoDuplicates(chips)
      && (forall i :: 0 <= i < |products| ==> products[i].category in chips)
      && (forall k :: 0 <= k < |chips| ==> exists i :: 0 <= i < |products| && products[i].category == chips[k])
      && (forall k, l :: 0 <= k < l < |chips| ==>
            FirstIndex(CategoryList(products), chips[k]) < FirstIndex(CategoryList(products), chips[l]))
  {
    var cats := CategoryList(products);
    assert Categories(products)[1..] == Distinct(cats);
    DistinctFirstSeenOrder(cats);
    DistinctCategoriesCover(products);
  }

  /** Every product's category is listed, and every listed category is some product's. */
  lemma DistinctCategoriesCover(products: seq<Product>)
    ensures var chips := Distinct(CategoryList(products));
      && (forall i :: 0 <= i < |products| ==> products[i].category in chips)
      && (forall k :: 0 <= k < |chips| ==> exists i :: 0 <= i < |products| && products[i].category == chips[k])
  {
    var cats := CategoryList(products);
    var chips := Distinct(cats);
    forall i | 0 <= i < |products|
      ensures products[i].category in chips
    {
      assert cats[i] == products[i].category;
    }
    forall k | 0 <= k < |chips|
      ensures exists i :: 0 <= i < |products| && products[i].category == chips[k]
    {
      var i :| 0 <= i < |cats| && cats[i] == chips[k];
    }
  }

  /** ASCII `toLowerCase` of one character. */
  function LowerChar(c: char): char {
    if 'A' <= c <= 'Z' then (c as int + 32) as char else c
  }

  /** `toLowerCase`, ASCII letters only. */
  function ToLower(s: string): string {
    seq(|s|, i requires 0 <= i < |s| => LowerChar(s[i]))
  }

  /** `s.includes(query)`: `query` occurs in `s` at some position (the empty query occurs everywhere). */
  predicate Includes(s: string, query: string)
    decreases |s|
  {
    query <= s || (s != [] && Includes(s[1..], query))
  }

  /** `query` sits in `s` starting at position `i`. */
  predicate OccursAt(s: string, query: string, i: int) {
    0 <= i && i + |query| <= |s| && s[i..i + |query|] == query
  }

  /** `Includes` is substring search: it holds exactly when the query occurs at some position. */
  lemma {:induction false} IncludesIffOccurs(s: string, query: string)
    ensures Includes(s, query) <==> exists i :: OccursAt(s, query, i)
    decreases |s|
  {
    if query <= s {
      assert OccursAt(s, query, 0);
    } else if s != [] {
      IncludesIffOccurs(s[1..], query);
      if exists j :: OccursAt(s[1..], query, j) {
        var j :| OccursAt(s[1..], query, j);
        assert s[j + 1..j + 1 + |query|] == s[1..][j..j + |query|];
        assert OccursAt(s, query, j + 1);
      }
      if exists i :: OccursAt(s, query, i) {
        var i :| OccursAt(s, query, i);
        assert s[i..i + |query|] == s[1..][i - 1..i - 1 + |query|];
        assert OccursAt(s[1..], query, i - 1);
      }
    }
  }

  /** The filter's test for one product (product-catalog.tsx:25-27). */
  predicate Matches(product: Product, searchQuery: string, selectedCategory: string) {
    && Includes(ToLower(product.name), ToLower(searchQuery))
    && (selectedCategory == ALL_CATEGORIES || product.category == selectedCategory)
  }

  /** `filteredProducts`. */
  function FilteredProducts(products: seq<Product>, searchQuery: string, selectedCategory: string): (r: seq<Product>)
    ensures |r| <= |products|
    ensures forall i :: 0 <= i < |r| ==> Matches(r[i], searchQuery, selectedCategory)
  {
    Filter(products, (p: Product) => Matches(p, searchQuery, selectedCategory))
  }

  /**
   * The filtered list is the catalog with exactly the matching products kept,
   * in catalog order.
   */
  lemma FilteredProductsShape(products: seq<Product>, searchQuery: string, selectedCategory: string)
    ensures var r := FilteredProducts(products, searchQuery, selectedCategory);
      && SubsequenceOf(r, products)
      && (forall i :: 0 <= i < |r| ==> r[i] in products && Matches(r[i], searchQuery, selectedCategory))
      && (forall i :: 0 <= i < |products| && Matches(products[i], searchQuery, selectedCategory) ==> products[i] in r)
  {
  }

  /** An empty search with "Semua" selected shows the whole catalog. */
  lemma EmptySearchShowsAll(products: seq<Product>)
    ensures FilteredProducts(products, "", ALL_CATEGORIES) == products
  {
    forall i | 0 <= i < |products|
      ensures Matches(products[i], "", ALL_CATEGORIES)
    {
      assert ToLower("") == "";
    }
    FilterKeepsAll(products, (p: Product) => Matches(p, "", ALL_CATEGORIES));
  }

  /** The search is case-insensitive: it depends on the query only through its lower-case form. */
  lemma SearchIgnoresCase(products: seq<Product>, q1: string, q2: string, selectedCategory: string)
    requires ToLower(q1) == ToLower(q2)
    ensures FilteredProducts(products, q1, selectedCategory) == FilteredProducts(products, q2, selectedCategory)
  {
    FilterCongruent(products, (p: Product) => Matches(p, q1, selectedCategory),
                              (p: Product) => Matches(p, q2, selectedCategory));
  }

  /** The add button is disabled at stock 0 (`disabled={product.stock === 0}`). */
  predicate AddDisabled(product: Product)
    ensures product.stock >= 1 ==> !AddDisabled(product)
    ensures !AddDisabled(product) && product.stock >= 0 ==> product.stock >= 1
  {
    product.stock == 0
  }

  /** In a catalog without negative stock, the add button only fires for a product with stock of at least 1. */
  lemma AddOnlyWithStock(products: seq<Product>, k: nat)
    requires NonNegativeStock(products) && k < |products|
    requires !AddDisabled(products[k])
    ensures products[k].stock >= 1
  {
  }
}
