/**
 * The best-selling products of the dashboard (dashboard.tsx:117-142): the
 * sales of every line of every transaction are gathered per product id,
 * using the name and price frozen in the line, then sorted by revenue
 * (highest first; JavaScript's sort is stable, so equal revenues keep the
 * order in which the products are first met walking the ledger, newest
 * sale first) and cut to five.
 */
module TopProducts {
  import opened Wrappers
  import opened Seqs
  import opened Domain
  import opened CartRules

  /** One entry of `productSales`; `id` is the map key it is stored under. */
  datatype ProductSale = ProductSale(id: string, name: string, quantity: int, revenue: int)

  /** Every line of every transaction, in the order the nested `forEach` visits them. */
  function AllLines(txs: seq<Transaction>): seq<CartItem> {
    if txs == [] then [] else AllLines(txs[..|txs| - 1]) + txs[|txs| - 1].items
  }

  function LineIds(lines: seq<CartItem>): (ids: seq<string>)
    ensures |ids| == |lines| && forall i :: 0 <= i < |lines| ==> ids[i] == lines[i].product.id
  {
    if lines == [] then [] else LineIds(lines[..|lines| - 1]) + [lines[|lines| - 1].product.id]
  }

  /** Units of product `id` over `lines`. */
  function QuantityOf(lines: seq<CartItem>, id: string): int {
    if lines == [] then 0
    else
      var l := lines[|lines| - 1];
      QuantityOf(lines[..|lines| - 1], id) + (if l.product.id == id then l.quantity else 0)
  }

  /** Revenue of product `id` over `lines`, at the prices frozen in the lines. */
  function RevenueOf(lines: seq<CartItem>, id: string): int {
    if lines == [] then 0
    else
      var l := lines[|lines| - 1];
      RevenueOf(lines[..|lines| - 1], id) + (if l.product.id == id then LineTotal(l) else 0)
  }

  /** The name recorded for product `id`: the name on its first line. */
  function NameOf(lines: seq<CartItem>, id: string): (name: string)
    ensures forall k :: FirstLineAt(lines, id, k) ==> name == lines[k].product.name
    ensures (forall k :: 0 <= k < |lines| ==> lines[k].product.id != id) ==> name == ""
  {
    assert forall k :: FirstLineAt(lines, id, k) ==> FindLine(lines, id) == Some(lines[k]) by {
      forall k | FirstLineAt(lines, id, k) {
        FindLineIsFirst(lines, id, k);
      }
    }
    match FindLine(lines, id)
    case Some(l) => l.product.name
    case None => ""
  }

  /** The entry for product `id`. */
  function SaleOf(lines: seq<CartItem>, id: string): ProductSale {
    ProductSale(id, NameOf(lines, id), QuantityOf(lines, id), RevenueOf(lines, id))
  }

  /** The entries for a list of ids, in list order. */
  function SalesOf(keys: seq<string>, lines: seq<CartItem>): (r: seq<ProductSale>)
    ensures |r| == |keys|
    ensures forall i :: 0 <= i < |r| ==> r[i] == SaleOf(lines, keys[i])
  {
    if keys == [] then [] else SalesOf(keys[..|keys| - 1], lines) + [SaleOf(lines, keys[|keys| - 1])]
  }

  /** `Array.from(productSales.values())`: one entry per product sold, in the order the products are first met walking the ledger (newest sale first). */
  function SalesSpec(txs: seq<Transaction>): seq<ProductSale> {
    SalesOf(Distinct(LineIds(AllLines(txs))), AllLines(txs))
  }

  // ---------------------------------------------------------------------
  // Gathering the sales in a map
  // ---------------------------------------------------------------------

  /** What the map holds after visiting `lines`: keys in the order the products are first met in `lines`, and each product's entry. */
  ghost predicate GatheredFrom(lines: seq<CartItem>, keys: seq<string>, productSales: map<string, ProductSale>) {
    && keys == Distinct(LineIds(lines))
    && (forall id :: id in productSales <==> id in LineIds(lines))
    && (forall id :: id in productSales ==> productSales[id] == SaleOf(lines, id))
  }

  /** The loop body of the inner `forEach` on one line. */
  function Record(productSales: map<string, ProductSale>, item: CartItem): (r: map<string, ProductSale>)
    ensures r.Keys == productSales.Keys + {item.product.id}
    ensures forall id :: id in productSales && id != item.product.id ==> r[id] == productSales[id]
    ensures var id, e := item.product.id, r[item.product.id];
      && e.quantity == (if id in productSales then productSales[id].quantity else 0) + item.quantity
      && e.revenue == (if id in productSales then productSales[id].revenue else 0) + LineTotal(item)
      && e.name == (if id in productSales then productSales[id].name else item.product.name)
  {
    var id := item.product.id;
    if id in productSales then
      var existing := productSales[id];
      productSales[id := existing.(quantity := existing.quantity + item.quantity,
                                   revenue := existing.revenue + LineTotal(item))]
    else
      productSales[id := ProductSale(id, item.product.name, item.quantity, LineTotal(item))]
  }

  /** One more line changes only its own product's entry: adds to its totals, and names it if it is new. */
  lemma SaleOfSnoc(lines: seq<CartItem>, item: CartItem, id: string)
    ensures var s, s' := SaleOf(lines, id), SaleOf(lines + [item], id);
      && s'.id == id
      && s'.quantity == s.quantity + (if id == item.product.id then item.quantity else 0)
      && s'.revenue == s.revenue + (if id == item.product.id then LineTotal(item) else 0)
      && s'.name == (if FindLine(lines, id).None? && id == item.product.id then item.product.name else s.name)
  {
    assert (lines + [item])[..|lines|] == lines;
  }

  lemma {:induction false} UnsoldIsZero(lines: seq<CartItem>, id: string)
    requires id !in LineIds(lines)
    ensures QuantityOf(lines, id) == 0 && RevenueOf(lines, id) == 0 && FindLine(lines, id).None?
  {
    if lines != [] {
      var init := lines[..|lines| - 1];
      assert LineIds(init) == LineIds(lines)[..|lines| - 1];
      UnsoldIsZero(init, id);
    }
  }

  lemma SoldIsFound(lines: seq<CartItem>, id: string)
    requires id in LineIds(lines)
    ensures FindLine(lines, id).Some?
  {
    var i :| 0 <= i < |lines| && LineIds(lines)[i] == id;
    assert lines[i].product.id == id;
  }

  lemma LineIdsSnoc(lines: seq<CartItem>, item: CartItem)
    ensures LineIds(lines + [item]) == LineIds(lines) + [item.product.id]
  {
    assert (lines + [item])[..|lines|] == lines;
  }

  lemma RecordValues(lines: seq<CartItem>, item: CartItem, productSales: map<string, ProductSale>)
    requires forall id :: id in productSales <==> id in LineIds(lines)
    requires forall id :: id in productSales ==> productSales[id] == SaleOf(lines, id)
    ensures forall id :: id in Record(productSales, item) ==> Record(productSales, item)[id] == SaleOf(lines + [item], id)
  {
    forall k | k in Record(productSales, item)
      ensures Record(productSales, item)[k] == SaleOf(lines + [item], k)
    {
      RecordValueAt(lines, item, productSales, k);
    }
  }

  lemma RecordValueAt(lines: seq<CartItem>, item: CartItem, productSales: map<string, ProductSale>, k: string)
    requires forall id :: id in productSales <==> id in LineIds(lines)
    requires forall id :: id in productSales ==> productSales[id] == SaleOf(lines, id)
    requires k in Record(productSales, item)
    ensures Record(productSales, item)[k] == SaleOf(lines + [item], k)
  {
    SaleOfSnoc(lines, item, k);
    if k != item.product.id {
      assert k in productSales && Record(productSales, item)[k] == productSales[k];
    } else {
      RecordOwnEntry(lines, item, productSales);
    }
  }

  /** The entry of the line's own product after the step. */
  lemma RecordOwnEntry(lines: seq<CartItem>, item: CartItem, productSales: map<string, ProductSale>)
    requires forall id :: id in productSales <==> id in LineIds(lines)
    requires forall id :: id in productSales ==> productSales[id] == SaleOf(lines, id)
    ensures Record(productSales, item)[item.product.id] == SaleOf(lines + [item], item.product.id)
  {
    var id := item.product.id;
    if id in productSales {
      SoldIsFound(lines, id);
      RecordExisting(lines, item, productSales);
    } else {
      UnsoldIsZero(lines, id);
      RecordFirst(lines, item, productSales);
    }
  }

  /** A product sold before keeps its name and adds the line to its totals. */
  lemma RecordExisting(lines: seq<CartItem>, item: CartItem, productSales: map<string, ProductSale>)
    requires item.product.id in productSales
    requires productSales[item.product.id] == SaleOf(lines, item.product.id)
    requires FindLine(lines, item.product.id).Some?
    ensures Record(productSales, item)[item.product.id] == SaleOf(lines + [item], item.product.id)
  {
    SaleOfSnoc(lines, item, item.product.id);
  }

  /** A product met for the first time in `lines` gets an entry made of this line alone. */
  lemma RecordFirst(lines: seq<CartItem>, item: CartItem, productSales: map<string, ProductSale>)
    requires item.product.id !in productSales
    requires QuantityOf(lines, item.product.id) == 0 && RevenueOf(lines, item.product.id) == 0
    requires FindLine(lines, item.product.id).None?
    ensures Record(productSales, item)[item.product.id] == SaleOf(lines + [item], item.product.id)
  {
    SaleOfSnoc(lines, item, item.product.id);
  }

  /** Visiting one more line updates the map to the entries of the longer list. */
  lemma RecordStep(lines: seq<CartItem>, item: CartItem, keys: seq<string>, productSales: map<string, ProductSale>)
    requires GatheredFrom(lines, keys, productSales)
    ensures GatheredFrom(lines + [item],
                         if item.product.id in productSales then keys else keys + [item.product.id],
                         Record(productSales, item))
  {
    LineIdsSnoc(lines, item);
    DistinctSnoc(LineIds(lines), item.product.id);
    RecordValues(lines, item, productSales);
  }

  /** The inner `forEach` over the lines of one transaction. */
  method GatherLines(items: seq<CartItem>, ghost before: seq<CartItem>,
                     keys0: seq<string>, productSales0: map<string, ProductSale>)
    returns (keys: seq<string>, productSales: map<string, ProductSale>)
    requires GatheredFrom(before, keys0, productSales0)
    ensures GatheredFrom(before + items, keys, productSales)
  {
    keys, productSales := keys0, productSales0;
    assert before + items[..0] == before;
    for j := 0 to |items|
      invariant GatheredFrom(before + items[..j], keys, productSales)
    {
      var item := items[j];
      PrefixSnoc(before, items, j);
      RecordStep(before + items[..j], item, keys, productSales);
      keys := if item.product.id in productSales then keys else keys + [item.product.id];
      productSales := Record(productSales, item);
    }
    assert before + items[..|items|] == before + items;
  }

  /** The outer `forEach` over the transactions. */
  method GatherSales(txs: seq<Transaction>) returns (keys: seq<string>, productSales: map<string, ProductSale>)
    ensures GatheredFrom(AllLines(txs), keys, productSales)
  {
    keys := [];
    productSales := map[];
    for i := 0 to |txs|
      invariant GatheredFrom(AllLines(txs[..i]), keys, productSales)
    {
      assert txs[..i + 1][..i] == txs[..i];
      keys, productSales := GatherLines(txs[i].items, AllLines(txs[..i]), keys, productSales);
    }
    assert txs[..|txs|] == txs;
  }

  // ---------------------------------------------------------------------
  // Sorting by revenue and taking five
  // ---------------------------------------------------------------------

  /** Revenue does not increase along the list. */
  predicate ByRevenue(s: seq<ProductSale>) {
    forall i, j :: 0 <= i < j < |s| ==> s[i].revenue >= s[j].revenue
  }

  /**
   * Insert `x` into a list sorted by revenue, after every entry whose
   * revenue is at least its own: an entry inserted later stays behind
   * earlier entries of equal revenue.
   */
  function Insert(s: seq<ProductSale>, x: ProductSale): (r: seq<ProductSale>)
    ensures |r| == |s| + 1
    ensures multiset(r) == multiset(s) + multiset{x}
  {
    if s == [] || s[|s| - 1].revenue >= x.revenue then s + [x]
    else
      var init := s[..|s| - 1];
      assert s == init + [s[|s| - 1]];
      Insert(init, x) + [s[|s| - 1]]
  }

  /** `.sort((a, b) => b.revenue - a.revenue)`, a stable sort. */
  function SortByRevenue(s: seq<ProductSale>): (r: seq<ProductSale>)
    ensures |r| == |s|
    ensures multiset(r) == multiset(s)
  {
    if s == [] then []
    else
      assert s == s[..|s| - 1] + [s[|s| - 1]];
      Insert(SortByRevenue(s[..|s| - 1]), s[|s| - 1])
  }

  /** An entry earning no more than any listed one can go last. */
  lemma AppendLowest(r: seq<ProductSale>, last: ProductSale)
    requires ByRevenue(r)
    requires forall i :: 0 <= i < |r| ==> r[i].revenue >= last.revenue
    ensures ByRevenue(r + [last])
  {
    forall i, j | 0 <= i < j < |r| + 1
      ensures (r + [last])[i].revenue >= (r + [last])[j].revenue
    {
      assert (r + [last])[i] == r[i];
    }
  }

  lemma {:induction false} InsertKeepsOrder(s: seq<ProductSale>, x: ProductSale)
    requires ByRevenue(s)
    ensures ByRevenue(Insert(s, x))
  {
    if s != [] && s[|s| - 1].revenue < x.revenue {
      var init, last := s[..|s| - 1], s[|s| - 1];
      var r := Insert(init, x);
      assert Insert(s, x) == r + [last];
      InsertKeepsOrder(init, x);
      forall i | 0 <= i < |r|
        ensures r[i].revenue >= last.revenue
      {
        assert r[i] in multiset(r);
        assert r[i] == x || r[i] in multiset(init);
      }
      AppendLowest(r, last);
    }
  }

  /** The sorted list is ordered by non-increasing revenue and is a permutation of the input. */
  lemma {:induction false} SortByRevenueSorted(s: seq<ProductSale>)
    ensures ByRevenue(SortByRevenue(s))
    ensures multiset(SortByRevenue(s)) == multiset(s)
  {
    if s != [] {
      SortByRevenueSorted(s[..|s| - 1]);
      InsertKeepsOrder(SortByRevenue(s[..|s| - 1]), s[|s| - 1]);
    }
  }

  /** The entries with revenue `v`, in list order. */
  function WithRevenue(s: seq<ProductSale>, v: int): seq<ProductSale> {
    if s == [] then []
    else WithRevenue(s[..|s| - 1], v) + (if s[|s| - 1].revenue == v then [s[|s| - 1]] else [])
  }

  /** Appending an entry adds it to the entries of its own revenue only. */
  lemma WithRevenueSnoc(s: seq<ProductSale>, x: ProductSale, v: int)
    ensures WithRevenue(s + [x], v) == WithRevenue(s, v) + (if x.revenue == v then [x] else [])
  {
    assert (s + [x])[..|s|] == s;
  }

  /** Inserting `x` adds it to the entries of its own revenue, after those already there. */
  lemma {:induction false} InsertIsStable(s: seq<ProductSale>, x: ProductSale, v: int)
    ensures WithRevenue(Insert(s, x), v) == WithRevenue(s, v) + (if x.revenue == v then [x] else [])
  {
    if s == [] || s[|s| - 1].revenue >= x.revenue {
      assert Insert(s, x) == s + [x];
      WithRevenueSnoc(s, x, v);
    } else {
      var init, last := s[..|s| - 1], s[|s| - 1];
      assert Insert(s, x) == Insert(init, x) + [last];
      InsertIsStable(init, x, v);
      WithRevenueSnoc(Insert(init, x), last, v);
      assert WithRevenue(s, v) == WithRevenue(init, v) + (if last.revenue == v then [last] else []);
      assert last.revenue != v || x.revenue != v;
    }
  }

  /**
   * The sort is stable: for every revenue, the entries with that revenue
   * appear in the sorted list in the same order as in the input.
   */
  lemma {:induction false} SortIsStable(s: seq<ProductSale>, v: int)
    ensures WithRevenue(SortByRevenue(s), v) == WithRevenue(s, v)
  {
    if s != [] {
      var init, last := s[..|s| - 1], s[|s| - 1];
      SortIsStable(init, v);
      InsertIsStable(SortByRevenue(init), last, v);
      assert SortByRevenue(s) == Insert(SortByRevenue(init), last);
      assert WithRevenue(s, v) == WithRevenue(init, v) + (if last.revenue == v then [last] else []);
    }
  }

  /** `.slice(0, 5)`. */
  function TakeFive(s: seq<ProductSale>): (r: seq<ProductSale>)
    ensures |r| == if |s| < 5 then |s| else 5
    ensures r == s[..|r|]
  {
    if |s| <= 5 then s else s[..5]
  }

  /** `topProducts` as the dashboard defines it. */
  function TopProductsSpec(txs: seq<Transaction>): (r: seq<ProductSale>)
    ensures |r| <= 5 && |r| <= |SalesSpec(txs)|
    ensures forall i :: 0 <= i < |r| ==> r[i] in SalesSpec(txs)
  {
    SameMultisetSameElements(SortByRevenue(SalesSpec(txs)), SalesSpec(txs));
    TakeFive(SortByRevenue(SalesSpec(txs)))
  }

  /** `topProducts`: gather, list the values in key order, sort, slice. */
  method TopProductsOf(txs: seq<Transaction>) returns (r: seq<ProductSale>)
    ensures r == TopProductsSpec(txs)
  {
    var keys, productSales := GatherSales(txs);
    ghost var lines := AllLines(txs);
    StoredInKeyOrder(lines, keys, productSales);
    var values: seq<ProductSale> := [];
    for k := 0 to |keys|
      invariant values == SalesOf(keys[..k], lines)
    {
      SalesOfPrefix(keys, lines, k);
      values := values + [productSales[keys[k]]];
    }
    assert keys[..|keys|] == keys;
    r := TakeFive(SortByRevenue(values));
  }

  /** Every listed key has its product's entry in the map. */
  lemma StoredInKeyOrder(lines: seq<CartItem>, keys: seq<string>, productSales: map<string, ProductSale>)
    requires GatheredFrom(lines, keys, productSales)
    ensures forall k :: 0 <= k < |keys| ==> keys[k] in productSales && productSales[keys[k]] == SaleOf(lines, keys[k])
  {
    assert forall k :: 0 <= k < |keys| ==> keys[k] in LineIds(lines);
  }

  lemma SalesOfPrefix(keys: seq<string>, lines: seq<CartItem>, k: int)
    requires 0 <= k < |keys|
    ensures SalesOf(keys[..k + 1], lines) == SalesOf(keys[..k], lines) + [SaleOf(lines, keys[k])]
  {
    assert keys[..k + 1][..k] == keys[..k];
  }

  // ---------------------------------------------------------------------
  // Properties
  // ---------------------------------------------------------------------

  /** No two entries for the same product. */
  predicate UniqueSaleIds(s: seq<ProductSale>) {
    forall i, j :: 0 <= i < j < |s| ==> s[i].id != s[j].id
  }

  /** The gathered sales have one entry per product sold, each carrying its own id. */
  lemma SalesOnePerProduct(txs: seq<Transaction>)
    ensures UniqueSaleIds(SalesSpec(txs))
    ensures forall i :: 0 <= i < |AllLines(txs)| ==>
      exists k :: 0 <= k < |SalesSpec(txs)| && SalesSpec(txs)[k].id == AllLines(txs)[i].product.id
  {
    SalesIdsAreKeys(txs);
    SalesCoverLines(txs);
  }

  /** The gathered entries carry the distinct ids, in order. */
  lemma SalesIdsAreKeys(txs: seq<Transaction>)
    ensures UniqueSaleIds(SalesSpec(txs))
  {
    var keys := Distinct(LineIds(AllLines(txs)));
    var r := SalesSpec(txs);
    assert forall k :: 0 <= k < |r| ==> r[k].id == keys[k];
  }

  lemma SalesCoverLines(txs: seq<Transaction>)
    ensures forall i :: 0 <= i < |AllLines(txs)| ==>
      exists k :: 0 <= k < |SalesSpec(txs)| && SalesSpec(txs)[k].id == AllLines(txs)[i].product.id
  {
    var lines := AllLines(txs);
    var keys := Distinct(LineIds(lines));
    var r := SalesSpec(txs);
    forall i | 0 <= i < |lines|
      ensures exists k :: 0 <= k < |r| && r[k].id == lines[i].product.id
    {
      assert LineIds(lines)[i] in keys;
      var k :| 0 <= k < |keys| && keys[k] == LineIds(lines)[i];
      assert r[k].id == lines[i].product.id;
    }
  }

  /** An entry for a product not yet listed can go last. */
  lemma AppendNewId(r: seq<ProductSale>, last: ProductSale)
    requires UniqueSaleIds(r)
    requires forall i :: 0 <= i < |r| ==> r[i].id != last.id
    ensures UniqueSaleIds(r + [last])
  {
    forall i, j | 0 <= i < j < |r| + 1
      ensures (r + [last])[i].id != (r + [last])[j].id
    {
      assert (r + [last])[i] == r[i];
    }
  }

  lemma {:induction false} InsertKeepsIds(s: seq<ProductSale>, x: ProductSale)
    requires UniqueSaleIds(s)
    requires forall i :: 0 <= i < |s| ==> s[i].id != x.id
    ensures UniqueSaleIds(Insert(s, x))
  {
    if s != [] && s[|s| - 1].revenue < x.revenue {
      var init, last := s[..|s| - 1], s[|s| - 1];
      var r := Insert(init, x);
      assert Insert(s, x) == r + [last];
      InsertKeepsIds(init, x);
      forall i | 0 <= i < |r|
        ensures r[i].id != last.id
      {
        assert r[i] in multiset(r);
        assert r[i] == x || r[i] in multiset(init);
      }
      AppendNewId(r, last);
    }
  }

  lemma {:induction false} SortKeepsIds(s: seq<ProductSale>)
    requires UniqueSaleIds(s)
    ensures UniqueSaleIds(SortByRevenue(s))
  {
    if s != [] {
      var init, last := s[..|s| - 1], s[|s| - 1];
      SortKeepsIds(init);
      var sorted := SortByRevenue(init);
      forall i | 0 <= i < |sorted|
        ensures sorted[i].id != last.id
      {
        assert sorted[i] in multiset(init);
        var k :| 0 <= k < |init| && init[k] == sorted[i];
        assert s[k] == init[k];
      }
      InsertKeepsIds(sorted, last);
    }
  }

  lemma TakeFiveOfSorted(s: seq<ProductSale>)
    requires ByRevenue(s) && UniqueSaleIds(s)
    ensures var r := TakeFive(s);
      |r| <= 5 && UniqueSaleIds(r) && ByRevenue(r)
  {
  }

  /** `topProducts` has at most five entries, at most one per product, in non-increasing revenue. */
  lemma TopProductsShape(txs: seq<Transaction>)
    ensures var r := TopProductsSpec(txs);
      |r| <= 5 && UniqueSaleIds(r) && ByRevenue(r)
  {
    SalesOnePerProduct(txs);
    SortKeepsIds(SalesSpec(txs));
    SortByRevenueSorted(SalesSpec(txs));
    TakeFiveOfSorted(SortByRevenue(SalesSpec(txs)));
  }

  /** Cutting a sorted permutation of `all` to five leaves out nothing that earned more than what was kept. */
  lemma TakeFiveBeatsTheRest(all: seq<ProductSale>, sorted: seq<ProductSale>)
    requires ByRevenue(sorted) && multiset(sorted) == multiset(all)
    ensures var r := TakeFive(sorted);
      forall k, i :: 0 <= k < |all| && all[k] !in r && 0 <= i < |r| ==> r[i].revenue >= all[k].revenue
  {
    var r := TakeFive(sorted);
    forall k, i | 0 <= k < |all| && all[k] !in r && 0 <= i < |r|
      ensures r[i].revenue >= all[k].revenue
    {
      assert all[k] in multiset(sorted);
      var j :| 0 <= j < |sorted| && sorted[j] == all[k];
      assert forall m :: 0 <= m < |r| ==> r[m] == sorted[m];
      assert j >= |r|;
    }
  }

  /** No product left out of `topProducts` earned more than any product kept. */
  lemma TopProductsBeatTheRest(txs: seq<Transaction>)
    ensures var all, r := SalesSpec(txs), TopProductsSpec(txs);
      forall k, i :: 0 <= k < |all| && all[k] !in r && 0 <= i < |r| ==> r[i].revenue >= all[k].revenue
  {
    SortByRevenueSorted(SalesSpec(txs));
    TakeFiveBeatsTheRest(SalesSpec(txs), SortByRevenue(SalesSpec(txs)));
  }

  /** Every kept entry is the gathered entry of its product. */
  lemma TopProductsAreGathered(txs: seq<Transaction>)
    ensures forall i :: 0 <= i < |TopProductsSpec(txs)| ==>
      TopProductsSpec(txs)[i] == SaleOf(AllLines(txs), TopProductsSpec(txs)[i].id)
  {
    var keys := Distinct(LineIds(AllLines(txs)));
    var s := SalesSpec(txs);
    var sorted := SortByRevenue(s);
    var r := TakeFive(sorted);
    forall i | 0 <= i < |r|
      ensures r[i] == SaleOf(AllLines(txs), r[i].id)
    {
      assert r[i] == sorted[i];
      assert sorted[i] in multiset(s);
      var k :| 0 <= k < |s| && s[k] == r[i];
      assert s[k] == SaleOf(AllLines(txs), keys[k]);
    }
  }

  // ---------------------------------------------------------------------
  // Nothing lost: the entries add up to the lines
  // ---------------------------------------------------------------------

  function QuantityTotal(s: seq<ProductSale>): int {
    if s == [] then 0 else QuantityTotal(s[..|s| - 1]) + s[|s| - 1].quantity
  }

  function RevenueTotal(s: seq<ProductSale>): int {
    if s == [] then 0 else RevenueTotal(s[..|s| - 1]) + s[|s| - 1].revenue
  }

  /** Units and revenue of the products `keys`, summed. */
  function QuantitySum(keys: seq<string>, lines: seq<CartItem>): int {
    if keys == [] then 0 else QuantitySum(keys[..|keys| - 1], lines) + QuantityOf(lines, keys[|keys| - 1])
  }

  function RevenueSum(keys: seq<string>, lines: seq<CartItem>): int {
    if keys == [] then 0 else RevenueSum(keys[..|keys| - 1], lines) + RevenueOf(lines, keys[|keys| - 1])
  }

  lemma {:induction false} SalesOfTotals(keys: seq<string>, lines: seq<CartItem>)
    ensures QuantityTotal(SalesOf(keys, lines)) == QuantitySum(keys, lines)
    ensures RevenueTotal(SalesOf(keys, lines)) == RevenueSum(keys, lines)
  {
    if keys != [] {
      var init := keys[..|keys| - 1];
      SalesOfTotals(init, lines);
      var a := SalesOf(keys, lines);
      assert a[..|a| - 1] == SalesOf(init, lines);
    }
  }

  lemma {:induction false} SumsSnoc(keys: seq<string>, lines: seq<CartItem>, item: CartItem)
    requires NoDuplicates(keys)
    ensures QuantitySum(keys, lines + [item])
         == QuantitySum(keys, lines) + (if item.product.id in keys then item.quantity else 0)
    ensures RevenueSum(keys, lines + [item])
         == RevenueSum(keys, lines) + (if item.product.id in keys then LineTotal(item) else 0)
  {
    assert (lines + [item])[..|lines|] == lines;
    if keys != [] {
      var init := keys[..|keys| - 1];
      assert keys == init + [keys[|keys| - 1]];
      SumsSnoc(init, lines, item);
    }
  }

  /** Nothing is sold before the first line. */
  lemma {:induction false} SumsOfNoLines(keys: seq<string>)
    ensures QuantitySum(keys, []) == 0 && RevenueSum(keys, []) == 0
  {
    if keys != [] {
      SumsOfNoLines(keys[..|keys| - 1]);
    }
  }

  /**
   * Summed over a list of distinct keys that covers every line's product,
   * units and revenue are those of all lines.
   */
  lemma {:induction false} CoveringSums(keys: seq<string>, lines: seq<CartItem>)
    requires NoDuplicates(keys)
    requires forall i :: 0 <= i < |lines| ==> lines[i].product.id in keys
    ensures QuantitySum(keys, lines) == TotalItems(lines)
    ensures RevenueSum(keys, lines) == TotalPrice(lines)
  {
    if lines == [] {
      SumsOfNoLines(keys);
    } else {
      var init, item := lines[..|lines| - 1], lines[|lines| - 1];
      CoveringSums(keys, init);
      assert lines == init + [item];
      SumsSnoc(keys, init, item);
    }
  }

  /** Summed over every product sold, units and revenue are those of all lines. */
  lemma SumsAddUp(lines: seq<CartItem>)
    ensures QuantitySum(Distinct(LineIds(lines)), lines) == TotalItems(lines)
    ensures RevenueSum(Distinct(LineIds(lines)), lines) == TotalPrice(lines)
  {
    var ids := LineIds(lines);
    var keys := Distinct(ids);
    assert forall i :: 0 <= i < |lines| ==> lines[i].product.id in keys by {
      assert forall i :: 0 <= i < |lines| ==> lines[i].product.id == ids[i] && ids[i] in keys;
    }
    CoveringSums(keys, lines);
  }

  /**
   * Gathering loses and invents nothing: the entries' quantities add up to
   * every unit sold and their revenues to the sum of all lines, at the
   * prices frozen in the transactions.
   */
  lemma SalesConserveLines(txs: seq<Transaction>)
    ensures QuantityTotal(SalesSpec(txs)) == TotalItems(AllLines(txs))
    ensures RevenueTotal(SalesSpec(txs)) == TotalPrice(AllLines(txs))
  {
    SalesOfTotals(Distinct(LineIds(AllLines(txs))), AllLines(txs));
    SumsAddUp(AllLines(txs));
  }
}
