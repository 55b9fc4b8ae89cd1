/**
 * The list transformations behind App's state handlers (App.tsx:86-137),
 * lifted out of the React setters as pure functions, and the invariants of
 * the catalog and the cart that the engine keeps.
 */
module CartRules {
  import opened Wrappers
  import opened Seqs
  import opened Domain

  /** `Math.min(a, b)`. */
  function Min(a: int, b: int): int {
    if a <= b then a else b
  }

  /** `cart.find(item => item.id === id)`: the first line for product `id`, if any. */
  function FindLine(cart: seq<CartItem>, id: string): (r: Option<CartItem>)
    ensures r.Some? ==> r.value in cart && r.value.product.id == id
    ensures r.None? <==> forall i :: 0 <= i < |cart| ==> cart[i].product.id != id
  {
    if cart == [] then None
    else
      var init := cart[..|cart| - 1];
      assert cart == init + [cart[|cart| - 1]];
      var found := FindLine(init, id);
      if found.Some? then found
      else if cart[|cart| - 1].product.id == id then Some(cart[|cart| - 1])
      else None
  }

  /** Line `k` is the first line carrying `id`. */
  predicate FirstLineAt(cart: seq<CartItem>, id: string, k: int) {
    && 0 <= k < |cart| && cart[k].product.id == id
    && forall j :: 0 <= j < k ==> cart[j].product.id != id
  }

  /** `find` returns the first line carrying `id`. */
  lemma {:induction false} FindLineIsFirst(cart: seq<CartItem>, id: string, k: nat)
    requires FirstLineAt(cart, id, k)
    ensures FindLine(cart, id) == Some(cart[k])
  {
    var init := cart[..|cart| - 1];
    assert cart == init + [cart[|cart| - 1]];
    if k < |init| {
      FindLineIsFirst(init, id, k);
    } else {
      assert FindLine(init, id).None?;
    }
  }

  /** At most one line per product id. */
  predicate DistinctLines(cart: seq<CartItem>) {
    forall i, j :: 0 <= i < j < |cart| ==> cart[i].product.id != cart[j].product.id
  }

  /** No line asks for more than the stock copied into it. */
  predicate WithinStock(cart: seq<CartItem>) {
    forall i :: 0 <= i < |cart| ==> cart[i].quantity <= cart[i].product.stock
  }

  /** Every line holds at least one unit. */
  predicate PositiveLines(cart: seq<CartItem>) {
    forall i :: 0 <= i < |cart| ==> cart[i].quantity >= 1
  }

  /** Every line's product copy is the catalog's current record of that product. */
  predicate SnapshotsCurrent(cart: seq<CartItem>, products: seq<Product>) {
    forall i :: 0 <= i < |cart| ==> cart[i].product in products
  }

  /** In a cart with one line per product, `find` returns that line. */
  lemma {:induction false} FindLineOfDistinct(cart: seq<CartItem>, k: nat)
    requires DistinctLines(cart) && k < |cart|
    ensures FindLine(cart, cart[k].product.id) == Some(cart[k])
  {
    var init := cart[..|cart| - 1];
    assert cart == init + [cart[|cart| - 1]];
    if k < |init| {
      FindLineOfDistinct(init, k);
    } else {
      assert FindLine(init, cart[k].product.id).None?;
    }
  }

  /** `addToCart`'s updater (App.tsx:87-96). */
  function AddedToCart(cart: seq<CartItem>, product: Product): (r: seq<CartItem>)
    ensures |r| == if FindLine(cart, product.id).Some? then |cart| else |cart| + 1
    ensures forall i :: 0 <= i < |cart| ==> r[i].product == cart[i].product
  {
    if FindLine(cart, product.id).Some? then
      seq(|cart|, i requires 0 <= i < |cart| =>
        if cart[i].product.id == product.id
        then cart[i].(quantity := Min(cart[i].quantity + 1, cart[i].product.stock))
        else cart[i])
    else
      cart + [CartItem(product, 1)]
  }

  /**
   * Adding keeps one line per product.  A product already in the cart has its
   * line raised to `min(quantity + 1, stock)` in place; a new product gets a
   * line of quantity 1 at the end; no other line changes.
   */
  lemma AddToCartEffect(cart: seq<CartItem>, product: Product)
    requires DistinctLines(cart)
    ensures var r := AddedToCart(cart, product);
      && DistinctLines(r)
      && (forall id :: id != product.id ==> FindLine(r, id) == FindLine(cart, id))
      && match FindLine(cart, product.id)
         case Some(line) =>
           FindLine(r, product.id) == Some(line.(quantity := Min(line.quantity + 1, line.product.stock)))
         case None =>
           r == cart + [CartItem(product, 1)] && r[|r| - 1].quantity == 1
  {
    match FindLine(cart, product.id)
    case Some(line) =>
      var k :| 0 <= k < |cart| && cart[k] == line;
      AddExistingEffect(cart, product, k);
    case None =>
      AddNewEffect(cart, product);
  }

  /** Two carts with the same products line by line, equal on every line of `id`, find the same line for `id`. */
  lemma {:induction false} FindLineAgrees(a: seq<CartItem>, b: seq<CartItem>, id: string)
    requires |a| == |b|
    requires forall i :: 0 <= i < |a| ==> a[i].product.id == b[i].product.id
    requires forall i :: 0 <= i < |a| && a[i].product.id == id ==> a[i] == b[i]
    ensures FindLine(a, id) == FindLine(b, id)
  {
    if a != [] {
      FindLineAgrees(a[..|a| - 1], b[..|b| - 1], id);
    }
  }

  /** With a line for the product, adding raises that product's lines to `min(quantity + 1, stock)` and keeps the others. */
  lemma RaisedLines(cart: seq<CartItem>, product: Product, k: nat)
    requires k < |cart| && cart[k].product.id == product.id
    ensures var r := AddedToCart(cart, product);
      && |r| == |cart|
      && forall i :: 0 <= i < |cart| ==>
           r[i] == if cart[i].product.id == product.id
                   then cart[i].(quantity := Min(cart[i].quantity + 1, cart[i].product.stock))
                   else cart[i]
  {
    assert FindLine(cart, product.id).Some?;
  }

  /** Adding a product that has the line `k` raises that line and changes nothing else. */
  lemma AddExistingEffect(cart: seq<CartItem>, product: Product, k: nat)
    requires DistinctLines(cart) && k < |cart| && cart[k].product.id == product.id
    ensures var r := AddedToCart(cart, product);
      && DistinctLines(r)
      && (forall id :: id != product.id ==> FindLine(r, id) == FindLine(cart, id))
      && FindLine(r, product.id) == Some(cart[k].(quantity := Min(cart[k].quantity + 1, cart[k].product.stock)))
  {
    var r := AddedToCart(cart, product);
    RaisedLines(cart, product, k);
    FindLineOfDistinct(r, k);
    forall id | id != product.id
      ensures FindLine(r, id) == FindLine(cart, id)
    {
      FindLineAgrees(r, cart, id);
    }
  }

  /** Adding a product with no line appends a line of one unit and changes nothing else. */
  lemma AddNewEffect(cart: seq<CartItem>, product: Product)
    requires DistinctLines(cart) && FindLine(cart, product.id).None?
    ensures var r := AddedToCart(cart, product);
      && DistinctLines(r)
      && (forall id :: id != product.id ==> FindLine(r, id) == FindLine(cart, id))
      && r == cart + [CartItem(product, 1)] && r[|r| - 1].quantity == 1
  {
    var r := AddedToCart(cart, product);
    assert r == cart + [CartItem(product, 1)];
    assert r[..|cart|] == cart;
  }

  /** Adding a product with stock never pushes a line above its stock, and every line keeps at least one unit. */
  lemma AddToCartWithinStock(cart: seq<CartItem>, product: Product)
    requires WithinStock(cart) && PositiveLines(cart) && product.stock >= 1
    ensures WithinStock(AddedToCart(cart, product))
    ensures PositiveLines(AddedToCart(cart, product))
  {
  }

  /** `updateQuantity`'s updaters (App.tsx:100-110): remove the line at 0, otherwise set its quantity. */
  function QuantityUpdated(cart: seq<CartItem>, id: string, quantity: int): (r: seq<CartItem>)
    ensures forall i :: 0 <= i < |r| ==> r[i] in cart || (r[i].product.id == id && r[i].quantity == quantity)
    ensures forall i :: 0 <= i < |r| ==> FindLine(cart, r[i].product.id).Some?
  {
    if quantity == 0 then
      Filter(cart, (item: CartItem) => item.product.id != id)
    else
      seq(|cart|, i requires 0 <= i < |cart| =>
        if cart[i].product.id == id then cart[i].(quantity := quantity) else cart[i])
  }

  /** Filtering a cart with one line per product keeps one line per product. */
  lemma {:induction false} FilterKeepsDistinctLines(cart: seq<CartItem>, p: CartItem -> bool)
    requires DistinctLines(cart)
    ensures DistinctLines(Filter(cart, p))
  {
    if cart != [] {
      var init := cart[..|cart| - 1];
      assert cart == init + [cart[|cart| - 1]];
      FilterKeepsDistinctLines(init, p);
    }
  }

  /**
   * Quantity 0 removes exactly the lines of that product and keeps every other
   * line, in order.
   */
  lemma RemoveEffect(cart: seq<CartItem>, id: string)
    ensures var r := QuantityUpdated(cart, id, 0);
      && FindLine(r, id).None?
      && SubsequenceOf(r, cart)
      && (forall i :: 0 <= i < |cart| && cart[i].product.id != id ==> cart[i] in r)
      && (DistinctLines(cart) ==> DistinctLines(r))
  {
    var p := (item: CartItem) => item.product.id != id;
    if DistinctLines(cart) {
      FilterKeepsDistinctLines(cart, p);
    }
  }

  /**
   * Quantity 0 keeps each line of another product as often as the cart holds
   * it, and no line of that product.
   */
  lemma RemoveMultiplicity(cart: seq<CartItem>, id: string, line: CartItem)
    ensures multiset(QuantityUpdated(cart, id, 0))[line]
         == if line.product.id != id then multiset(cart)[line] else 0
  {
    var p := (item: CartItem) => item.product.id != id;
    FilterMultiplicity(cart, p, line);
  }

  /**
   * A non-zero quantity sets only the lines of that product, leaves the
   * others as they were, and adds no line.
   */
  lemma SetQuantityEffect(cart: seq<CartItem>, id: string, quantity: int)
    requires quantity != 0 && DistinctLines(cart)
    ensures var r := QuantityUpdated(cart, id, quantity);
      && |r| == |cart|
      && (forall i :: 0 <= i < |cart| ==>
            r[i] == if cart[i].product.id == id then cart[i].(quantity := quantity) else cart[i])
      && DistinctLines(r)
      && (forall other :: other != id ==> FindLine(r, other) == FindLine(cart, other))
      && FindLine(r, id) == match FindLine(cart, id)
                           case Some(line) => Some(line.(quantity := quantity))
                           case None => None
  {
    var r := QuantityUpdated(cart, id, quantity);
    forall other
      ensures FindLine(r, other) == (if other == id then
        match FindLine(cart, id)
        case Some(line) => Some(line.(quantity := quantity))
        case None => None
        else FindLine(cart, other))
    {
      if j :| 0 <= j < |cart| && cart[j].product.id == other {
        FindLineOfDistinct(cart, j);
        FindLineOfDistinct(r, j);
      }
    }
  }

  /** An id with no line leaves the cart exactly as it was, whatever the quantity. */
  lemma UpdateUnknownIdIsNoOp(cart: seq<CartItem>, id: string, quantity: int)
    requires FindLine(cart, id).None?
    ensures QuantityUpdated(cart, id, quantity) == cart
  {
    if quantity == 0 {
      FilterKeepsAll(cart, (item: CartItem) => item.product.id != id);
    }
  }

  /** A request the cart can take: a removal, or a positive quantity within the line's stock. */
  predicate Admissible(cart: seq<CartItem>, id: string, quantity: int) {
    || quantity == 0
    || (quantity >= 1 && forall i :: 0 <= i < |cart| && cart[i].product.id == id ==> quantity <= cart[i].product.stock)
  }

  /**
   * `updateQuantity` does not clamp: an admissible request keeps every line
   * within its stock and holding at least one unit.
   */
  lemma UpdateWithinStock(cart: seq<CartItem>, id: string, quantity: int)
    requires WithinStock(cart) && PositiveLines(cart)
    requires Admissible(cart, id, quantity)
    ensures WithinStock(QuantityUpdated(cart, id, quantity))
    ensures PositiveLines(QuantityUpdated(cart, id, quantity))
  {
  }

  /**
   * Conversely, for a product that has a line, a request that leaves every
   * line within its stock and holding at least one unit was admissible.
   */
  lemma UpdateKeepsLinesOnlyIfAdmissible(cart: seq<CartItem>, id: string, quantity: int)
    requires FindLine(cart, id).Some?
    requires WithinStock(QuantityUpdated(cart, id, quantity))
    requires PositiveLines(QuantityUpdated(cart, id, quantity))
    ensures Admissible(cart, id, quantity)
  {
    if quantity != 0 {
      var line := FindLine(cart, id).value;
      var k :| 0 <= k < |cart| && cart[k] == line;
      SetLineAt(cart, id, quantity, k);
      forall i | 0 <= i < |cart| && cart[i].product.id == id
        ensures quantity <= cart[i].product.stock
      {
        SetLineAt(cart, id, quantity, i);
      }
    }
  }

  /** A non-zero quantity leaves line `i` set if it carries `id` and as it was otherwise. */
  lemma SetLineAt(cart: seq<CartItem>, id: string, quantity: int, i: nat)
    requires quantity != 0 && i < |cart|
    ensures |QuantityUpdated(cart, id, quantity)| == |cart|
    ensures QuantityUpdated(cart, id, quantity)[i]
         == if cart[i].product.id == id then cart[i].(quantity := quantity) else cart[i]
  {
  }

  /** The products in the catalog after checkout (App.tsx:128-134): each loses its cart line's quantity. */
  function StockAfterCheckout(products: seq<Product>, cart: seq<CartItem>): (r: seq<Product>)
    ensures |r| == |products|
    ensures forall i :: 0 <= i < |r| ==> r[i] == products[i].(stock := r[i].stock)
  {
    seq(|products|, i requires 0 <= i < |products| =>
      match FindLine(cart, products[i].id)
      case Some(line) => products[i].(stock := products[i].stock - line.quantity)
      case None => products[i])
  }

  /**
   * Checkout lowers each product that has a cart line by exactly that line's
   * quantity and leaves every product without a line unchanged.
   */
  lemma CheckoutStockEffect(products: seq<Product>, cart: seq<CartItem>)
    requires DistinctLines(cart)
    ensures var r := StockAfterCheckout(products, cart);
      && (forall i, k :: 0 <= i < |products| && 0 <= k < |cart| && cart[k].product.id == products[i].id ==>
            r[i].stock == products[i].stock - cart[k].quantity)
      && (forall i :: 0 <= i < |products| && FindLine(cart, products[i].id).None? ==> r[i] == products[i])
  {
    forall k | 0 <= k < |cart| {
      FindLineOfDistinct(cart, k);
    }
  }

  /** With every line holding at least one unit, checkout raises no product's stock. */
  lemma CheckoutNeverRaisesStock(products: seq<Product>, cart: seq<CartItem>)
    requires PositiveLines(cart)
    ensures forall i :: 0 <= i < |products| ==> StockAfterCheckout(products, cart)[i].stock <= products[i].stock
  {
    forall i | 0 <= i < |products|
      ensures StockAfterCheckout(products, cart)[i].stock <= products[i].stock
    {
      match FindLine(cart, products[i].id)
      case None =>
      case Some(line) =>
        var k :| 0 <= k < |cart| && cart[k] == line;
    }
  }

  /**
   * With one catalog entry per id, lines copied from the catalog and no line
   * above its stock, checkout leaves no stock negative.
   */
  lemma CheckoutKeepsStockNonNegative(products: seq<Product>, cart: seq<CartItem>)
    requires UniqueIds(products) && NonNegativeStock(products)
    requires WithinStock(cart) && SnapshotsCurrent(cart, products)
    ensures NonNegativeStock(StockAfterCheckout(products, cart))
    ensures UniqueIds(StockAfterCheckout(products, cart))
  {
    var r := StockAfterCheckout(products, cart);
    forall i | 0 <= i < |r|
      ensures r[i].stock >= 0
    {
      match FindLine(cart, products[i].id)
      case None =>
      case Some(line) =>
        var k :| 0 <= k < |cart| && cart[k] == line;
        var j :| 0 <= j < |products| && products[j] == line.product;
        assert products[j].id == products[i].id;
        assert j == i;
    }
  }

  /** Sum of the catalog's stock. */
  function TotalStock(products: seq<Product>): int {
    if products == [] then 0 else TotalStock(products[..|products| - 1]) + products[|products| - 1].stock
  }

  /** The quantity a cart asks of product `id` (0 without a line). */
  function Demand(cart: seq<CartItem>, id: string): int {
    match FindLine(cart, id)
    case Some(line) => line.quantity
    case None => 0
  }

  /** Sum over the catalog of what the cart asks of each product. */
  function CatalogDemand(products: seq<Product>, cart: seq<CartItem>): int {
    if products == [] then 0
    else CatalogDemand(products[..|products| - 1], cart) + Demand(cart, products[|products| - 1].id)
  }

  lemma {:induction false} StockAfterCheckoutTotal(products: seq<Product>, cart: seq<CartItem>)
    ensures TotalStock(StockAfterCheckout(products, cart)) == TotalStock(products) - CatalogDemand(products, cart)
  {
    if products != [] {
      var init := products[..|products| - 1];
      var r := StockAfterCheckout(products, cart);
      assert r[..|r| - 1] == StockAfterCheckout(init, cart);
      StockAfterCheckoutTotal(init, cart);
    }
  }

  /** Appending a line for a new product adds its quantity to that product's demand only. */
  lemma DemandSnoc(cart: seq<CartItem>, line: CartItem, id: string)
    requires DistinctLines(cart + [line])
    ensures Demand(cart + [line], id) == Demand(cart, id) + (if id == line.product.id then line.quantity else 0)
  {
    var c := cart + [line];
    assert c[..|c| - 1] == cart && c[|c| - 1] == line;
    if FindLine(cart, id).Some? {
      var k :| 0 <= k < |cart| && cart[k] == FindLine(cart, id).value;
      assert c[k] == cart[k];
      assert id != line.product.id;
    }
  }

  lemma {:induction false} CatalogDemandSnoc(products: seq<Product>, cart: seq<CartItem>, line: CartItem)
    requires UniqueIds(products) && DistinctLines(cart + [line])
    ensures CatalogDemand(products, cart + [line])
         == CatalogDemand(products, cart) + (if line.product.id in ProductIds(products) then line.quantity else 0)
  {
    if products != [] {
      var init := products[..|products| - 1];
      var id := products[|products| - 1].id;
      assert ProductIds(products) == ProductIds(init) + [id];
      CatalogDemandSnoc(init, cart, line);
      DemandSnoc(cart, line, id);
      if id == line.product.id {
        assert line.product.id !in ProductIds(init);
      }
    }
  }

  lemma {:induction false} CatalogDemandIsCartSize(products: seq<Product>, cart: seq<CartItem>)
    requires UniqueIds(products) && DistinctLines(cart)
    requires forall i :: 0 <= i < |cart| ==> cart[i].product.id in ProductIds(products)
    ensures CatalogDemand(products, cart) == TotalItems(cart)
  {
    if cart == [] {
      if products != [] {
        CatalogDemandIsCartSize(products[..|products| - 1], cart);
      }
    } else {
      var init, line := cart[..|cart| - 1], cart[|cart| - 1];
      assert cart == init + [line];
      CatalogDemandIsCartSize(products, init);
      CatalogDemandSnoc(products, init, line);
      TotalsOfConcat(init, [line]);
    }
  }

  /**
   * Stock is conserved at checkout: the catalog's total stock falls by exactly
   * the number of items in the cart.
   */
  lemma CheckoutConservesStock(products: seq<Product>, cart: seq<CartItem>)
    requires UniqueIds(products) && DistinctLines(cart) && SnapshotsCurrent(cart, products)
    ensures TotalStock(StockAfterCheckout(products, cart)) == TotalStock(products) - TotalItems(cart)
  {
    forall i | 0 <= i < |cart|
      ensures cart[i].product.id in ProductIds(products)
    {
      var j :| 0 <= j < |products| && products[j] == cart[i].product;
      assert ProductIds(products)[j] == cart[i].product.id;
    }
    StockAfterCheckoutTotal(products, cart);
    CatalogDemandIsCartSize(products, cart);
  }
}
