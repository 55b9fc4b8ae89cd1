/**
 * The shapes of the point-of-sale state (App.tsx:12-32), the seeded catalog
 * (App.tsx:34-47) and the sums the application computes over cart lines.
 * Money and quantities are integers; the product image URL is presentation
 * only and is not part of the model.
 */
module Domain {
  import opened Wrappers
  import opened Seqs

  datatype Product = Product(id: string, name: string, price: int, category: string, stock: int)

  /** A cart line: a copy of the product as it was when added, and the quantity wanted. */
  datatype CartItem = CartItem(product: Product, quantity: int)

  /**
   * A committed sale.  `day` is the local calendar day of the sale's date;
   * `items` is the cart as it was at checkout, prices included.
   */
  datatype Transaction = Transaction(
    id: string,
    day: int,
    items: seq<CartItem>,
    total: int,
    paymentMethod: string,
    cashAmount: Option<int>)

  /** The catalog the application starts with. */
  const INITIAL_PRODUCTS: seq<Product> := [
    Product("1", "Beras Premium 5kg", 75000, "Bahan Pokok", 50),
    Product("2", "Minyak Goreng 2L", 35000, "Bahan Pokok", 30),
    Product("3", "Gula Pasir 1kg", 15000, "Bahan Pokok", 40),
    Product("4", "Telur Ayam 1kg", 28000, "Protein", 25),
    Product("5", "Susu UHT 1L", 18000, "Minuman", 60),
    Product("6", "Indomie Goreng", 3500, "Mie Instan", 100),
    Product("7", "Kopi Sachet (10pcs)", 12000, "Minuman", 45),
    Product("8", "Sabun Mandi", 8000, "Kebersihan", 35),
    Product("9", "Shampo Sachet", 2500, "Kebersihan", 80),
    Product("10", "Teh Celup (25pcs)", 15000, "Minuman", 40),
    Product("11", "Tepung Terigu 1kg", 12000, "Bahan Pokok", 30),
    Product("12", "Kecap Manis 600ml", 16000, "Bumbu", 25)
  ]

  /** `item.price * item.quantity`. */
  function LineTotal(item: CartItem): int {
    item.product.price * item.quantity
  }

  /** No line has a negative price or quantity. */
  predicate NonNegativeLines(items: seq<CartItem>) {
    forall i :: 0 <= i < |items| ==> items[i].product.price >= 0 && items[i].quantity >= 0
  }

  /** `items.reduce((sum, item) => sum + item.quantity, 0)`. */
  function TotalItems(items: seq<CartItem>): (n: int)
    ensures NonNegativeLines(items) ==> n >= 0
  {
    if items == [] then 0 else TotalItems(items[..|items| - 1]) + items[|items| - 1].quantity
  }

  /** `items.reduce((sum, item) => sum + item.price * item.quantity, 0)`. */
  function TotalPrice(items: seq<CartItem>): (t: int)
    ensures NonNegativeLines(items) ==> t >= 0
  {
    if items == [] then 0 else TotalPrice(items[..|items| - 1]) + LineTotal(items[|items| - 1])
  }

  /** Both sums split over a concatenation, so they do not depend on how a cart is cut in two. */
  lemma {:induction false} TotalsOfConcat(a: seq<CartItem>, b: seq<CartItem>)
    ensures TotalItems(a + b) == TotalItems(a) + TotalItems(b)
    ensures TotalPrice(a + b) == TotalPrice(a) + TotalPrice(b)
  {
    if b != [] {
      var b' := b[..|b| - 1];
      assert (a + b)[..|a + b| - 1] == a + b';
      TotalsOfConcat(a, b');
    } else {
      assert a + b == a;
    }
  }

  function ProductIds(products: seq<Product>): seq<string> {
    seq(|products|, i requires 0 <= i < |products| => products[i].id)
  }

  /** Product ids identify products: no id is used twice in the catalog. */
  predicate UniqueIds(products: seq<Product>) {
    forall i, j :: 0 <= i < j < |products| ==> products[i].id != products[j].id
  }

  /** No product has negative stock. */
  predicate NonNegativeStock(products: seq<Product>) {
    forall i :: 0 <= i < |products| ==> products[i].stock >= 0
  }

  /** The seeded catalog has distinct ids and non-negative stock. */
  lemma InitialCatalogValid()
    ensures UniqueIds(INITIAL_PRODUCTS) && NonNegativeStock(INITIAL_PRODUCTS)
    ensures |INITIAL_PRODUCTS| == 12
  {
    InitialIdsUnique();
  }

  /** The seeded ids are "1" to "12": no two share both their length and their last digit. */
  lemma InitialIdsUnique()
    ensures UniqueIds(INITIAL_PRODUCTS)
  {
    var ids := ProductIds(INITIAL_PRODUCTS);
    assert ids == ["1", "2", "3", "4", "5", "6", "7", "8", "9", "10", "11", "12"];
    forall i, j | 0 <= i < j < |INITIAL_PRODUCTS|
      ensures INITIAL_PRODUCTS[i].id != INITIAL_PRODUCTS[j].id
    {
      assert ids[i] == INITIAL_PRODUCTS[i].id && ids[j] == INITIAL_PRODUCTS[j].id;
      assert |ids[i]| != |ids[j]| || ids[i][|ids[i]| - 1] != ids[j][|ids[j]| - 1];
    }
  }
}
