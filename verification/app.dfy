/**
 * The application state of App.tsx: the catalog, the cart and the ledger of
 * committed transactions, with the handlers that change them.  Each handler
 * is tied to the pure list transformation of CartRules it applies; the
 * engine keeps one invariant across all of them (`Valid`).
 *
 * `Date.now()` and the date of a sale are inputs (`now`, `day`); login,
 * the dialog's open flag and rendering are not part of the model.
 */
module App {
  import opened Wrappers
  import opened Seqs
  import opened Numbers
  import opened Domain
  import opened CartRules
  import opened CheckoutModal
  import opened ProductCatalog
  import Dashboard
  import TopProducts
  import ShoppingCart

  /** Every transaction's total is the sum of its lines at the prices frozen in them. */
  predicate Reconciled(txs: seq<Transaction>) {
    forall i :: 0 <= i < |txs| ==> txs[i].total == TotalPrice(txs[i].items)
  }

  /**
   * A sale that went through the checkout dialog: it has at least one line,
   * it records a cash amount exactly when paid in cash, and that amount
   * covers the total.
   */
  predicate Settled(tx: Transaction) {
    && |tx.items| > 0
    && (tx.cashAmount.Some? <==> tx.paymentMethod == "cash")
    && (tx.cashAmount.Some? ==> tx.cashAmount.value >= tx.total)
  }

  predicate LedgerSettled(txs: seq<Transaction>) {
    forall i :: 0 <= i < |txs| ==> Settled(txs[i])
  }

  /** `TRX-${Date.now()}`. */
  function TransactionId(now: int): (id: string)
    ensures |id| > 4 && id[..4] == "TRX-" && id[4..] == Decimal(now)
  {
    "TRX-" + Decimal(now)
  }

  /** Two sales stamped at different instants get different ids. */
  lemma TransactionIdsDiffer(now1: int, now2: int)
    requires now1 != now2
    ensures TransactionId(now1) != TransactionId(now2)
  {
    var a, b := TransactionId(now1), TransactionId(now2);
    if a == b {
      assert a[4..] == b[4..];
      DecimalInjective(now1, now2);
    }
  }

  /**
   * The engine's invariant on its three lists: the catalog has one entry per
   * id and no negative stock; the cart has one line per product, none above
   * its stock or below one unit, each holding the catalog's current record
   * of its product; every sale's total adds up.
   */
  ghost predicate ValidState(products: seq<Product>, cart: seq<CartItem>, txs: seq<Transaction>) {
    && UniqueIds(products) && NonNegativeStock(products)
    && DistinctLines(cart) && WithinStock(cart) && PositiveLines(cart)
    && SnapshotsCurrent(cart, products)
    && Reconciled(txs)
  }

  /**
   * Recording the cart as a sale and taking its quantities off the catalog
   * keeps the invariant, conserves stock and raises no product's stock.
   */
  lemma CheckoutKeepsValid(products: seq<Product>, cart: seq<CartItem>, txs: seq<Transaction>, tx: Transaction)
    requires ValidState(products, cart, txs)
    requires tx.items == cart && tx.total == TotalPrice(cart)
    ensures var after := StockAfterCheckout(products, cart);
      && ValidState(after, [], [tx] + txs)
      && TotalStock(after) == TotalStock(products) - TotalItems(cart)
      && forall i :: 0 <= i < |after| ==> after[i].stock <= products[i].stock
  {
    CheckoutKeepsStockNonNegative(products, cart);
    CheckoutConservesStock(products, cart);
    CheckoutNeverRaisesStock(products, cart);
    forall i | 0 <= i < |[tx] + txs|
      ensures ([tx] + txs)[i].total == TotalPrice(([tx] + txs)[i].items)
    {
      if i > 0 {
        assert ([tx] + txs)[i] == txs[i - 1];
      }
    }
  }

  /** What the checkout path of the page ends in. */
  datatype Outcome =
    | CartEmpty              // no Checkout button is shown for an empty cart
    | PaymentShort           // the dialog refuses the confirmation
    | Committed(tx: Transaction)

  class Engine {
    var products: seq<Product>
    var cartItems: seq<CartItem>
    var transactions: seq<Transaction>

    /** The engine's invariant; each handler's contract says for which calls it is kept. */
    ghost predicate Valid()
      reads this
    {
      ValidState(products, cartItems, transactions)
    }

    /** The state the page mounts with: the seeded catalog, an empty cart and an empty ledger. */
    constructor ()
      ensures products == INITIAL_PRODUCTS && cartItems == [] && transactions == []
      ensures Valid()
    {
      products := INITIAL_PRODUCTS;
      cartItems := [];
      transactions := [];
      InitialCatalogValid();
    }

    /**
     * `addToCart` (App.tsx:86-98).  From the catalog's enabled add button
     * (a catalog product with stock) the invariant is kept.
     */
    method AddToCart(product: Product)
      modifies this
      ensures cartItems == AddedToCart(old(cartItems), product)
      ensures products == old(products) && transactions == old(transactions)
      ensures old(Valid()) && product in old(products) && !AddDisabled(product) ==> Valid()
    {
      cartItems := AddedToCart(cartItems, product);
      if old(Valid()) && product in products && !AddDisabled(product) {
        var old_cart := old(cartItems);
        AddToCartEffect(old_cart, product);
        AddToCartWithinStock(old_cart, product);
        forall i | 0 <= i < |cartItems|
          ensures cartItems[i].product in products
        {
          if i < |old_cart| {
            assert cartItems[i].product == old_cart[i].product;
          }
        }
      }
    }

    /**
     * `updateQuantity` (App.tsx:100-110).  It does not clamp: the invariant
     * is kept for every admissible request.
     */
    method UpdateQuantity(productId: string, quantity: int)
      modifies this
      ensures cartItems == QuantityUpdated(old(cartItems), productId, quantity)
      ensures products == old(products) && transactions == old(transactions)
      ensures old(Valid()) && Admissible(old(cartItems), productId, quantity) ==> Valid()
    {
      cartItems := QuantityUpdated(cartItems, productId, quantity);
      if old(Valid()) && Admissible(old(cartItems), productId, quantity) {
        var old_cart := old(cartItems);
        UpdateWithinStock(old_cart, productId, quantity);
        if quantity == 0 {
          RemoveEffect(old_cart, productId);
        } else {
          SetQuantityEffect(old_cart, productId, quantity);
        }
        forall i | 0 <= i < |cartItems|
          ensures cartItems[i].product in products
        {
          if quantity == 0 {
            assert cartItems[i] in old_cart;
          } else {
            assert cartItems[i].product == old_cart[i].product;
          }
        }
      }
    }

    /**
     * A control of the cart panel on line `k` (shopping-cart.tsx:46-88): the
     * quantity it requests, as the panel writes it, is handed to
     * `updateQuantity`; a disabled control does nothing.  The invariant is
     * kept by every control except typed text read as a negative number, and
     * by any request that is admissible.
     */
    method ApplyLineAction(k: nat, action: ShoppingCart.LineAction)
      requires k < |cartItems|
      modifies this
      ensures ShoppingCart.RequestAsWritten(old(cartItems)[k], action).None? ==> unchanged(this)
      ensures ShoppingCart.RequestAsWritten(old(cartItems)[k], action).Some? ==>
        cartItems == QuantityUpdated(old(cartItems), old(cartItems)[k].product.id,
                                     ShoppingCart.RequestAsWritten(old(cartItems)[k], action).value)
      ensures products == old(products) && transactions == old(transactions)
      ensures old(Valid()) && (!action.Typed? || ParseIntOr0(action.input) >= 0) ==> Valid()
      ensures var q := ShoppingCart.RequestAsWritten(old(cartItems)[k], action);
        old(Valid()) && q.Some? && Admissible(old(cartItems), old(cartItems)[k].product.id, q.value) ==> Valid()
    {
      var request := ShoppingCart.RequestAsWritten(cartItems[k], action);
      if request.Some? {
        if Valid() && (!action.Typed? || ParseIntOr0(action.input) >= 0) {
          ShoppingCart.RequestsAsWrittenKeepCartWithinStock(cartItems, k, action);
        }
        UpdateQuantity(cartItems[k].product.id, request.value);
      }
    }

    /** `clearCart` (App.tsx:112-114). */
    method ClearCart()
      modifies this
      ensures cartItems == []
      ensures products == old(products) && transactions == old(transactions)
      ensures old(Valid()) ==> Valid()
    {
      cartItems := [];
    }

    /** `handleLogout` (App.tsx:76-80): the cart is emptied; the session fields are not modelled. */
    method HandleLogout()
      modifies this
      ensures cartItems == []
      ensures products == old(products) && transactions == old(transactions)
      ensures old(Valid()) ==> Valid()
    {
      cartItems := [];
    }

    /**
     * `handleCheckout` (App.tsx:116-138): the cart is recorded as a sale at the
     * head of the ledger, every product loses the quantity of its line, and
     * the cart is emptied.  Stock is conserved and the dashboard's revenue
     * and item counters grow by exactly this sale.
     */
    method HandleCheckout(paymentMethod: string, cashAmount: Option<int>, now: int, day: int)
      modifies this
      ensures transactions ==
        [Transaction(TransactionId(now), day, old(cartItems), TotalPrice(old(cartItems)), paymentMethod, cashAmount)]
        + old(transactions)
      ensures products == StockAfterCheckout(old(products), old(cartItems))
      ensures cartItems == []
      ensures old(Valid()) ==> Valid()
      ensures old(Valid()) ==> TotalStock(products) == old(TotalStock(products)) - old(TotalItems(cartItems))
      ensures old(Valid()) ==> forall i :: 0 <= i < |products| ==> products[i].stock <= old(products[i].stock)
      ensures Dashboard.Revenue(transactions) == old(Dashboard.Revenue(transactions)) + old(TotalPrice(cartItems))
      ensures Dashboard.ItemsSold(transactions) == old(Dashboard.ItemsSold(transactions)) + old(TotalItems(cartItems))
    {
      var total := TotalPrice(cartItems);
      var transaction := Transaction(TransactionId(now), day, cartItems, total, paymentMethod, cashAmount);
      if Valid() {
        CheckoutKeepsValid(products, cartItems, transactions, transaction);
      }
      Dashboard.NewSaleCounters(transaction, transactions);
      products := StockAfterCheckout(products, cartItems);
      transactions := [transaction] + transactions;
      cartItems := [];
    }

    /**
     * The checkout path of the page: the Checkout button (shown only for a
     * non-empty cart, App.tsx:197), the dialog's confirmation with the cart
     * total (checkout-modal.tsx:19-32), then `handleCheckout`.  Every sale
     * committed this way is settled.
     */
    method Checkout(gate: PaymentGate, now: int, day: int) returns (outcome: Outcome)
      modifies this, gate
      ensures old(cartItems) == [] ==> outcome == CartEmpty && unchanged(this) && unchanged(gate)
      ensures old(cartItems) != [] && old(gate.ConfirmDisabled(TotalPrice(cartItems))) ==>
        outcome == PaymentShort && unchanged(this) && unchanged(gate)
      ensures outcome.Committed? <==> old(cartItems) != [] && !old(gate.ConfirmDisabled(TotalPrice(cartItems)))
      ensures outcome.Committed? ==>
        && transactions == [outcome.tx] + old(transactions)
        && outcome.tx == Transaction(TransactionId(now), day, old(cartItems), TotalPrice(old(cartItems)),
                                     old(gate.paymentMethod), Settle(old(gate.paymentMethod), old(gate.cashAmount)).cashAmount)
        && Settled(outcome.tx)
        && products == StockAfterCheckout(old(products), old(cartItems))
        && cartItems == []
        && gate.IsInitial()
      ensures old(Valid()) ==> Valid()
      ensures old(LedgerSettled(transactions)) ==> LedgerSettled(transactions)
    {
      if cartItems == [] {
        return CartEmpty;
      }
      var total := TotalPrice(cartItems);
      var confirmed := gate.HandleConfirm(total);
      if confirmed.None? {
        return PaymentShort;
      }
      var payment := confirmed.value;
      SettledPaymentCovers(old(gate.paymentMethod), old(gate.cashAmount), total);
      HandleCheckout(payment.paymentMethod, payment.cashAmount, now, day);
      outcome := Committed(transactions[0]);
    }
  }

  /** With totals that add up, the ledger's revenue is the sum of every line it holds. */
  lemma {:induction false} LedgerIsItsLines(txs: seq<Transaction>)
    requires Reconciled(txs)
    ensures Dashboard.Revenue(txs) == TotalPrice(TopProducts.AllLines(txs))
    ensures Dashboard.ItemsSold(txs) == TotalItems(TopProducts.AllLines(txs))
  {
    if txs != [] {
      var init := txs[..|txs| - 1];
      LedgerIsItsLines(init);
      TotalsOfConcat(TopProducts.AllLines(init), txs[|txs| - 1].items);
    }
  }

  /**
   * The dashboard's headline counters and its per-product table agree on a
   * reconciled ledger: the products' revenues add up to the total revenue and
   * their quantities to the items sold.
   */
  lemma DashboardAgrees(txs: seq<Transaction>, today: int)
    requires Reconciled(txs)
    ensures var s := Dashboard.ComputeStats(txs, today);
      && TopProducts.RevenueTotal(TopProducts.SalesSpec(txs)) == s.totalRevenue
      && TopProducts.QuantityTotal(TopProducts.SalesSpec(txs)) == s.totalItems
  {
    LedgerIsItsLines(txs);
    TopProducts.SalesConserveLines(txs);
  }
}
