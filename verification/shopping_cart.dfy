/**
 * The cart panel (shopping-cart.tsx): the quantity each control of a cart
 * line asks `updateQuantity` for.  The panel keeps no state of its own.
 */
module ShoppingCart {
  import opened Wrappers
  import opened Seqs
  import opened Numbers
  import opened Domain
  import opened CartRules

  /** The controls of one cart line. */
  datatype LineAction =
    | Trash                   // the bin button
    | Minus                   // the "-" button
    | Plus                    // the "+" button
    | Typed(input: string)    // the number field, with the text typed into it

  /** "+" is disabled once the line has reached the stock copied into it. */
  predicate PlusDisabled(item: CartItem)
    ensures !PlusDisabled(item) ==> item.quantity + 1 <= item.product.stock
  {
    item.quantity >= item.product.stock
  }

  /**
   * The quantity the corrected panel sends to `updateQuantity` for `item`, or
   * None for a disabled control.  "-" and "+" step by one; typed text is read
   * by `parseInt(...) || 0`, 0 removes the line, and any other value is
   * brought into the input's own range, from its `min` of 1 up to its `max`,
   * the line's stock.
   */
  function Request(item: CartItem, action: LineAction): (q: Option<int>)
    ensures q.None? <==> action == Plus && PlusDisabled(item)
    ensures action == Trash ==> q == Some(0)
    ensures action == Minus ==> q == Some(item.quantity - 1)
    ensures action == Plus && !PlusDisabled(item) ==>
      q == Some(item.quantity + 1) && q.value <= item.product.stock
    ensures action.Typed? ==>
      var v, stock := ParseIntOr0(action.input), item.product.stock;
      && (v == 0 ==> q == Some(0))
      && (v != 0 && stock >= 1 ==>
            && q.Some? && 1 <= q.value <= stock
            && (1 <= v <= stock ==> q.value == v)
            && (v > stock ==> q.value == stock)
            && (v < 0 ==> q.value == 1))
      && (v != 0 && stock < 1 ==> q == Some(stock))
  {
    match action
    case Trash => Some(0)
    case Minus => Some(item.quantity - 1)
    case Plus => if PlusDisabled(item) then None else Some(item.quantity + 1)
    case Typed(input) =>
      var value := ParseIntOr0(input);
      if value == 0 then Some(0) else Some(Min(if value < 1 then 1 else value, item.product.stock))
  }

  /**
   * The request as shopping-cart.tsx:54-85 writes it: the buttons as above,
   * and typed text only capped at the stock, so a negative number passes
   * through.
   */
  function RequestAsWritten(item: CartItem, action: LineAction): (q: Option<int>)
    ensures q.None? <==> action == Plus && PlusDisabled(item)
    ensures !action.Typed? ==> q == Request(item, action)
    ensures action.Typed? ==> q == Some(Min(ParseIntOr0(action.input), item.product.stock))
    ensures action.Typed? ==>
      && q.value <= item.product.stock
      && (ParseIntOr0(action.input) <= item.product.stock ==> q.value == ParseIntOr0(action.input))
  {
    match action
    case Typed(input) => Some(Min(ParseIntOr0(input), item.product.stock))
    case _ => Request(item, action)
  }

  /**
   * The panel as written and the corrected one send the same request for
   * every control of a line whose stock is not negative, except typed text
   * read as a negative number, where the written one sends that number and
   * the corrected one sends 1.
   */
  lemma PanelsDifferOnlyOnNegatives(item: CartItem, action: LineAction)
    ensures !action.Typed? || (ParseIntOr0(action.input) >= 0 && item.product.stock >= 0) ==>
      RequestAsWritten(item, action) == Request(item, action)
    ensures action.Typed? && ParseIntOr0(action.input) < 0 && item.product.stock >= 1 ==>
      && RequestAsWritten(item, action) == Some(ParseIntOr0(action.input))
      && Request(item, action) == Some(1)
  {
  }

  /**
   * As written, typing text that `parseInt` reads as a negative number `n`
   * into a line of one unit sets the line to `n` units: the request is not
   * admissible, the cart total turns negative, and checkout raises the
   * product's stock.
   */
  lemma NegativeTypedQuantityAsWritten(p: Product, input: string, n: int)
    requires ParseIntOr0(input) == n && n < 0
    requires p.stock >= 1 && p.price >= 1
    ensures var line := CartItem(p, 1);
      var after := QuantityUpdated([line], p.id, n);
      && RequestAsWritten(line, Typed(input)) == Some(n)
      && !Admissible([line], p.id, n)
      && after == [CartItem(p, n)]
      && TotalPrice(after) < 0
      && StockAfterCheckout([p], after)[0].stock > p.stock
  {
    NegativeQuantityEffects(p, n);
  }

  /**
   * A one-line cart set to a negative quantity `n` holds `n` units, has a
   * negative total, and checking it out raises the product's stock.
   */
  lemma NegativeQuantityEffects(p: Product, n: int)
    requires n < 0 && p.price >= 1
    ensures var after := QuantityUpdated([CartItem(p, 1)], p.id, n);
      && after == [CartItem(p, n)]
      && TotalPrice(after) < 0
      && StockAfterCheckout([p], after)[0].stock > p.stock
  {
    var after := QuantityUpdated([CartItem(p, 1)], p.id, n);
    assert after[0] == CartItem(p, n);
    assert after == [CartItem(p, n)];
    assert after[..0] == [];
    assert LineTotal(CartItem(p, n)) < 0 by {
      assert p.price * n <= n;
    }
    assert FindLine(after, p.id) == Some(CartItem(p, n));
  }

  /**
   * Every request the corrected panel can send for a line of a well-formed cart keeps
   * one line per product, every line within its stock and holding at least
   * one unit.
   */
  lemma RequestsKeepCartWithinStock(cart: seq<CartItem>, k: nat, action: LineAction)
    requires DistinctLines(cart) && WithinStock(cart) && PositiveLines(cart) && k < |cart|
    requires Request(cart[k], action).Some?
    ensures var q := Request(cart[k], action).value;
      var r := QuantityUpdated(cart, cart[k].product.id, q);
      && Admissible(cart, cart[k].product.id, q)
      && DistinctLines(r) && WithinStock(r) && PositiveLines(r)
  {
    var id, q := cart[k].product.id, Request(cart[k], action).value;
    forall i | 0 <= i < |cart| && cart[i].product.id == id
      ensures i == k
    {
    }
    UpdateWithinStock(cart, id, q);
    if q == 0 {
      RemoveEffect(cart, id);
    } else {
      SetQuantityEffect(cart, id, q);
    }
  }

  /**
   * Every request the panel as written sends, except a typed negative
   * number, is admissible and keeps the cart well-formed.
   */
  lemma RequestsAsWrittenKeepCartWithinStock(cart: seq<CartItem>, k: nat, action: LineAction)
    requires DistinctLines(cart) && WithinStock(cart) && PositiveLines(cart) && k < |cart|
    requires RequestAsWritten(cart[k], action).Some?
    requires !action.Typed? || ParseIntOr0(action.input) >= 0
    ensures var q := RequestAsWritten(cart[k], action).value;
      var r := QuantityUpdated(cart, cart[k].product.id, q);
      && Admissible(cart, cart[k].product.id, q)
      && DistinctLines(r) && WithinStock(r) && PositiveLines(r)
  {
    PanelsDifferOnlyOnNegatives(cart[k], action);
    RequestsKeepCartWithinStock(cart, k, action);
  }

  /** The bin button removes the line and keeps the others. */
  lemma TrashRemovesLine(cart: seq<CartItem>, k: nat)
    requires k < |cart|
    ensures RequestAsWritten(cart[k], Trash) == Some(0)
    ensures var r := QuantityUpdated(cart, cart[k].product.id, 0);
      && FindLine(r, cart[k].product.id).None?
      && SubsequenceOf(r, cart)
      && (forall i :: 0 <= i < |cart| && cart[i].product.id != cart[k].product.id ==> cart[i] in r)
  {
    RemoveEffect(cart, cart[k].product.id);
  }

  /** "-" on a line of quantity 1 asks for 0 and so removes the line. */
  lemma MinusAtOneRemovesLine(cart: seq<CartItem>, k: nat)
    requires k < |cart| && cart[k].quantity == 1
    ensures RequestAsWritten(cart[k], Minus) == Some(0)
    ensures FindLine(QuantityUpdated(cart, cart[k].product.id, 0), cart[k].product.id).None?
  {
    RemoveEffect(cart, cart[k].product.id);
  }

  /** "-" on a line of two units or more leaves it one unit lower, in place. */
  lemma MinusLowersLine(cart: seq<CartItem>, k: nat)
    requires DistinctLines(cart) && k < |cart| && cart[k].quantity >= 2
    ensures RequestAsWritten(cart[k], Minus) == Some(cart[k].quantity - 1)
    ensures var r := QuantityUpdated(cart, cart[k].product.id, cart[k].quantity - 1);
      |r| == |cart| && r[k] == cart[k].(quantity := cart[k].quantity - 1)
  {
    SetQuantityEffect(cart, cart[k].product.id, cart[k].quantity - 1);
  }

  /** An enabled "+" leaves the line one unit higher, in place and still within its stock. */
  lemma PlusRaisesLine(cart: seq<CartItem>, k: nat)
    requires DistinctLines(cart) && PositiveLines(cart) && k < |cart| && !PlusDisabled(cart[k])
    ensures RequestAsWritten(cart[k], Plus) == Some(cart[k].quantity + 1)
    ensures var r := QuantityUpdated(cart, cart[k].product.id, cart[k].quantity + 1);
      && |r| == |cart| && r[k] == cart[k].(quantity := cart[k].quantity + 1)
      && r[k].quantity <= r[k].product.stock
  {
    SetQuantityEffect(cart, cart[k].product.id, cart[k].quantity + 1);
  }

  /** Empty or blank typed text reads as 0 and removes the line. */
  lemma BlankInputRemovesLine(cart: seq<CartItem>, k: nat, input: string)
    requires k < |cart| && cart[k].product.stock >= 0
    requires forall i :: 0 <= i < |input| ==> IsSpace(input[i])
    ensures RequestAsWritten(cart[k], Typed(input)) == Some(0)
    ensures FindLine(QuantityUpdated(cart, cart[k].product.id, 0), cart[k].product.id).None?
  {
    BlankReadsAsZero(input);
    assert Min(ParseIntOr0(input), cart[k].product.stock) == 0;
    RemoveEffect(cart, cart[k].product.id);
  }

  /** Typing the decimal text of a positive `n` asks for `min(n, stock)`, and that is what the line then holds. */
  lemma TypedQuantityIsCapped(cart: seq<CartItem>, k: nat, n: int)
    requires DistinctLines(cart) && k < |cart|
    requires n >= 1 && cart[k].product.stock >= 1
    ensures RequestAsWritten(cart[k], Typed(Decimal(n))) == Some(Min(n, cart[k].product.stock))
    ensures FindLine(QuantityUpdated(cart, cart[k].product.id, Min(n, cart[k].product.stock)), cart[k].product.id)
         == Some(cart[k].(quantity := Min(n, cart[k].product.stock)))
  {
    ParseDecimal(n);
    FindLineOfDistinct(cart, k);
    SetQuantityEffect(cart, cart[k].product.id, Min(n, cart[k].product.stock));
  }

  /**
   * The corrected panel raises a typed negative number to one unit, the
   * input's minimum, where the panel as written sends the number itself.
   */
  lemma TypedNegativeIsRaisedToOne(item: CartItem, n: int)
    requires n < 0 && item.product.stock >= 1
    ensures Request(item, Typed(Decimal(n))) == Some(1)
    ensures RequestAsWritten(item, Typed(Decimal(n))) == Some(n)
  {
    ParseDecimal(n);
  }
}
