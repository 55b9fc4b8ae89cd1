/**
 * The payment step of the checkout dialog (checkout-modal.tsx): the chosen
 * payment method and the typed cash amount, the change shown to the cashier,
 * and the guard that refuses a cash payment below the total.
 */
module CheckoutModal {
  import opened Wrappers
  import opened Numbers

  /** What `handleConfirm` hands to `onConfirm`: the method, and the cash amount for cash only. */
  datatype Payment = Payment(paymentMethod: string, cashAmount: Option<int>)

  /** `cashValue`: the typed amount read by `parseInt(cashAmount) || 0`. */
  function CashValue(cashAmount: string): (v: int)
    ensures v == 0 || ParseInt(cashAmount) == Some(v)
    ensures (forall i :: 0 <= i < |cashAmount| ==> IsSpace(cashAmount[i])) ==> v == 0
  {
    assert (forall i :: 0 <= i < |cashAmount| ==> IsSpace(cashAmount[i])) ==> ParseIntOr0(cashAmount) == 0 by {
      if forall i :: 0 <= i < |cashAmount| ==> IsSpace(cashAmount[i]) {
        BlankReadsAsZero(cashAmount);
      }
    }
    ParseIntOr0(cashAmount)
  }

  /** `change`: what to hand back, negative while the amount is short. */
  function Change(cashAmount: string, total: int): (c: int)
    ensures c + total == CashValue(cashAmount)
  {
    CashValue(cashAmount) - total
  }

  /**
   * The one condition that both disables the confirm button and makes
   * `handleConfirm` return early: cash chosen and the amount below the total.
   */
  predicate ConfirmBlocked(paymentMethod: string, cashAmount: string, total: int)
    ensures !ConfirmBlocked(paymentMethod, cashAmount, total) && paymentMethod == "cash" ==>
      Change(cashAmount, total) >= 0
    ensures paymentMethod != "cash" ==> !ConfirmBlocked(paymentMethod, cashAmount, total)
  {
    paymentMethod == "cash" && CashValue(cashAmount) < total
  }

  /** The arguments of `onConfirm`. */
  function Settle(paymentMethod: string, cashAmount: string): (p: Payment)
    ensures p.paymentMethod == paymentMethod
    ensures p.cashAmount.Some? <==> paymentMethod == "cash"
    ensures p.cashAmount.Some? ==> p.cashAmount.value == CashValue(cashAmount)
  {
    Payment(paymentMethod, if paymentMethod == "cash" then Some(CashValue(cashAmount)) else None)
  }

  /**
   * A payment that gets past the guard carries a cash amount exactly when the
   * method is cash, and that amount covers the total: the change is never negative.
   */
  lemma SettledPaymentCovers(paymentMethod: string, cashAmount: string, total: int)
    requires !ConfirmBlocked(paymentMethod, cashAmount, total)
    ensures var p := Settle(paymentMethod, cashAmount);
      && p.paymentMethod == paymentMethod
      && (p.cashAmount.Some? <==> paymentMethod == "cash")
      && (p.cashAmount.Some? ==> p.cashAmount.value >= total && p.cashAmount.value - total == Change(cashAmount, total) >= 0)
  {
  }

  /** The cash amount is read as the cashier typed it: the decimal text of `n` reads back as `n`. */
  lemma CashValueOfDecimal(n: int, total: int)
    ensures CashValue(Decimal(n)) == n
    ensures Change(Decimal(n), total) == n - total
    ensures ConfirmBlocked("cash", Decimal(n), total) <==> n < total
  {
    ParseDecimal(n);
  }

  /** An empty or blank amount reads as 0, so cash is refused for any positive total. */
  lemma BlankCashIsZero(cashAmount: string, total: int)
    requires forall i :: 0 <= i < |cashAmount| ==> IsSpace(cashAmount[i])
    ensures CashValue(cashAmount) == 0
    ensures total > 0 ==> ConfirmBlocked("cash", cashAmount, total)
  {
    BlankReadsAsZero(cashAmount);
  }

  /** The dialog's two state fields and the transitions on them. */
  class PaymentGate {
    var paymentMethod: string
    var cashAmount: string

    /** The initial state: cash, nothing typed. */
    predicate IsInitial()
      reads this
    {
      paymentMethod == "cash" && cashAmount == ""
    }

    constructor ()
      ensures IsInitial()
    {
      paymentMethod := "cash";
      cashAmount := "";
    }

    /** The radio group's `onValueChange`. */
    method SelectMethod(m: string)
      modifies this
      ensures paymentMethod == m && cashAmount == old(cashAmount)
    {
      paymentMethod := m;
    }

    /** The cash input's `onChange`. */
    method EnterCash(s: string)
      modifies this
      ensures cashAmount == s && paymentMethod == old(paymentMethod)
    {
      cashAmount := s;
    }

    /** Whether the confirm button is disabled for this total. */
    function ConfirmDisabled(total: int): bool
      reads this
    {
      ConfirmBlocked(paymentMethod, cashAmount, total)
    }

    /**
     * `handleConfirm`: a blocked confirmation does nothing; otherwise the
     * payment is handed on (the result) and the dialog returns to its
     * initial state.
     */
    method HandleConfirm(total: int) returns (confirmed: Option<Payment>)
      modifies this
      ensures old(ConfirmDisabled(total)) ==> confirmed == None && unchanged(this)
      ensures !old(ConfirmDisabled(total)) ==>
        confirmed == Some(Settle(old(paymentMethod), old(cashAmount))) && IsInitial()
    {
      if paymentMethod == "cash" && CashValue(cashAmount) < total {
        return None;
      }
      confirmed := Some(Settle(paymentMethod, cashAmount));
      cashAmount := "";
      paymentMethod := "cash";
    }
  }
}
