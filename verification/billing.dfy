/** The charges added after the discount, shared by the payment summary and
    by order completion: 8% tax, and a 5.99 shipping fee unless the
    discounted amount is over 35. */
module Billing {
  import opened Discounts

  const TaxRate: real := 0.08
  const ShippingFee: real := 5.99
  const FreeShippingOver: real := 35.0

  /** A priced order: the amount before discount, the discount chosen, and
      the charges computed from the discounted amount. */
  datatype Bill = Bill(
    subtotal: real,
    discount: Discount,
    discounted: real,
    tax: real,
    shipping: real,
    finalTotal: real)

  /** `discounted > 35 ? 0 : 5.99`. */
  function Shipping(discounted: real): (s: real)
    ensures s == 0.0 <==> discounted > FreeShippingOver
    ensures s == 0.0 || s == ShippingFee
  {
    if discounted > FreeShippingOver then 0.0 else ShippingFee
  }

  /** `discounted + discounted * 0.08 + shipping`. */
  function FinalTotal(discounted: real): (t: real)
    ensures discounted >= 0.0 ==> t >= discounted
    ensures t - Shipping(discounted) == discounted * 1.08
  {
    discounted + discounted * TaxRate + Shipping(discounted)
  }

  /** Price `amount` for `purchaseType`: pick the best discount, subtract it
      and add tax and shipping. */
  function Settle(amount: real, purchaseType: PurchaseType): (b: Bill)
    ensures b.subtotal == amount
    ensures b.discount == GetBestDiscount(amount, purchaseType)
    ensures b.discounted == amount - b.discount.amount
    ensures amount >= 0.0 ==> 0.0 <= b.discounted <= amount
    ensures amount < 20.0 ==> b.discounted == amount && b.shipping == ShippingFee
    ensures b.tax == b.discounted * TaxRate
    ensures b.shipping == 0.0 <==> b.discounted > FreeShippingOver
    ensures b.finalTotal == b.discounted + b.tax + b.shipping
  {
    var d := GetBestDiscount(amount, purchaseType);
    var discounted := amount - d.amount;
    Bill(amount, d, discounted, discounted * TaxRate, Shipping(discounted), FinalTotal(discounted))
  }

  /** A direct purchase of 20 or more pays 80% of the price. */
  lemma DirectPurchasePrice(amount: real)
    requires amount >= 20.0
    ensures Settle(amount, DirectPurchase).discounted == amount * 0.8
  {
  }

  /** Whatever the purchase type, shipping is free exactly when the amount
      before discount is over 43.75: from 20 up the discount is a fifth of
      the amount, except at 40 where the flat 8 of "Summer Sale" wins at
      checkout and leaves 32. */
  lemma FreeShippingThreshold(amount: real, purchaseType: PurchaseType)
    ensures Settle(amount, purchaseType).shipping == 0.0 <==> amount > 43.75
  {
    var b := Settle(amount, purchaseType);
    if amount >= 20.0 {
      if purchaseType == CartCheckout {
        if amount == 40.0 {
          CartCheckoutAtForty();
        } else {
          CartCheckoutPicksBuyNow(amount);
        }
      }
    }
  }
}
