/** `getBestDiscount` and `getAdditionalOffers`: a fixed promotion table,
    an eligibility filter, a direct-purchase override and a strict-maximum
    reduction that starts from "Standard Pricing". */
module Discounts {
  import opened Options
  import opened Seqs

  datatype PurchaseType = CartCheckout | DirectPurchase

  /** A discount resolved against an amount. */
  datatype Discount = Discount(name: string, amount: real, code: string)

  /** A table entry resolved against the amount, with its threshold. */
  datatype Candidate = Candidate(discount: Discount, minAmount: real)

  const StandardPricing: Discount := Discount("Standard Pricing", 0.0, "NONE")

  const BuyNowName: string := "Buy Now Special"

  /** The promotion table, in source order, resolved against `amount`.
      Every entry whose threshold the amount reaches takes off something,
      and never more than the amount. */
  function Candidates(amount: real): (r: seq<Candidate>)
    ensures |r| == 5
    ensures forall k :: 0 <= k < |r| && amount >= r[k].minAmount ==> 0.0 < r[k].discount.amount <= amount
  {
    [ Candidate(Discount("First-Time Customer", amount * 0.15, "WELCOME15"), 25.0),
      Candidate(Discount("Walmart+ Member Discount", amount * 0.10, "PLUS10"), 30.0),
      Candidate(Discount("Summer Sale", 8.0, "SUMMER8"), 40.0),
      Candidate(Discount(BuyNowName, amount * 0.20, "BUYNOW20"), 20.0),
      Candidate(Discount("Cart Saver", 5.0, "CART5"), 35.0) ]
  }

  predicate IsEligible(amount: real, c: Candidate)
  {
    amount >= c.minAmount
  }

  function ReachedBy(amount: real): Candidate -> bool
  {
    c => IsEligible(amount, c)
  }

  /** The entries whose threshold `amount` reaches, in table order. */
  function Eligible(amount: real): seq<Candidate>
  {
    Filter(Candidates(amount), ReachedBy(amount))
  }

  /** `applicableDiscounts.find(d => d.name === name)`. */
  function FindNamed(cs: seq<Candidate>, name: string): (r: Option<Discount>)
    ensures r.None? <==> forall k :: 0 <= k < |cs| ==> cs[k].discount.name != name
    ensures r.Some? ==> exists k :: (0 <= k < |cs| && cs[k].discount == r.value
      && r.value.name == name && forall m :: 0 <= m < k ==> cs[m].discount.name != name)
  {
    if |cs| == 0 then None
    else if cs[0].discount.name == name then Some(cs[0].discount)
    else
      var r := FindNamed(cs[1..], name);
      assert forall k :: 1 <= k < |cs| ==> cs[k] == cs[1..][k - 1];
      r
  }

  /** `cs.reduce((best, c) => c.amount > best.amount ? c : best, best)`:
      the first candidate with the greatest amount, provided that amount
      beats the starting value strictly. */
  function Best(cs: seq<Candidate>, best: Discount): (r: Discount)
    ensures r.amount >= best.amount
    ensures forall k :: 0 <= k < |cs| ==> cs[k].discount.amount <= r.amount
    ensures r == best || exists k :: (0 <= k < |cs| && cs[k].discount == r
      && r.amount > best.amount && forall m :: 0 <= m < k ==> cs[m].discount.amount < r.amount)
  {
    if |cs| == 0 then best
    else
      var next := if cs[0].discount.amount > best.amount then cs[0].discount else best;
      var r := Best(cs[1..], next);
      assert forall k :: 1 <= k < |cs| ==> cs[k] == cs[1..][k - 1];
      if r == best then r
      else if r == next then
        assert cs[0].discount == r;
        r
      else
        var k :| 0 <= k < |cs[1..]| && cs[1..][k].discount == r && r.amount > next.amount
          && forall m :: 0 <= m < k ==> cs[1..][m].discount.amount < r.amount;
        assert cs[k + 1].discount == r;
        r
  }

  /** The entry at index `k` of the table is eligible when its threshold
      is reached. */
  lemma TableEntryEligible(amount: real, k: nat) returns (i: nat)
    requires k < 5 && IsEligible(amount, Candidates(amount)[k])
    ensures i < |Eligible(amount)| && Eligible(amount)[i] == Candidates(amount)[k]
  {
    var cs := Candidates(amount);
    assert cs[k] in cs;
    assert cs[k] in Eligible(amount);
    i :| 0 <= i < |Eligible(amount)| && Eligible(amount)[i] == cs[k];
  }

  /** Each eligible entry is one of the five table entries, threshold
      reached. */
  lemma EligibleEntry(amount: real, i: nat)
    requires i < |Eligible(amount)|
    ensures var c := Eligible(amount)[i];
      var cs := Candidates(amount);
      IsEligible(amount, c) && (c == cs[0] || c == cs[1] || c == cs[2] || c == cs[3] || c == cs[4])
  {
    var c := Eligible(amount)[i];
    assert c in Eligible(amount);
    assert c in Candidates(amount);
  }

  /** `getBestDiscount(amount, purchaseType)`. The chosen discount never
      exceeds the amount; below 20 nothing is eligible; a direct purchase of
      20 or more always gets "Buy Now Special". */
  function GetBestDiscount(amount: real, purchaseType: PurchaseType): (r: Discount)
    ensures r == StandardPricing <==> amount < 20.0
    ensures amount >= 20.0 ==> 0.0 < r.amount <= amount
    ensures purchaseType == DirectPurchase && amount >= 20.0 ==>
              r == Discount(BuyNowName, amount * 0.20, "BUYNOW20")
  {
    var eligible := Eligible(amount);
    var cs := Candidates(amount);
    var buyNow := FindNamed(eligible, BuyNowName);
    assert buyNow.Some? ==> buyNow.value == cs[3].discount by {
      if buyNow.Some? {
        var k :| 0 <= k < |eligible| && eligible[k].discount == buyNow.value
          && buyNow.value.name == BuyNowName;
        EligibleEntry(amount, k);
      }
    }
    if purchaseType == DirectPurchase && buyNow.Some? then
      buyNow.value
    else
      assert amount >= 20.0 ==> buyNow.Some? by {
        if amount >= 20.0 {
          var k := TableEntryEligible(amount, 3);
        }
      }
      CheckoutBounds(amount);
      Best(eligible, StandardPricing)
  }

  /** The reduction from "Standard Pricing" over the eligible entries. */
  lemma CheckoutBounds(amount: real)
    ensures var r := Best(Eligible(amount), StandardPricing);
      && (r == StandardPricing <==> amount < 20.0)
      && (amount >= 20.0 ==> 0.0 < r.amount <= amount)
  {
    var es := Eligible(amount);
    var cs := Candidates(amount);
    var r := Best(es, StandardPricing);
    if amount >= 20.0 {
      var k := TableEntryEligible(amount, 3);
      assert r.amount >= amount * 0.20;
      assert r != StandardPricing;
      var j :| 0 <= j < |es| && es[j].discount == r;
      EligibleEntry(amount, j);
    } else if |es| > 0 {
      EligibleEntry(amount, 0);
    }
  }

  /** At checkout the chosen discount is an eligible one with the greatest
      amount, the earliest in table order among equals; "Standard Pricing"
      only when nothing is eligible. */
  lemma CartChoiceIsBest(amount: real)
    ensures var r := GetBestDiscount(amount, CartCheckout);
      var es := Eligible(amount);
      && (forall k :: 0 <= k < |es| ==> es[k].discount.amount <= r.amount)
      && (r == StandardPricing || exists k :: (0 <= k < |es| && es[k].discount == r
            && forall m :: 0 <= m < k ==> es[m].discount.amount < r.amount))
  {
  }

  /** The checkout path does not exclude "Buy Now Special": from 20 up it
      wins everywhere except at exactly 40 (see `CartCheckoutAtForty`). */
  lemma CartCheckoutPicksBuyNow(amount: real)
    requires amount >= 20.0 && amount != 40.0
    ensures GetBestDiscount(amount, CartCheckout) == Discount(BuyNowName, amount * 0.20, "BUYNOW20")
  {
    var r := GetBestDiscount(amount, CartCheckout);
    var es := Eligible(amount);
    var cs := Candidates(amount);
    CartChoiceIsBest(amount);
    CheckoutBounds(amount);
    var i := TableEntryEligible(amount, 3);
    assert r.amount >= amount * 0.20;
    var k :| 0 <= k < |es| && es[k].discount == r;
    EligibleEntry(amount, k);
  }

  /** At exactly 40 "Summer Sale" (a flat 8) ties with "Buy Now Special"
      (20% of 40) and wins by coming first in the table. */
  lemma CartCheckoutAtForty()
    ensures GetBestDiscount(40.0, CartCheckout) == Discount("Summer Sale", 8.0, "SUMMER8")
  {
    var cs := Candidates(40.0);
    FilterKeepsAll(cs, ReachedBy(40.0));
    assert Eligible(40.0) == cs;
    CheckoutIsReduction(40.0);
    BestAtForty();
  }

  /** At checkout no override applies: the result is the reduction. */
  lemma CheckoutIsReduction(amount: real)
    ensures GetBestDiscount(amount, CartCheckout) == Best(Eligible(amount), StandardPricing)
  {
  }

  lemma BestAtForty()
    ensures Best(Candidates(40.0), StandardPricing) == Discount("Summer Sale", 8.0, "SUMMER8")
  {
    var cs := Candidates(40.0);
    assert cs[0].discount.amount == 6.0 && cs[1].discount.amount == 4.0;
    assert cs[2].discount.amount == 8.0 && cs[3].discount.amount == 8.0;
    assert cs[4].discount.amount == 5.0;
    var r := Best(cs, StandardPricing);
    assert r.amount >= 8.0;
    var k :| 0 <= k < |cs| && cs[k].discount == r
      && forall m :: 0 <= m < k ==> cs[m].discount.amount < r.amount;
    assert k == 2;
  }

  /** An extra promotion shown at buy-now checkout. The emoji is
      presentation only. */
  datatype Offer = Offer(name: string, description: string, savings: string, available: bool)

  /** The three offers that are always on the list, in list order. */
  const BaseOffers: seq<Offer> := [
    Offer("Walmart+ FREE Trial", "30 days free shipping + member prices", "Save $98/year", true),
    Offer("Price Match Guarantee", "We'll match any competitor's price", "Best price guaranteed", true),
    Offer("Extended Warranty", "2-year protection plan available", "Starting at $4.99", true)
  ]

  const BuyTwoOffer: Offer :=
    Offer("Buy 2 Get 1 Free", "On select similar items", "Up to 33% off", true)

  const GiftWrapOffer: Offer :=
    Offer("Free Gift Wrapping", "Perfect for birthdays & gifts", "$4.99 value", true)

  function IsAvailable(): Offer -> bool
  {
    (o: Offer) => o.available
  }

  /** The list before `slice(0, 3)`: the base offers, then "Buy 2 Get 1
      Free" from 50, then "Free Gift Wrapping" from 30. */
  function OfferList(amount: real): (offers: seq<Offer>)
    ensures |offers| >= 3 && offers[..3] == BaseOffers
    ensures forall i :: 0 <= i < |offers| ==> offers[i].available
    ensures BuyTwoOffer in offers <==> amount >= 50.0
    ensures GiftWrapOffer in offers <==> amount >= 30.0
  {
    var withBuyTwo := if amount >= 50.0 then BaseOffers + [BuyTwoOffer] else BaseOffers;
    assert withBuyTwo[..3] == BaseOffers;
    var offers := if amount >= 30.0 then withBuyTwo + [GiftWrapOffer] else withBuyTwo;
    assert offers[..3] == BaseOffers;
    offers
  }

  /** `getAdditionalOffers(amount)`: the amount-dependent offers are pushed
      after the three base offers, so `slice(0, 3)` always cuts them off and
      the list shown is the base list whatever the amount. */
  function GetAdditionalOffers(amount: real): (r: seq<Offer>)
    ensures r == BaseOffers
  {
    var offers := OfferList(amount);
    OffersAvailable(offers);
    Take(Filter(offers, IsAvailable()), 3)
  }

  /** Every offer on the list is available, so the filter keeps them all
      and the base offers come first. */
  lemma OffersAvailable(offers: seq<Offer>)
    requires |offers| >= 3 && offers[..3] == BaseOffers
    requires forall i :: 0 <= i < |offers| ==> offers[i].available
    ensures Take(Filter(offers, IsAvailable()), 3) == BaseOffers
  {
    FilterKeepsAll(offers, IsAvailable());
  }

  /** Two amounts always get the same offers. */
  lemma OffersIgnoreAmount(a: real, b: real)
    ensures GetAdditionalOffers(a) == GetAdditionalOffers(b)
  {
  }
}
