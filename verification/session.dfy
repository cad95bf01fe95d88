/** The session engine: the context the handlers share, the five handlers,
    the dispatch in `processMessage`, and `completeOrder`. Every handler is a
    function from the context and the user's message to the new context and
    a structured response; message templates are named, not spelled out. */
module Session {
  import opened Options
  import opened Seqs
  import opened Text
  import opened Catalogue
  import opened Intents
  import opened Requirements
  import opened Ranking
  import opened Discounts
  import opened Billing
  import opened Cart

  datatype Role = User | Assistant

  /** Which message template a response carries. */
  datatype Template =
    | Welcome | Capabilities
    | SimilarFound | Recommendations
    | WhichProduct | AgeAdvice | SizeAdvice | ShippingAdvice | FullDetails
    | CartContents
    | ExpressCheckout | EmptyCartNotice | CheckoutReady

  datatype Content = Said(text: string) | Replied(template: Template)

  /** One conversation entry. */
  datatype Entry = Entry(role: Role, content: Content)

  /** The part of `this.context` that the engine reads and writes. */
  datatype Context = Context(
    cart: Cart,
    selected: Option<Product>,
    currentProducts: seq<Product>,
    userRequirements: Option<Requirements>,
    conversation: seq<Entry>,
    lastIntent: Option<Intent>)

  /** The context built by the constructor. */
  const Initial: Context := Context([], None, [], None, [], None)

  /** The structured fields of a response besides agent, message, actions
      and next step; which ones are present depends on the branch taken. */
  datatype Payload =
    | NoPayload
      /** `products` (the top three) and, outside the similar-products
          branch, `requirements`. */
    | Shown(products: seq<Product>, requirements: Option<Requirements>)
    | ProductView(product: Product)
    | CartView(lines: Cart, total: real)
      /** `orderSummary` of a buy-now checkout (`purchaseType: 'buy_now'`). */
    | BuyNowOrder(item: Product, bill: Bill, offers: seq<Offer>)
      /** `orderSummary` of a cart checkout (`purchaseType: 'cart_checkout'`). */
    | CartOrder(items: Cart, bill: Bill)

  datatype Response = Response(
    agent: string,
    message: Template,
    actions: seq<string>,
    nextStep: string,
    payload: Payload)

  /** A handler's result: the context after the turn and the response. */
  datatype Handled = Handled(ctx: Context, resp: Response)

  // ---------------------------------------------------------------------
  // Product discovery

  /** Another product of the same category. */
  function SameCategoryOther(sel: Product): Product -> bool
  {
    (p: Product) => p.category == sel.category && p.id != sel.id
  }

  /** The similar-products branch runs. */
  predicate WantsSimilar(ctx: Context, message: string)
  {
    Contains(ToLower(message), "similar") && ctx.selected.Some?
  }

  /** `productDiscoveryAgent(message)`. The full result list is stored as
      `currentProducts` and its first three are shown. The similar-products
      branch keeps the catalogue entries of the selected product's category
      other than the product itself; otherwise the message's requirements
      are extracted and the catalogue is filtered and ranked by them. */
  function DiscoveryAgent(catalogue: seq<Product>, ctx: Context, message: string): (h: Handled)
    ensures h.ctx == ctx.(currentProducts := h.ctx.currentProducts,
                          userRequirements := h.ctx.userRequirements)
    ensures h.resp.agent == "discovery" && h.resp.nextStep == "product_interaction"
    ensures h.resp.payload.Shown?
    ensures h.resp.payload.products == Take(h.ctx.currentProducts, 3)
    ensures WantsSimilar(ctx, message) ==> (
      var sel := ctx.selected.value;
      && h.ctx.userRequirements == ctx.userRequirements
      && h.resp.payload.requirements.None?
      && h.resp.actions == ["view_details", "add_to_cart", "compare_products"]
      && h.ctx.currentProducts == Filter(catalogue, SameCategoryOther(sel))
      && forall p :: p in h.ctx.currentProducts <==>
           p in catalogue && p.category == sel.category && p.id != sel.id)
    ensures !WantsSimilar(ctx, message) ==> (
      var req := Extract(message);
      && h.ctx.userRequirements == Some(req)
      && h.resp.payload.requirements == Some(req)
      && h.resp.actions == ["view_details", "add_to_cart", "see_more_options"]
      && multiset(h.ctx.currentProducts) == multiset(Filter(catalogue, PassesAll(req)))
      && forall i, j :: 0 <= i < j < |h.ctx.currentProducts| ==>
           Score(req, h.ctx.currentProducts[i]) >= Score(req, h.ctx.currentProducts[j]))
  {
    if WantsSimilar(ctx, message) then
      var similar := Filter(catalogue, SameCategoryOther(ctx.selected.value));
      Handled(ctx.(currentProducts := similar),
        Response("discovery", SimilarFound, ["view_details", "add_to_cart", "compare_products"],
          "product_interaction", Shown(Take(similar, 3), None)))
    else
      var req := Extract(message);
      var recommendations := FilterProducts(catalogue, req);
      Handled(ctx.(currentProducts := recommendations, userRequirements := Some(req)),
        Response("discovery", Recommendations, ["view_details", "add_to_cart", "see_more_options"],
          "product_interaction", Shown(Take(recommendations, 3), Some(req))))
  }

  /** Outside the similar-products branch the products shown come from the
      catalogue, pass every enabled filter, and score at least as high as
      every stored product that is not shown. */
  lemma DiscoveryShowsBest(catalogue: seq<Product>, ctx: Context, message: string)
    requires !WantsSimilar(ctx, message)
    ensures var h := DiscoveryAgent(catalogue, ctx, message);
      var req := Extract(message);
      var shown := h.resp.payload.products;
      var stored := h.ctx.currentProducts;
      && |shown| <= 3
      && (forall i :: 0 <= i < |shown| ==> shown[i] in catalogue && Passes(req, shown[i]))
      && (forall i, j :: 0 <= i < |shown| <= j < |stored| ==> Score(req, stored[j]) <= Score(req, shown[i]))
  {
    var h := DiscoveryAgent(catalogue, ctx, message);
    TopOfRanking(catalogue, Extract(message), h.ctx.currentProducts);
  }

  /** The first three of a ranked list of passing products. */
  lemma TopOfRanking(catalogue: seq<Product>, req: Requirements, stored: seq<Product>)
    requires multiset(stored) == multiset(Filter(catalogue, PassesAll(req)))
    requires forall i, j :: 0 <= i < j < |stored| ==> Score(req, stored[i]) >= Score(req, stored[j])
    ensures var shown := Take(stored, 3);
      && (forall i :: 0 <= i < |shown| ==> shown[i] in catalogue && Passes(req, shown[i]))
      && (forall i, j :: 0 <= i < |shown| <= j < |stored| ==> Score(req, stored[j]) <= Score(req, shown[i]))
  {
    var shown := Take(stored, 3);
    var passing := Filter(catalogue, PassesAll(req));
    forall i | 0 <= i < |shown| ensures shown[i] in catalogue && Passes(req, shown[i]) {
      assert shown[i] == stored[i];
      assert stored[i] in multiset(stored);
      assert stored[i] in multiset(passing);
      assert stored[i] in passing;
      assert PassesAll(req)(stored[i]);
    }
    forall i, j | 0 <= i < |shown| <= j < |stored| ensures Score(req, stored[j]) <= Score(req, shown[i]) {
      assert shown[i] == stored[i];
    }
  }

  // ---------------------------------------------------------------------
  // Product details

  /** The lower-cased message names the product or its category. */
  predicate Mentioned(low: string, p: Product)
  {
    Contains(low, ToLower(p.name)) || Contains(low, ToLower(p.category))
  }

  function MentionedAt(products: seq<Product>, low: string): nat -> bool
  {
    (i: nat) => i < |products| && Mentioned(low, products[i])
  }

  /** The product the details handler talks about: the selected product;
      otherwise the first current product the message mentions; otherwise
      the first current product; otherwise none. */
  function ResolveTarget(ctx: Context, low: string): (r: Option<Product>)
    ensures ctx.selected.Some? ==> r == ctx.selected
    ensures ctx.selected.None? ==> (r.None? <==> |ctx.currentProducts| == 0)
    ensures ctx.selected.None? && r.Some? ==> r.value in ctx.currentProducts
    ensures ctx.selected.None? ==> forall i :: (
      0 <= i < |ctx.currentProducts| && Mentioned(low, ctx.currentProducts[i])
      && (forall k :: 0 <= k < i ==> !Mentioned(low, ctx.currentProducts[k]))
      ==> r == Some(ctx.currentProducts[i]))
    ensures ctx.selected.None? && |ctx.currentProducts| > 0
      && (forall k :: 0 <= k < |ctx.currentProducts| ==> !Mentioned(low, ctx.currentProducts[k]))
      ==> r == Some(ctx.currentProducts[0])
  {
    var cur := ctx.currentProducts;
    if ctx.selected.Some? then ctx.selected
    else if |cur| == 0 then None
    else
      match FirstWhere(|cur|, 0, MentionedAt(cur, low))
      case Some(i) =>
        assert MentionedAt(cur, low)(i);
        assert forall k :: 0 <= k < i ==> !Mentioned(low, cur[k]) by {
          forall k | 0 <= k < i ensures !Mentioned(low, cur[k]) {
            assert !MentionedAt(cur, low)(k);
          }
        }
        Some(cur[i])
      case None =>
        assert forall k :: 0 <= k < |cur| ==> !Mentioned(low, cur[k]) by {
          forall k | 0 <= k < |cur| ensures !Mentioned(low, cur[k]) {
            assert !MentionedAt(cur, low)(k);
          }
        }
        Some(cur[0])
  }

  /** The specific question a details request asks. */
  datatype Topic = AgeTopic | SizeTopic | ShippingTopic | Overview

  const AgeWords: seq<string> := ["age", "appropriate"]
  const SizeWords: seq<string> := ["size", "dimensions", "big"]
  const ShippingWords: seq<string> := ["shipping", "delivery", "arrive"]

  /** The checks run in order; the first that matches decides. */
  function TopicOf(low: string): (t: Topic)
    ensures t == AgeTopic <==> ContainsAny(low, AgeWords)
    ensures t == SizeTopic <==> !ContainsAny(low, AgeWords) && ContainsAny(low, SizeWords)
    ensures t == ShippingTopic <==>
      !ContainsAny(low, AgeWords) && !ContainsAny(low, SizeWords) && ContainsAny(low, ShippingWords)
  {
    AgeWordsMeaning(low);
    SizeWordsMeaning(low);
    ShippingWordsMeaning(low);
    if Contains(low, "age") || Contains(low, "appropriate") then AgeTopic
    else if Contains(low, "size") || Contains(low, "dimensions") || Contains(low, "big") then SizeTopic
    else if Contains(low, "shipping") || Contains(low, "delivery") || Contains(low, "arrive") then ShippingTopic
    else Overview
  }

  lemma AgeWordsMeaning(low: string)
    ensures ContainsAny(low, AgeWords) <==> Contains(low, "age") || Contains(low, "appropriate")
  {
    assert forall k :: 0 <= k < |AgeWords| ==> AgeWords[k] == "age" || AgeWords[k] == "appropriate";
    assert AgeWords[0] == "age" && AgeWords[1] == "appropriate";
  }

  lemma SizeWordsMeaning(low: string)
    ensures ContainsAny(low, SizeWords)
        <==> Contains(low, "size") || Contains(low, "dimensions") || Contains(low, "big")
  {
    assert forall k :: 0 <= k < |SizeWords| ==>
      SizeWords[k] == "size" || SizeWords[k] == "dimensions" || SizeWords[k] == "big";
    assert SizeWords[0] == "size" && SizeWords[1] == "dimensions" && SizeWords[2] == "big";
  }

  lemma ShippingWordsMeaning(low: string)
    ensures ContainsAny(low, ShippingWords)
        <==> Contains(low, "shipping") || Contains(low, "delivery") || Contains(low, "arrive")
  {
    assert forall k :: 0 <= k < |ShippingWords| ==>
      ShippingWords[k] == "shipping" || ShippingWords[k] == "delivery" || ShippingWords[k] == "arrive";
    assert ShippingWords[0] == "shipping" && ShippingWords[1] == "delivery" && ShippingWords[2] == "arrive";
  }

  function TopicTemplate(t: Topic): Template
  {
    match t
    case AgeTopic => AgeAdvice
    case SizeTopic => SizeAdvice
    case ShippingTopic => ShippingAdvice
    case Overview => FullDetails
  }

  /** `productDetailsAgent(message)`. With no target the context is left
      alone and the user is asked which product they mean; otherwise the
      target becomes the selected product and the reply answers the topic
      of the question. */
  function DetailsAgent(ctx: Context, message: string): (h: Handled)
    ensures h.resp.agent == "details"
    ensures h.resp.nextStep == "product_search" <==> ResolveTarget(ctx, ToLower(message)).None?
    ensures h.resp.nextStep == "product_search" ==>
      h.ctx == ctx && h.resp.payload == NoPayload && h.resp.actions == ["search_products"]
    ensures h.resp.nextStep != "product_search" ==> (
      var target := ResolveTarget(ctx, ToLower(message)).value;
      && h.ctx == ctx.(selected := Some(target))
      && h.resp.payload == ProductView(target)
      && h.resp.nextStep == "product_action"
      && h.resp.message == TopicTemplate(TopicOf(ToLower(message)))
      && (TopicOf(ToLower(message)) == Overview <==> "view_similar" in h.resp.actions))
  {
    var low := ToLower(message);
    match ResolveTarget(ctx, low)
    case None =>
      Handled(ctx, Response("details", WhichProduct, ["search_products"], "product_search", NoPayload))
    case Some(target) =>
      var topic := TopicOf(low);
      var actions :=
        if topic == Overview then ["add_to_cart", "view_similar", "ask_questions"]
        else ["add_to_cart", "ask_more_questions"];
      assert actions[1] == "view_similar" <==> topic == Overview;
      Handled(ctx.(selected := Some(target)),
        Response("details", TopicTemplate(topic), actions, "product_action", ProductView(target)))
  }

  /** The details handler finds nothing to talk about exactly when no
      product is selected and there are no current products. */
  lemma DetailsNeedsTarget(ctx: Context, message: string)
    ensures DetailsAgent(ctx, message).resp.nextStep == "product_search"
      <==> ctx.selected.None? && |ctx.currentProducts| == 0
  {
  }

  // ---------------------------------------------------------------------
  // Cart and payment

  /** `cartManagementAgent`: shows the cart and its total. */
  function CartAgent(ctx: Context): (h: Handled)
    ensures h.ctx == ctx
    ensures h.resp.agent == "cart" && h.resp.nextStep == "cart_action"
    ensures h.resp.payload.CartView? && h.resp.payload.lines == ctx.cart
    ensures h.resp.payload.total == CartTotal(ctx.cart)
    ensures (forall k :: 0 <= k < |ctx.cart| ==> ctx.cart[k].product.price >= 0.0 && ctx.cart[k].quantity >= 0)
      ==> h.resp.payload.total >= 0.0
  {
    Handled(ctx, Response("cart", CartContents, ["modify_cart", "proceed_to_checkout", "continue_shopping"],
      "cart_action", CartView(ctx.cart, CartTotal(ctx.cart))))
  }

  /** The `isBuyNow` test of the payment handler. Its last disjunct makes
      it true whenever a product is selected, so the handler's test
      `isBuyNow && selectedProduct` comes down to "a product is selected":
      the wording never matters. */
  predicate AsksBuyNow(ctx: Context, low: string): (r: bool)
    ensures (r && ctx.selected.Some?) <==> ctx.selected.Some?
  {
    || BuyThenNow(low)
    || Contains(low, "buy now")
    || Contains(low, "buy it now")
    || ctx.selected.Some?
  }

  /** The buy-now line item: the selected product repriced at the
      discounted price, with its list price kept as `originalPrice`. */
  function Repriced(p: Product, bill: Bill): (item: Product)
    ensures item.id == p.id && item.name == p.name && item.category == p.category
    ensures item.price == bill.discounted && item.originalPrice == p.price
    ensures item.rating == p.rating && item.tags == p.tags
  {
    p.(price := bill.discounted, originalPrice := p.price)
  }

  /** `paymentAgent(message)`. The context is never changed. A selected
      product is always bought directly, whatever the wording; otherwise an
      empty cart asks for items, and a non-empty cart is checked out. */
  function PaymentAgent(ctx: Context, message: string): (h: Handled)
    ensures h.ctx == ctx
    ensures h.resp.agent == "payment"
    ensures h.resp.payload.BuyNowOrder? <==> ctx.selected.Some?
    ensures ctx.selected.Some? ==> (
      var p := ctx.selected.value;
      && h.resp.payload.bill == Settle(p.price, DirectPurchase)
      && h.resp.payload.item == Repriced(p, h.resp.payload.bill)
      && h.resp.payload.offers == BaseOffers
      && h.resp.nextStep == "payment_confirmation")
    ensures ctx.selected.None? && |ctx.cart| == 0 ==>
      h.resp.payload == NoPayload && h.resp.nextStep == "add_items"
    ensures ctx.selected.None? && |ctx.cart| > 0 ==>
      h.resp.payload == CartOrder(ctx.cart, Settle(CartTotal(ctx.cart), CartCheckout))
      && h.resp.nextStep == "payment_confirmation"
  {
    var low := ToLower(message);
    if AsksBuyNow(ctx, low) && ctx.selected.Some? then
      var p := ctx.selected.value;
      var bill := Settle(p.price, DirectPurchase);
      Handled(ctx, Response("payment", ExpressCheckout, ["confirm_purchase", "apply_more_coupons"],
        "payment_confirmation", BuyNowOrder(Repriced(p, bill), bill, GetAdditionalOffers(p.price))))
    else if |ctx.cart| == 0 then
      Handled(ctx, Response("payment", EmptyCartNotice, ["continue_shopping"], "add_items", NoPayload))
    else
      var bill := Settle(CartTotal(ctx.cart), CartCheckout);
      Handled(ctx, Response("payment", CheckoutReady, ["confirm_purchase", "apply_more_coupons"],
        "payment_confirmation", CartOrder(ctx.cart, bill)))
  }

  // ---------------------------------------------------------------------
  // Dispatch

  /** The agent that answers each intent. */
  function AgentFor(intent: Intent): string
  {
    match intent
    case ProductDiscovery => "discovery"
    case ProductDetails => "details"
    case CartManagement => "cart"
    case PaymentProcessing => "payment"
    case GeneralQuestion => "general"
    case Coordinator => "coordinator"
  }

  /** The `switch` of `processMessage`, including the coordinator and
      general handlers, which only reply. Only discovery touches the product
      list and the requirements, only details touches the selection, and no
      handler touches the cart, the conversation or the last intent. */
  function Dispatch(catalogue: seq<Product>, ctx: Context, message: string, intent: Intent): (h: Handled)
    ensures h.resp.agent == AgentFor(intent)
    ensures h.ctx.cart == ctx.cart && h.ctx.conversation == ctx.conversation
    ensures h.ctx.lastIntent == ctx.lastIntent
    ensures intent != ProductDetails ==> h.ctx.selected == ctx.selected
    ensures intent != ProductDiscovery ==>
      h.ctx.currentProducts == ctx.currentProducts && h.ctx.userRequirements == ctx.userRequirements
  {
    match intent
    case ProductDiscovery => DiscoveryAgent(catalogue, ctx, message)
    case ProductDetails => DetailsAgent(ctx, message)
    case CartManagement => CartAgent(ctx)
    case PaymentProcessing => PaymentAgent(ctx, message)
    case GeneralQuestion =>
      Handled(ctx, Response("general", Capabilities, ["start_shopping"], "ready_for_request", NoPayload))
    case Coordinator =>
      Handled(ctx, Response("coordinator", Welcome, [], "awaiting_user_input", NoPayload))
  }

  /** The handlers never read the conversation or the last intent: changing
      those two fields before a dispatch changes only those two fields after it. */
  lemma DispatchIgnoresHistory(catalogue: seq<Product>, ctx: Context, message: string, intent: Intent,
                               conversation: seq<Entry>, lastIntent: Option<Intent>)
    ensures var d := Dispatch(catalogue, ctx, message, intent);
      Dispatch(catalogue, ctx.(conversation := conversation, lastIntent := lastIntent), message, intent)
        == Handled(d.ctx.(conversation := conversation, lastIntent := lastIntent), d.resp)
  {
    var other := ctx.(conversation := conversation, lastIntent := lastIntent);
    match intent
    case ProductDiscovery =>
      assert DiscoveryAgent(catalogue, other, message).resp == DiscoveryAgent(catalogue, ctx, message).resp;
    case ProductDetails =>
      assert DetailsAgent(other, message).resp == DetailsAgent(ctx, message).resp;
    case CartManagement =>
    case PaymentProcessing =>
      assert PaymentAgent(other, message).resp == PaymentAgent(ctx, message).resp;
    case GeneralQuestion =>
    case Coordinator =>
  }

  /** `processMessage(message)`: record the user's message, classify it,
      remember the intent, let the chosen handler answer, and record the
      answer. */
  function ProcessMessage(catalogue: seq<Product>, ctx: Context, message: string): (h: Handled)
    ensures h.ctx.conversation == ctx.conversation
      + [Entry(User, Said(message)), Entry(Assistant, Replied(h.resp.message))]
    ensures h.ctx.lastIntent == Some(Classify(message))
    ensures h.resp.agent == AgentFor(Classify(message))
    ensures h.ctx.cart == ctx.cart
    ensures Classify(message) != ProductDetails ==> h.ctx.selected == ctx.selected
    ensures Classify(message) != ProductDiscovery ==> h.ctx.currentProducts == ctx.currentProducts
    // the answer and every other context change are those of the handler the intent selects
    ensures var d := Dispatch(catalogue, ctx, message, Classify(message));
      && h.resp == d.resp
      && h.ctx == d.ctx.(conversation := ctx.conversation
                           + [Entry(User, Said(message)), Entry(Assistant, Replied(d.resp.message))],
                         lastIntent := Some(Classify(message)))
  {
    var heard := ctx.(conversation := ctx.conversation + [Entry(User, Said(message))]);
    var intent := Classify(message);
    var routed := Dispatch(catalogue, heard.(lastIntent := Some(intent)), message, intent);
    DispatchIgnoresHistory(catalogue, ctx, message, intent, heard.conversation, Some(intent));
    var answered := routed.ctx.(conversation := routed.ctx.conversation
                                  + [Entry(Assistant, Replied(routed.resp.message))]);
    Handled(answered, routed.resp)
  }

  /** "buy <anything> now" with a product selected goes straight to a
      buy-now checkout of that product. */
  lemma BuyNowFlow(catalogue: seq<Product>, ctx: Context, middle: string)
    requires ctx.selected.Some?
    ensures var h := ProcessMessage(catalogue, ctx, "buy " + middle + " now");
      && h.resp.payload.BuyNowOrder?
      && h.resp.payload.bill == Settle(ctx.selected.value.price, DirectPurchase)
      && h.ctx.selected == ctx.selected
  {
    BuyAnythingNow(middle);
  }

  // ---------------------------------------------------------------------
  // Order completion

  /** What an order contains: the cart lines, or the single selected
      product (absent when nothing was selected either). */
  datatype OrderItems = CartItems(lines: Cart) | SingleItem(product: Option<Product>)

  /** A confirmed order. Times are milliseconds since the epoch; the
      delivery time is kept as a number rather than a formatted date. */
  datatype Order = Order(
    orderNumber: string,
    items: OrderItems,
    total: real,
    discount: Option<Discount>,
    status: string,
    deliveryAt: nat,
    placedAt: nat)

  /** The result of `completeOrder`: the context afterwards and the order. */
  datatype Completed = Completed(ctx: Context, order: Order)

  const DayMillis: nat := 24 * 60 * 60 * 1000

  /** `s.slice(-n)` for `n > 0`: the last `n` characters, or all of `s`
      when it is shorter. */
  function LastChars(s: string, n: nat): (r: string)
    requires n > 0
    ensures |r| == if |s| < n then |s| else n
    ensures s == s[..|s| - |r|] + r
  {
    if |s| <= n then s else s[|s| - n..]
  }

  /** `'WM' + Date.now().toString().slice(-8)`: the clock reading's last
      eight decimal digits, or all of them when it has fewer. */
  function OrderNumber(stamp: nat): (r: string)
    ensures 3 <= |r| <= 10 && r[..2] == "WM" && AllDigits(r[2..])
    ensures |r| - 2 == if |Decimal(stamp)| < 8 then |Decimal(stamp)| else 8
    ensures ParseDigits(r[2..]) == stamp % 100_000_000
  {
    var tail := LastChars(Decimal(stamp), 8);
    LastEightDigits(stamp);
    var r := "WM" + tail;
    assert r[2..] == tail;
    r
  }

  /** The last eight digits of a number are worth the number modulo
      `10^8`. */
  lemma LastEightDigits(stamp: nat)
    ensures ParseDigits(LastChars(Decimal(stamp), 8)) == stamp % 100_000_000
  {
    var digits := Decimal(stamp);
    var tail := LastChars(digits, 8);
    assert tail == digits[|digits| - |tail|..];
    ParseSuffix(digits, |tail|);
    ParseDecimal(stamp);
    assert Pow10(8) == 100_000_000;
    if |digits| < 8 {
      ParseBelow(digits);
      Pow10Grows(|digits|, 8);
      ModUnique(stamp, 0, stamp, 100_000_000);
      ModUnique(stamp, 0, stamp, Pow10(|digits|));
    }
  }

  /** `completeOrder()`, with its two clock readings passed in: `stamp`
      (`Date.now()`, for the order number) and `now` (`new Date()`, for the
      timestamp and the delivery estimate). The cart comes
      first, then the selected product; with neither the order is empty and
      costs only the shipping fee. Afterwards the cart is empty and nothing
      is selected. */
  function CompleteOrder(ctx: Context, stamp: nat, now: nat): (c: Completed)
    ensures c.ctx == ctx.(cart := [], selected := None)
    ensures c.order.placedAt == now && c.order.deliveryAt == now + DayMillis
    ensures c.order.status == "confirmed" && c.order.orderNumber == OrderNumber(stamp)
    ensures |ctx.cart| > 0 ==> (
      var bill := Settle(CartTotal(ctx.cart), CartCheckout);
      && c.order.items == CartItems(ctx.cart)
      && c.order.discount == Some(bill.discount)
      && c.order.total == bill.finalTotal)
    ensures |ctx.cart| == 0 && ctx.selected.Some? ==> (
      var bill := Settle(ctx.selected.value.price, DirectPurchase);
      && c.order.items == SingleItem(ctx.selected)
      && c.order.discount == Some(bill.discount)
      && c.order.total == bill.finalTotal)
    ensures |ctx.cart| == 0 && ctx.selected.None? ==>
      c.order.items == SingleItem(None) && c.order.discount.None? && c.order.total == ShippingFee
  {
    var cleared := ctx.(cart := [], selected := None);
    if |ctx.cart| > 0 then
      var cartTotal := CartTotal(ctx.cart);
      var discount := GetBestDiscount(cartTotal, CartCheckout);
      Completed(cleared, Order(OrderNumber(stamp), CartItems(ctx.cart),
        FinalTotal(cartTotal - discount.amount), Some(discount), "confirmed", now + DayMillis, now))
    else if ctx.selected.Some? then
      var price := ctx.selected.value.price;
      var discount := GetBestDiscount(price, DirectPurchase);
      Completed(cleared, Order(OrderNumber(stamp), SingleItem(ctx.selected),
        FinalTotal(price - discount.amount), Some(discount), "confirmed", now + DayMillis, now))
    else
      Completed(cleared, Order(OrderNumber(stamp), SingleItem(None),
        FinalTotal(0.0), None, "confirmed", now + DayMillis, now))
  }

  /** When exactly one of a non-empty cart and a selected product is
      present, the order charges the total the payment summary quoted. */
  lemma QuoteMatchesOrder(ctx: Context, message: string, stamp: nat, now: nat)
    requires (|ctx.cart| > 0) != ctx.selected.Some?
    ensures var quote := PaymentAgent(ctx, message).resp.payload;
      && (quote.BuyNowOrder? || quote.CartOrder?)
      && quote.bill.finalTotal == CompleteOrder(ctx, stamp, now).order.total
  {
  }

  /** With both a non-empty cart and a selected product, the payment
      summary prices the selected product as a direct purchase while the
      order charges the cart at checkout; the two totals agree only when
      those two prices happen to. */
  lemma QuoteVersusOrder(ctx: Context, message: string, stamp: nat, now: nat)
    requires |ctx.cart| > 0 && ctx.selected.Some?
    ensures PaymentAgent(ctx, message).resp.payload.bill.finalTotal
         == Settle(ctx.selected.value.price, DirectPurchase).finalTotal
    ensures CompleteOrder(ctx, stamp, now).order.total
         == Settle(CartTotal(ctx.cart), CartCheckout).finalTotal
  {
  }

  /** With both present, the payment summary quotes the selected product
      but the order charges the cart: a 10.00 selected product is quoted at
      16.79 while a cart holding one 100.00 product is charged 86.40. */
  lemma StaleQuote(stamp: nat, now: nat)
    ensures var cheap := Product("p1", "Card Game", "Toys", 10.0, 10.0, 4.0, []);
      var dear := Product("p2", "Grill", "Outdoor", 100.0, 120.0, 4.5, []);
      var ctx := Initial.(cart := [CartLine(dear, 1)], selected := Some(cheap));
      && PaymentAgent(ctx, "checkout").resp.payload.bill.finalTotal == 16.79
      && CompleteOrder(ctx, stamp, now).order.total == 86.4
  {
    var cheap := Product("p1", "Card Game", "Toys", 10.0, 10.0, 4.0, []);
    var dear := Product("p2", "Grill", "Outdoor", 100.0, 120.0, 4.5, []);
    var cart := [CartLine(dear, 1)];
    assert CartTotal(cart) == 100.0 by {
      assert cart[1..] == [];
    }
    CartCheckoutPicksBuyNow(100.0);
  }
}
