/** The intent classifier: an ordered list of rules over the lower-cased
    message; the first rule that fires decides the intent. */
module Intents {
  import opened Options
  import opened Seqs
  import opened Text

  datatype Intent =
    | PaymentProcessing
    | CartManagement
    | ProductDetails
    | ProductDiscovery
    | GeneralQuestion
    | Coordinator

  /** A classification rule. `FirstAndLast` looks at the first and last
      space-separated words of the trimmed message; `AnyOf` fires when the
      message contains one of its phrases. */
  datatype Rule =
    | FirstAndLast(first: string, last: string, intent: Intent)
    | AnyOf(phrases: seq<string>, intent: Intent)

  const PaymentPhrases: seq<string> :=
    ["buy now", "buy it now", "checkout", "pay", "order", "purchase"]
  const CartPhrases: seq<string> := ["cart", "add", "remove", "total"]
  const DetailPhrases: seq<string> :=
    ["details", "tell me more", "rating", "review", "specs", "features", "questions",
     "age", "size", "dimensions", "shipping", "delivery", "return", "warranty"]
  const DiscoveryPhrases: seq<string> :=
    ["gift", "buy", "need", "looking for", "recommend", "plan", "bbq", "similar"]
  const GreetingPhrases: seq<string> := ["hello", "hi", "help", "what can you do"]

  /** The rules in precedence order; a message no rule matches is handled
      by the coordinator. */
  const Rules: seq<Rule> := [
    FirstAndLast("buy", "now", PaymentProcessing),
    AnyOf(PaymentPhrases, PaymentProcessing),
    AnyOf(CartPhrases, CartManagement),
    AnyOf(DetailPhrases, ProductDetails),
    AnyOf(DiscoveryPhrases, ProductDiscovery),
    AnyOf(GreetingPhrases, GeneralQuestion)
  ]

  /** The first word of the trimmed message is "buy" and its last is "now". */
  predicate BuyThenNow(msg: string)
  {
    FirstWord(Trim(msg)) == "buy" && LastWord(Trim(msg)) == "now"
  }

  predicate Fires(rule: Rule, msg: string)
  {
    match rule
    case FirstAndLast(first, last, _) =>
      FirstWord(Trim(msg)) == first && LastWord(Trim(msg)) == last
    case AnyOf(phrases, _) => ContainsAny(msg, phrases)
  }

  /** Which rules of `rules` fire on `msg`, in table order. */
  function Firing(rules: seq<Rule>, msg: string): (fired: seq<bool>)
    ensures |fired| == |rules|
    ensures forall k :: 0 <= k < |rules| ==> fired[k] == Fires(rules[k], msg)
  {
    seq(|rules|, k requires 0 <= k < |rules| => Fires(rules[k], msg))
  }

  /** Entry `k` of `fired` is set, as a search predicate. */
  function SetAt(fired: seq<bool>): nat -> bool
  {
    (k: nat) => k < |fired| && fired[k]
  }

  /** The intent of the first rule marked as firing, or `Coordinator` when
      none is. */
  function FirstFiring(rules: seq<Rule>, fired: seq<bool>): (r: Intent)
    requires |fired| == |rules|
    ensures (forall k :: 0 <= k < |rules| ==> !fired[k]) ==> r == Coordinator
    ensures forall k :: 0 <= k < |rules| && fired[k] && (forall j :: 0 <= j < k ==> !fired[j])
              ==> r == rules[k].intent
  {
    match FirstWhere(|fired|, 0, SetAt(fired))
    case None =>
      assert forall k :: 0 <= k < |rules| ==> !fired[k] by {
        forall k | 0 <= k < |rules| ensures !fired[k] {
          assert !SetAt(fired)(k);
        }
      }
      Coordinator
    case Some(first) =>
      assert fired[first] by {
        assert SetAt(fired)(first);
      }
      assert forall j :: 0 <= j < first ==> !fired[j] by {
        forall j | 0 <= j < first ensures !fired[j] {
          assert !SetAt(fired)(j);
        }
      }
      rules[first].intent
  }

  /** `classifyIntent`: the rule table applied to the lower-cased message. */
  function Classify(message: string): Intent
  {
    FirstFiring(Rules, Firing(Rules, ToLower(message)))
  }

  /** The classification is the intent of the first rule, in table order,
      that fires on the lower-cased message; `Coordinator` when none does. */
  lemma ClassifyFirstFiring(message: string)
    ensures var low := ToLower(message);
      (forall k :: 0 <= k < |Rules| ==> !Fires(Rules[k], low)) ==> Classify(message) == Coordinator
    ensures var low := ToLower(message);
      forall k :: (0 <= k < |Rules| && Fires(Rules[k], low)
        && (forall j :: 0 <= j < k ==> !Fires(Rules[j], low))) ==> Classify(message) == Rules[k].intent
  {
  }

  /** What each rule of the table tests, spelled out. */
  lemma RuleMeanings(msg: string)
    ensures Fires(Rules[0], msg) == BuyThenNow(msg)
    ensures Fires(Rules[1], msg) == ContainsAny(msg, PaymentPhrases)
    ensures Fires(Rules[2], msg) == ContainsAny(msg, CartPhrases)
    ensures Fires(Rules[3], msg) == ContainsAny(msg, DetailPhrases)
    ensures Fires(Rules[4], msg) == ContainsAny(msg, DiscoveryPhrases)
    ensures Fires(Rules[5], msg) == ContainsAny(msg, GreetingPhrases)
  {
    assert Rules[0] == FirstAndLast("buy", "now", PaymentProcessing);
    assert Rules[1].phrases == PaymentPhrases;
    assert Rules[2].phrases == CartPhrases;
    assert Rules[3].phrases == DetailPhrases;
    assert Rules[4].phrases == DiscoveryPhrases;
    assert Rules[5].phrases == GreetingPhrases;
  }

  /** The table's precedence, over any pattern of firing rules: payment
      when rule 0 or 1 fires, and each later group only when every earlier
      rule is silent. */
  lemma Precedence(fired: seq<bool>)
    requires |fired| == |Rules|
    ensures var r := FirstFiring(Rules, fired);
      && (r == PaymentProcessing <==> fired[0] || fired[1])
      && (r == CartManagement <==> !fired[0] && !fired[1] && fired[2])
      && (r == ProductDetails <==> !fired[0] && !fired[1] && !fired[2] && fired[3])
      && (r == ProductDiscovery <==> !fired[0] && !fired[1] && !fired[2] && !fired[3] && fired[4])
      && (r == GeneralQuestion <==>
            !fired[0] && !fired[1] && !fired[2] && !fired[3] && !fired[4] && fired[5])
      && (r == Coordinator <==>
            !fired[0] && !fired[1] && !fired[2] && !fired[3] && !fired[4] && !fired[5])
  {
    var r := FirstFiring(Rules, fired);
    if fired[0] {
      assert r == Rules[0].intent;
    } else if fired[1] {
      assert r == Rules[1].intent;
    } else if fired[2] {
      assert r == Rules[2].intent;
    } else if fired[3] {
      assert r == Rules[3].intent;
    } else if fired[4] {
      assert r == Rules[4].intent;
    } else if fired[5] {
      assert r == Rules[5].intent;
    } else {
      assert forall k :: 0 <= k < |Rules| ==> !fired[k];
    }
  }

  /** A payment phrase, or "buy ... now", always means payment, however
      many other phrases the message also contains. */
  lemma PaymentFirst(message: string)
    ensures var msg := ToLower(message);
      Classify(message) == PaymentProcessing <==> BuyThenNow(msg) || ContainsAny(msg, PaymentPhrases)
  {
    var msg := ToLower(message);
    RuleMeanings(msg);
    Precedence(Firing(Rules, msg));
  }

  /** The cascade below payment: cart, then details, then discovery, then
      greeting, then the coordinator, each only when every earlier group is
      absent from the lower-cased message. */
  lemma Cascade(message: string)
    ensures var msg := ToLower(message);
      var payment := BuyThenNow(msg) || ContainsAny(msg, PaymentPhrases);
      var cart := ContainsAny(msg, CartPhrases);
      var details := ContainsAny(msg, DetailPhrases);
      var discovery := ContainsAny(msg, DiscoveryPhrases);
      var greeting := ContainsAny(msg, GreetingPhrases);
      && (Classify(message) == CartManagement <==> !payment && cart)
      && (Classify(message) == ProductDetails <==> !payment && !cart && details)
      && (Classify(message) == ProductDiscovery <==> !payment && !cart && !details && discovery)
      && (Classify(message) == GeneralQuestion <==>
            !payment && !cart && !details && !discovery && greeting)
      && (Classify(message) == Coordinator <==>
            !payment && !cart && !details && !discovery && !greeting)
  {
    var msg := ToLower(message);
    RuleMeanings(msg);
    Precedence(Firing(Rules, msg));
  }

  /** "buy <anything> now", in any letter case, is a payment request. */
  lemma BuyAnythingNow(middle: string)
    ensures Classify("Buy " + middle + " now") == PaymentProcessing
    ensures Classify("buy " + middle + " now") == PaymentProcessing
  {
    BuyAnythingNowLower("Buy ", middle);
    BuyAnythingNowLower("buy ", middle);
  }

  lemma BuyAnythingNowLower(head: string, middle: string)
    requires head == "Buy " || head == "buy "
    ensures Classify(head + middle + " now") == PaymentProcessing
  {
    var low := LowerBuyNow(head, middle);
    NoTrimNeeded(low);
    FirstWordIsPrefix("buy", ToLower(middle) + " now");
    LastWordIsSuffix("buy " + ToLower(middle), "now");
    assert BuyThenNow(low);
    PaymentFirst(head + middle + " now");
  }

  lemma LowerBuyNow(head: string, middle: string) returns (low: string)
    requires head == "Buy " || head == "buy "
    ensures low == ToLower(head + middle + " now")
    ensures low == "buy" + " " + (ToLower(middle) + " now")
    ensures low == ("buy " + ToLower(middle)) + " " + "now"
  {
    ToLowerConcat(head + middle, " now");
    ToLowerConcat(head, middle);
    assert ToLower(head) == "buy ";
    assert ToLower(" now") == " now";
    low := ToLower(head + middle + " now");
  }

  lemma NoTrimNeeded(s: string)
    requires |s| > 0 && !IsSpace(s[0]) && !IsSpace(s[|s| - 1])
    ensures Trim(s) == s
  {
  }
}
