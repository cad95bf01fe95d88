# Sparky shopping assistant engine, modelled in Dafny

This project models `SparkyAgentSystem` (`src/services/sparkyAgents.js`), the
engine behind the Sparky chat shopping assistant. It covers:

- the rule-based intent classifier;
- the requirement extractor, with its two regular expressions written out
  as scanners;
- the product filter and its stable score ranking;
- the discount table and its best-discount choice, plus the list of extra
  offers;
- the cart operations;
- the five handlers (discovery, details, cart, payment, and the
  coordinator/general replies) over a shared session context;
- `processMessage`, which dispatches to the handlers;
- `completeOrder`.

Every handler is a pure function from the context and the user's message to
the new context and a structured response (`Session.Handled`). Money and
scores are exact `real`s. The product catalogue, which the source loads from
a JSON file, is a parameter. So are the two clock readings of
`completeOrder`: `Date.now()`, which gives the order number, and
`new Date()`, which gives the timestamp and the delivery estimate.

Modules, in dependency order:

| module | file | contents |
|---|---|---|
| `Options`, `Seqs` | options.dfy, seqs.dfy | option type, `filter`, `slice(0, n)`, leftmost search |
| `Text` | text.dfy | ASCII lower-casing, `includes`, `trim`, `split(' ')`, decimal digits |
| `Catalogue` | catalogue.dfy | the product record |
| `Intents` | intents.dfy | `classifyIntent` |
| `Requirements` | requirements.dfy | `extractRequirements` |
| `StableSort`, `Ranking` | stablesort.dfy, ranking.dfy | `filterProducts` |
| `Discounts` | discounts.dfy | `getBestDiscount`, `getAdditionalOffers` |
| `Cart` | cart.dfy | `addToCart`, `removeFromCart`, the cart total |
| `Billing` | billing.dfy | tax and shipping on a discounted amount |
| `Session` | session.dfy | context, handlers, `processMessage`, `completeOrder` |

Two consequences of the code are worth stating up front:

- **Buy Now Special at cart checkout.** `getBestDiscount` filters the table
  on the amount only, whatever the purchase type. So at cart checkout
  "Buy Now Special" is chosen for every amount of 20 or more other than 40
  (`Discounts.CartCheckoutPicksBuyNow`, `Discounts.CartCheckoutAtForty`).
- **Empty order.** `completeOrder` with an empty cart and nothing selected
  still produces an order. It has one absent item, no discount, and a total
  of the 5.99 shipping fee.

## Model

| member | source | states |
|---|---|---|
| Intents.ClassifyFirstFiring | src/services/sparkyAgents.js:56-95 | `classifyIntent` returns the intent of the first rule, in table order, that fires on the lower-cased message, and `coordinator` when none fires |
| Intents.FirstFiring | src/services/sparkyAgents.js:56-95 | the intent is that of the first rule in table order that fires, and `coordinator` when none fires |
| Intents.Precedence | src/services/sparkyAgents.js:56-95 | for every pattern of firing rules: payment iff rule 0 or 1 fires; each later intent iff its rule fires and every earlier one is silent; coordinator iff none fires |
| Intents.PaymentFirst | src/services/sparkyAgents.js:56-74 | a message is classified as payment exactly when its lower-cased trimmed first word is "buy" and last word "now", or it contains one of buy now / buy it now / checkout / pay / order / purchase, whatever else it contains |
| Intents.Cascade | src/services/sparkyAgents.js:76-95 | below payment: cart iff a cart word and no payment trigger; details iff a detail word and no earlier group; then discovery, then greeting; coordinator iff no group matches |
| Intents.BuyAnythingNow | src/services/sparkyAgents.js:58-65 | "buy <anything> now", in either letter case of the first word, is always a payment request |
| Requirements.ScanBudget | src/services/sparkyAgents.js:617-621 | no budget iff no `$` is directly followed by a digit; otherwise the value of the digit run after the leftmost such `$` |
| Requirements.ScanAge | src/services/sparkyAgents.js:623-627 | no age iff no digit run is followed by `[- ]?year[- ]?old`; otherwise the value of the leftmost such run |
| Requirements.AgeScannerIsRegex | src/services/sparkyAgents.js:623 | the scanner matches at a position exactly when the regular expression `(\d+)[- ]?year[- ]?old` does |
| Requirements.AgeMatchIsMaximalRun | src/services/sparkyAgents.js:623-626 | any digit string that the regular expression can capture is the whole digit run, so the captured number is never a truncated one |
| Requirements.AgeStartsRun | src/services/sparkyAgents.js:623-626 | the leftmost age match starts where a digit run starts, never inside a longer number |
| Requirements.BudgetOfDollarAmount | src/services/sparkyAgents.js:617-621 | text with no `$` followed by `$` and a number reads back that number as the budget |
| Requirements.AgeOfHyphenated | src/services/sparkyAgents.js:623-627 | "<n>-year-old" reads back `n` as the age |
| Requirements.NoAgeInPlural | src/services/sparkyAgents.js:623-627 | "<n> years old" yields no age, because the pattern needs `year` directly before the separator and `old` |
| Requirements.ExtractOccasion | src/services/sparkyAgents.js:628-631 | party iff "party" occurs; bbq iff no "party" and one of bbq/cookout/grilling; birthday iff only "birthday" occurs; none otherwise (later tests overwrite earlier ones) |
| Requirements.ExtractKeywords | src/services/sparkyAgents.js:633-635 | a word is a keyword exactly when it is in the fixed vocabulary and occurs in the message; the keywords come in vocabulary order, with no repeats |
| Requirements.Extract | src/services/sparkyAgents.js:606-638 | every field is read from the lower-cased message |
| Ranking.FilterProducts | src/services/sparkyAgents.js:641-679 | the result is a permutation of the catalogue entries that pass every enabled filter, ordered by non-increasing score, and products with equal scores stay in catalogue order |
| Ranking.Score | src/services/sparkyAgents.js:674-676 | for a product within a positive budget, the budget term lies between 0 and the 0.3 given without a budget: a budget can lower a score but never raise it |
| Ranking.NarrowIsPasses | src/services/sparkyAgents.js:644-671 | the staged filters (budget, age, birthday, bbq, each only when enabled) keep exactly the products that pass all enabled tests, in order |
| Ranking.ZeroBudgetIgnored | src/services/sparkyAgents.js:645-647 | a budget of 0 filters and ranks exactly like no budget at all |
| Ranking.NoBudgetRanksByRating | src/services/sparkyAgents.js:674-677 | without a budget one product scores at least another exactly when its rating is at least the other's |
| StableSort.SortDesc | src/services/sparkyAgents.js:674-678 | the sort is a permutation, non-increasing in the key, and keeps the input order among equal keys |
| Discounts.Candidates | src/services/sparkyAgents.js:336-342 | the table has five entries, and every entry whose threshold the amount reaches takes off more than 0 and at most the amount |
| Discounts.Best | src/services/sparkyAgents.js:353-357 | the reduction returns the start value or the first candidate with the greatest amount, which must strictly beat the start value; no candidate exceeds it |
| Discounts.FindNamed | src/services/sparkyAgents.js:349 | finds the first eligible entry with the given name, and nothing exactly when no entry has it |
| Discounts.GetBestDiscount | src/services/sparkyAgents.js:335-358 | "Standard Pricing" exactly when the amount is below 20; otherwise a discount of more than 0 and at most the amount; a direct purchase of 20 or more always gets "Buy Now Special" at 20% |
| Discounts.CartChoiceIsBest | src/services/sparkyAgents.js:344-357 | at checkout the chosen discount is at least every eligible one, and is the earliest eligible entry among those with the greatest amount |
| Discounts.CartCheckoutPicksBuyNow | src/services/sparkyAgents.js:335-358 | checkout of any amount of 20 or more other than 40 gets "Buy Now Special" |
| Discounts.CartCheckoutAtForty | src/services/sparkyAgents.js:337-357 | checkout of exactly 40 gets "Summer Sale", which ties with "Buy Now Special" at 8 and comes first in the table |
| Discounts.OfferList | src/services/sparkyAgents.js:362-406 | the list starts with the three base offers, all offers are available, "Buy 2 Get 1 Free" is added exactly from 50 and "Free Gift Wrapping" exactly from 30 |
| Discounts.GetAdditionalOffers | src/services/sparkyAgents.js:361-408 | the offers are always exactly the three base offers in list order, because the conditional ones are appended after them and cut off by `slice(0, 3)` |
| Billing.Shipping | src/services/sparkyAgents.js:230 | shipping is 0 exactly when the discounted amount is over 35, and 5.99 otherwise |
| Billing.FinalTotal | src/services/sparkyAgents.js:229-231 | the final total minus shipping is 1.08 times the discounted amount, and is at least the discounted amount when that is non-negative |
| Billing.Settle | src/services/sparkyAgents.js:226-231 | the discounted amount lies between 0 and the amount; below 20 nothing is taken off and shipping is charged; tax is 8% of the discounted amount; the final total is discounted plus tax plus shipping |
| Billing.FreeShippingThreshold | src/services/sparkyAgents.js:226-231 | for either purchase type shipping is free exactly when the amount before discount is over 43.75 |
| Cart.FindLine | src/services/sparkyAgents.js:683 | finds the index of the first line with the id, and nothing exactly when no line has it |
| Cart.AddToCart | src/services/sparkyAgents.js:682-692 | ids stay unique; the id set gains the product's id; an existing line keeps its place and product copy and grows by the quantity, and the other lines are unchanged; a new product is appended as one line |
| Cart.RemoveFromCart | src/services/sparkyAgents.js:695-698 | exactly the lines with other ids remain, and the id set loses the id |
| Cart.RemoveConcat | src/services/sparkyAgents.js:696 | removal from a joined cart is the removal from each part, joined in the same order, so the lines that stay keep their order and multiplicity |
| Cart.RemoveLine | src/services/sparkyAgents.js:696 | a single line stays exactly when its id is another one |
| Cart.RemoveAbsent | src/services/sparkyAgents.js:695-698 | removing an id that is not in the cart changes nothing |
| Cart.RemoveKeepsUnique | src/services/sparkyAgents.js:695-698 | removal keeps ids unique |
| Cart.AddThenRemove | src/services/sparkyAgents.js:682-698 | adding a new product and then removing it gives the cart back |
| Cart.AddTwice | src/services/sparkyAgents.js:682-692 | adding the same new product twice leaves one line with the summed quantity |
| Cart.CartTotal | src/services/sparkyAgents.js:188 | the total of non-negative prices and quantities is non-negative |
| Cart.CartTotalConcat | src/services/sparkyAgents.js:188 | the total of two carts joined is the sum of their totals |
| Cart.AddNewTotal | src/services/sparkyAgents.js:682-692 | adding a new product raises the total by its price times the quantity |
| Cart.AddExistingTotal | src/services/sparkyAgents.js:682-692 | adding to an existing line swaps that line's amount for the grown line's amount, priced from the copy already in the cart |
| Session.DiscoveryAgent | src/services/sparkyAgents.js:115-184 | only the product list and requirements change; the first three stored products are shown; the similar branch stores the catalogue products of the selected category other than the selected one, in catalogue order; otherwise the stored list is the ranked set of passing products and the requirements are stored |
| Session.DiscoveryShowsBest | src/services/sparkyAgents.js:150-173 | at most three products are shown; each is in the catalogue and passes the filters; each scores at least as high as every stored product not shown |
| Session.ResolveTarget | src/services/sparkyAgents.js:411-423 | the target is the selected product; otherwise the first current product whose name or category the message mentions; otherwise the first current product; none exactly when nothing is selected and there are no current products |
| Session.TopicOf | src/services/sparkyAgents.js:440-506 | age words win over size words, which win over shipping words; otherwise the full overview |
| Session.DetailsAgent | src/services/sparkyAgents.js:411-578 | with no target the context is unchanged and the next step is `product_search`; otherwise the target becomes the selected product and is returned, and the overview reply alone offers `view_similar` |
| Session.DetailsNeedsTarget | src/services/sparkyAgents.js:417-434 | the details handler asks which product is meant exactly when nothing is selected and there are no current products |
| Session.CartAgent | src/services/sparkyAgents.js:187-206 | the context is unchanged; the cart is returned with its total, the sum of price times quantity over its lines, which is non-negative for non-negative lines |
| Session.AsksBuyNow | src/services/sparkyAgents.js:217-222 | `isBuyNow && selectedProduct` holds exactly when a product is selected: the wording of the message never matters |
| Session.Repriced | src/services/sparkyAgents.js:226-262 | the buy-now item is the selected product at the discounted price, with its list price as the original price |
| Session.PaymentAgent | src/services/sparkyAgents.js:209-332 | the context is unchanged; a buy-now checkout happens exactly when a product is selected, whatever the wording, priced as a direct purchase with the base offers; otherwise an empty cart gives `add_items` and no summary, and a non-empty cart is priced as a checkout |
| Session.Dispatch | src/services/sparkyAgents.js:29-49 | the intent picks the agent; only discovery changes products and requirements; only details changes the selection; no handler changes the cart, conversation or last intent |
| Session.DispatchIgnoresHistory | src/services/sparkyAgents.js:34-50 | no agent reads the conversation or the last intent: dispatching from a context that differs only in those two fields gives the same response and the same other context changes |
| Session.ProcessMessage | src/services/sparkyAgents.js:20-53 | exactly two entries are appended to the conversation, the user's message and then the reply; the last intent is the classified one; the cart is unchanged; the response, and every other context change, is exactly that of the agent the classified intent routes to, so what the handler sees of the conversation and the last intent does not change its answer |
| Session.BuyNowFlow | src/services/sparkyAgents.js:20-53 | "buy <anything> now" with a product selected ends in a buy-now checkout of that product |
| Session.OrderNumber | src/services/sparkyAgents.js:702 | the order number is "WM" followed by the last eight digits of the clock reading (all of them when it has fewer), whose value is the reading modulo 10^8 |
| Session.CompleteOrder | src/services/sparkyAgents.js:701-750 | the order number comes from the first clock reading and the timestamp from the second; the cart comes first, then the selected product, then an empty order charged only shipping; delivery is one day after placing; the cart is emptied and the selection cleared |
| Session.QuoteMatchesOrder | src/services/sparkyAgents.js:209-332 | when exactly one of a non-empty cart and a selected product is present, the order total equals the total the payment summary quoted |
| Session.QuoteVersusOrder | src/services/sparkyAgents.js:222-231 | with both a non-empty cart and a selected product, the payment summary totals the selected product as a direct purchase while the order totals the cart at checkout |
| Session.StaleQuote | src/services/sparkyAgents.js:222-231 | the two totals can differ: a 10.00 selected product is quoted at 16.79 while an order for a cart holding one 100.00 product is charged 86.40 |
| Text.SplitThenJoin | src/services/sparkyAgents.js:58 | joining the split words with the separator gives the string back |
| Text.LastWordIsSuffix | src/services/sparkyAgents.js:60 | the last word of `rest + " " + w` is `w` when `w` has no space |
| Text.JoinThenSplit | src/services/sparkyAgents.js:58 | splitting words that contain no separator, after joining them, gives the words back |
| Text.ParseDecimal | src/services/sparkyAgents.js:619 | `parseInt` of the decimal rendering of a number is that number |
| Text.DecimalParse | src/services/sparkyAgents.js:619 | reading a digit string with no leading zero and writing it back gives the same string |

## Left out

- Letter case: lower-casing is ASCII only. `toLowerCase` on other scripts
  and Unicode case mappings are not modelled.
- Number sizes: `parseInt` is exact on any digit run. The source loses
  precision above 2^53.
- Rounding: money and scores are exact reals, so IEEE-754 rounding is not
  modelled. The 40.00 tie in `Discounts.CartCheckoutAtForty` relies on
  `40 * 0.20` being exactly 8.
- Message text: message templates, `toFixed` formatting, emoji, the
  hard-coded LEGO details text and the fixed budget/age lines are not
  modelled. Responses carry a named `Template` instead.
- Tips and ratings: `interactionTips` are not modelled. Neither are the
  star string and review snippets of the details overview, which the
  source computes but never uses.
- Context merge: `processMessage`'s merge of a caller-supplied
  `userContext` is not modelled; the caller passes the whole context.
- Unused context fields: `budget`, `userPreferences`, `currentFlow` and
  `currentAgent` are never read by the engine.
- Unused requirement: `category` is always `null` and never read.
- Clock and I/O: the clock, `setTimeout`, `async`/`await`, `console.log`,
  `toLocaleDateString` formatting and the dynamic import of the catalogue
  file are not modelled. The clock reading and the catalogue are
  parameters.
- Aliasing: a payment summary shares the cart array with the context, and
  an order holds a shallow copy of it. As values they are equal, so the
  model does not track aliasing.
- `addToCart`/`removeFromCart` side effects: these act on the cart value.
  The source methods write the result back to `context.cart`.
- Product fields: `description` and `image` are presentation only.
- Unmodelled files: `products.json`, the React components (chat UI,
  markdown renderer, demo helper) and the demo scenario data are not part
  of this model.
- Session.DiscoveryAgent: in the ranked branch the contract fixes the
  stored list up to its order among equal scores.
  `Ranking.FilterProducts` states that order.
- Cart.AddToCart: the growth of an existing line's quantity is promised
  only when ids are unique. With duplicate ids only the first matching
  line grows, as in the source.
