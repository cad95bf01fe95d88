/** `filterProducts`: narrow the catalogue by the requirement profile, then
    rank by score, highest first, equal scores in catalogue order. */
module Ranking {
  import opened Options
  import opened Seqs
  import opened Catalogue
  import opened Requirements
  import opened StableSort

  /** `if (requirements.budget)`: a budget of 0 is falsy and filters
      nothing. */
  predicate BudgetActive(req: Requirements)
  {
    req.budget.Some? && req.budget.value != 0
  }

  /** `if (requirements.age && requirements.age <= 12)`. */
  predicate AgeActive(req: Requirements)
  {
    req.age.Some? && req.age.value != 0 && req.age.value <= 12
  }

  /** `p.price <= requirements.budget`. */
  predicate WithinBudget(req: Requirements, p: Product)
  {
    req.budget.Some? && p.price <= req.budget.value as real
  }

  predicate ForChildren(p: Product)
  {
    p.category == "Toys" || HasAnyTag(p, ["game", "toy", "fun"])
  }

  predicate ForBirthday(p: Product)
  {
    p.category == "Toys" || "fun" in p.tags || "party" in p.tags
  }

  predicate ForBbq(p: Product)
  {
    p.category == "Outdoor" || HasAnyTag(p, ["grilling", "bbq", "outdoor"])
  }

  /** A product survives every filter the profile enables. */
  predicate Passes(req: Requirements, p: Product)
  {
    && (BudgetActive(req) ==> WithinBudget(req, p))
    && (AgeActive(req) ==> ForChildren(p))
    && (req.occasion == Some(Birthday) ==> ForBirthday(p))
    && (req.occasion == Some(Bbq) ==> ForBbq(p))
  }

  /** `rating * 0.7 + (budget ? (budget - price) / budget * 0.3 : 0.3)`.
      The budget term of a product within budget lies between 0 and the
      0.3 given when there is no budget: a budget can lower a score but
      never raise it. */
  function Score(req: Requirements, p: Product): (s: real)
    ensures BudgetActive(req) && 0.0 <= p.price ==> s <= p.rating * 0.7 + 0.3
    ensures BudgetActive(req) && p.price <= req.budget.value as real ==> s >= p.rating * 0.7
  {
    p.rating * 0.7
    + (if BudgetActive(req)
       then (req.budget.value as real - p.price) / (req.budget.value as real) * 0.3
       else 0.3)
  }

  /** The filter stages of the source, applied in order. */
  function Narrow(products: seq<Product>, req: Requirements): seq<Product>
  {
    var byBudget :=
      if BudgetActive(req) then Filter(products, (p: Product) => WithinBudget(req, p))
      else products;
    var byAge := if AgeActive(req) then Filter(byBudget, ForChildren) else byBudget;
    var byBirthday :=
      if req.occasion == Some(Birthday) then Filter(byAge, ForBirthday) else byAge;
    if req.occasion == Some(Bbq) then Filter(byBirthday, ForBbq) else byBirthday
  }

  /** The ranking key of the profile. */
  function ScoreKey(req: Requirements): Product -> real
  {
    p => Score(req, p)
  }

  /** The filter predicate of the profile. */
  function PassesAll(req: Requirements): Product -> bool
  {
    p => Passes(req, p)
  }

  /** `filterProducts(products, requirements)`: a permutation of the
      products that pass every enabled filter, by non-increasing score, with
      equal scores kept in catalogue order. */
  function FilterProducts(products: seq<Product>, req: Requirements): (r: seq<Product>)
    ensures multiset(r) == multiset(Filter(products, PassesAll(req)))
    ensures forall i, j :: 0 <= i < j < |r| ==> Score(req, r[i]) >= Score(req, r[j])
    ensures forall v :: KeyClass(r, ScoreKey(req), v)
                     == KeyClass(Filter(products, PassesAll(req)), ScoreKey(req), v)
  {
    NarrowIsPasses(products, req);
    SortDesc(Narrow(products, req), ScoreKey(req))
  }

  /** The staged filters keep exactly the products that pass, in order. */
  lemma NarrowIsPasses(products: seq<Product>, req: Requirements)
    ensures Narrow(products, req) == Filter(products, PassesAll(req))
  {
    var any := (p: Product) => true;
    var budget := (p: Product) => BudgetActive(req) ==> WithinBudget(req, p);
    var age := (p: Product) => budget(p) && (AgeActive(req) ==> ForChildren(p));
    var birthday := (p: Product) => age(p) && (req.occasion == Some(Birthday) ==> ForBirthday(p));
    FilterKeepsAll(products, any);
    FilterStage(products, any, BudgetActive(req),
      (p: Product) => WithinBudget(req, p), budget);
    FilterStage(products, budget, AgeActive(req), ForChildren, age);
    FilterStage(products, age, req.occasion == Some(Birthday), ForBirthday, birthday);
    FilterStage(products, birthday, req.occasion == Some(Bbq), ForBbq, PassesAll(req));
  }

  /** A budget of 0 (falsy in the source) filters and ranks exactly as no
      budget at all. */
  lemma ZeroBudgetIgnored(products: seq<Product>, req: Requirements)
    requires req.budget == Some(0)
    ensures FilterProducts(products, req) == FilterProducts(products, req.(budget := None))
  {
    var none := req.(budget := None);
    NarrowIsPasses(products, req);
    NarrowIsPasses(products, none);
    FilterPointwise(products, PassesAll(req), PassesAll(none));
    SortByEqualKeys(Narrow(products, req), ScoreKey(req), ScoreKey(none));
  }

  /** Without a budget the ranking is by rating alone. */
  lemma NoBudgetRanksByRating(req: Requirements, a: Product, b: Product)
    requires !BudgetActive(req)
    ensures Score(req, a) >= Score(req, b) <==> a.rating >= b.rating
  {
  }
}
