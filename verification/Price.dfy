/**
 * The price of one variant: target, floors, clamp, minimum change.
 *
 * Prices are integer minor units and percentages are exact rationals.
 */
module Price {
  import opened Prelude
  import opened Money
  import opened Catalogue

  datatype PricingMode = Margin | Multiplier | FixedUplift

  datatype Rounding = NoRounding | Charm99 | WholeUnits

  datatype PriceRules = PriceRules(
    enabled: bool,
    mode: PricingMode,
    multiplier: real,
    fixedUplift: real,
    targetMargin: real,
    minMargin: real,
    paymentFee: real,
    shopifyFee: real,
    advertisingCost: real,
    otherCosts: real,
    rounding: Rounding,
    maxIncrease: real,
    maxDecrease: real,
    requireKnownShipping: bool,
    minimumProfit: real,
    minChange: real)

  /** The validation a rule set passes before any plan is built from it. */
  predicate ValidPriceRules(r: PriceRules) {
    && 0.0 <= r.targetMargin < 100.0 && 0.0 <= r.minMargin < 100.0
    && 0.0 <= r.paymentFee && 0.0 <= r.shopifyFee
    && 0.0 <= r.maxIncrease && 0.0 <= r.maxDecrease <= 100.0
    && 0.0 <= r.minChange && 0.0 <= r.minimumProfit
    && match r.mode
       case Multiplier => r.multiplier >= 1.0
       case FixedUplift => r.fixedUplift > 0.0
       case Margin => r.minMargin <= r.targetMargin && r.targetMargin + r.paymentFee + r.shopifyFee < 100.0
  }

  // ---- what a price earns ----------------------------------------------------

  /** Contribution per unit, and the margin in hundredths of a percent where there is one. */
  datatype Quote = Quote(profit: int, margin: Option<int>)

  /** The pricing engine; it rejects any negative amount. */
  function Quoted(price: int, cost: int, r: PriceRules): Option<Quote> {
    var payment, shopify := PercentageOf(price, r.paymentFee), PercentageOf(price, r.shopifyFee);
    if price < 0 || cost < 0 || payment < 0 || shopify < 0 || r.advertisingCost < 0.0 || r.otherCosts < 0.0 then None
    else
      var profit := price - (cost + payment + shopify + Round(r.advertisingCost) + Round(r.otherCosts));
      Some(Quote(profit, if price > 0 then Some(Round(profit as real * 10000.0 / price as real)) else None))
  }

  /** Both floors hold, or the engine could not say. */
  predicate ClearsFloors(price: int, cost: int, r: PriceRules) {
    match Quoted(price, cost, r)
    case None => true
    case Some(q) =>
      && !(q.margin.Some? && q.margin.value as real / 100.0 < r.minMargin)
      && !(r.minimumProfit > 0.0 && q.profit as real < r.minimumProfit)
  }

  function MarginAt(price: int, cost: int, r: PriceRules): Option<int> {
    if price <= 0 then None
    else
      match Quoted(price, cost, r)
      case None => None
      case Some(q) => q.margin
  }

  // ---- the target ------------------------------------------------------------

  /** The price reaching the desired margin after percentage fees, or a refusal. */
  function SuggestedPrice(cost: int, r: PriceRules): Option<int> {
    if r.targetMargin < 0.0 || r.targetMargin >= 100.0 then None
    else if cost < 0 || r.advertisingCost < 0.0 || r.otherCosts < 0.0 then None
    else
      var absolute := cost + Round(r.advertisingCost) + Round(r.otherCosts);
      if r.paymentFee < 0.0 || r.shopifyFee < 0.0 then None
      else
        var divisor := 1.0 - (r.paymentFee + r.shopifyFee + r.targetMargin) / 100.0;
        if divisor <= 0.0 || absolute == 0 then None else Some(Round(absolute as real / divisor))
  }

  function Target(cost: int, r: PriceRules): Option<int> {
    match r.mode
    case Multiplier => Some(Round(cost as real * r.multiplier))
    case FixedUplift => Some(Round(cost as real + r.fixedUplift))
    case Margin => SuggestedPrice(cost, r)
  }

  function ToCharm99(value: int): int {
    if value <= 99 then 99
    else
      var units := value / 100;
      if value >= units * 100 + 99 then units * 100 + 99 else (units - 1) * 100 + 99
  }

  function ApplyRounding(value: int, rounding: Rounding): int {
    match rounding
    case NoRounding => value
    case Charm99 => ToCharm99(value)
    case WholeUnits => Max(1, (value + 50) / 100) * 100
  }

  function RoundingStep(rounding: Rounding): int {
    if rounding.WholeUnits? then 100 else 50
  }

  const MAX_ATTEMPTS: nat := 100

  /** Steps a price up until it clears both floors, a bounded number of times. */
  function Raised(price: int, cost: int, r: PriceRules, attempts: nat): int
    decreases attempts
  {
    if attempts == 0 || ClearsFloors(price, cost, r) then price
    else Raised(price + RoundingStep(r.rounding), cost, r, attempts - 1)
  }

  /** Where the rules want the price to be; it depends on the cost and the rules only. */
  function Goal(cost: int, r: PriceRules): Option<int> {
    match Target(cost, r)
    case None => None
    case Some(target) => Some(Raised(ApplyRounding(target, r.rounding), cost, r, MAX_ATTEMPTS))
  }

  // ---- one decision ----------------------------------------------------------

  datatype SkipReason = Disabled | CostUnknown | NoPrice | CurrencyMismatch | ShippingUnknown | EngineRejected | ClampBelowFloor

  datatype PriceDecision = Change(to: int, clamped: bool) | Noop | Skip(reason: SkipReason)

  function MaxUp(price: int, r: PriceRules): int {
    Round(price as real * (1.0 + r.maxIncrease / 100.0))
  }

  function MaxDown(price: int, r: PriceRules): int {
    Round(price as real * (1.0 - r.maxDecrease / 100.0))
  }

  /** How far one run may go towards the goal. */
  function Clamped(price: int, goal: int, r: PriceRules): int {
    if goal > MaxUp(price, r) then MaxUp(price, r)
    else if goal < MaxDown(price, r) then MaxDown(price, r)
    else goal
  }

  function Move(price: int, goal: int, cost: int, r: PriceRules): PriceDecision {
    var to := Clamped(price, goal, r);
    var clamped := goal > MaxUp(price, r) || goal < MaxDown(price, r);
    if clamped && !ClearsFloors(to, cost, r) then Skip(ClampBelowFloor)
    else if Abs(to - price) as real < r.minChange then Noop
    else Change(to, clamped)
  }

  function Decide(v: Variant, r: PriceRules): PriceDecision {
    if !r.enabled then Skip(Disabled)
    else if v.cost.landed == None then Skip(CostUnknown)
    else if v.price == None then Skip(NoPrice)
    else if v.cost.currency.Some? && v.cost.currency.value != v.currency then Skip(CurrencyMismatch)
    else if !v.cost.shippingKnown && r.requireKnownShipping then Skip(ShippingUnknown)
    else
      match Goal(v.cost.landed.value, r)
      case None => Skip(EngineRejected)
      case Some(goal) => Move(v.price.value, goal, v.cost.landed.value, r)
  }

  /** The decision as the code takes it, updating one candidate price. */
  method DecideVariantPrice(v: Variant, r: PriceRules) returns (d: PriceDecision)
    ensures d == Decide(v, r)
  {
    if !r.enabled { return Skip(Disabled); }
    if v.cost.landed == None { return Skip(CostUnknown); }
    var cost := v.cost.landed.value;
    if v.price == None { return Skip(NoPrice); }
    var currentPrice := v.price.value;
    if v.cost.currency.Some? && v.cost.currency.value != v.currency { return Skip(CurrencyMismatch); }
    if !v.cost.shippingKnown && r.requireKnownShipping { return Skip(ShippingUnknown); }

    var target := Target(cost, r);
    if target == None { return Skip(EngineRejected); }
    var candidate := ApplyRounding(target.value, r.rounding);
    ghost var rounded := candidate;
    var attempt := 0;
    while attempt < MAX_ATTEMPTS
      invariant 0 <= attempt <= MAX_ATTEMPTS
      invariant Raised(candidate, cost, r, MAX_ATTEMPTS - attempt) == Raised(rounded, cost, r, MAX_ATTEMPTS)
    {
      if ClearsFloors(candidate, cost, r) { break; }
      candidate := candidate + RoundingStep(r.rounding);
      attempt := attempt + 1;
    }
    assert Goal(cost, r) == Some(candidate);

    var clamped := false;
    if candidate > MaxUp(currentPrice, r) {
      candidate := MaxUp(currentPrice, r);
      clamped := true;
    } else if candidate < MaxDown(currentPrice, r) {
      candidate := MaxDown(currentPrice, r);
      clamped := true;
    }
    if clamped && !ClearsFloors(candidate, cost, r) { return Skip(ClampBelowFloor); }
    if Abs(candidate - currentPrice) as real < r.minChange { return Noop; }
    d := Change(candidate, clamped);
  }

  // ---- the lowest margin across a product's variants ---------------------------

  /** The margin at the current price, from the product cost alone; absent where it cannot be computed. */
  function CurrentMargin(v: Variant, r: PriceRules): Option<int> {
    if v.cost.amount == None || v.price == None then None else MarginAt(v.price.value, v.cost.amount.value, r)
  }

  function LowestMargin(vs: seq<Variant>, r: PriceRules): Option<int> {
    if vs == [] then None
    else
      var before, margin := LowestMargin(vs[..|vs| - 1], r), CurrentMargin(vs[|vs| - 1], r);
      if margin == None then before
      else if before == None || margin.value < before.value then margin
      else before
  }

  method LowestCurrentMargin(vs: seq<Variant>, r: PriceRules) returns (lowest: Option<int>)
    ensures lowest == LowestMargin(vs, r)
    ensures lowest == None <==> forall v :: v in vs ==> CurrentMargin(v, r) == None
    ensures lowest.Some? ==> exists v :: v in vs && CurrentMargin(v, r) == lowest
    ensures forall v :: v in vs && CurrentMargin(v, r).Some? ==> lowest.Some? && lowest.value <= CurrentMargin(v, r).value
  {
    hide CurrentMargin;
    lowest := None;
    for i := 0 to |vs|
      invariant lowest == LowestMargin(vs[..i], r)
      invariant lowest == None <==> forall v :: v in vs[..i] ==> CurrentMargin(v, r) == None
      invariant lowest.Some? ==> exists v :: v in vs[..i] && CurrentMargin(v, r) == lowest
      invariant forall v :: v in vs[..i] && CurrentMargin(v, r).Some? ==>
                  lowest.Some? && lowest.value <= CurrentMargin(v, r).value
    {
      assert vs[..i + 1] == vs[..i] + [vs[i]] && vs[..i + 1][..i] == vs[..i];
      var margin := CurrentMargin(vs[i], r);
      if margin.Some? && (lowest == None || margin.value < lowest.value) {
        assert vs[i] in vs[..i + 1];
        lowest := margin;
      }
    }
    assert vs[..|vs|] == vs;
  }

  // ---- what every decision guarantees ------------------------------------------

  /** The price tried on the `j`th attempt. */
  function Attempt(start: int, j: nat, rounding: Rounding): int {
    if rounding.WholeUnits? then start + 100 * j else start + 50 * j
  }

  /** Raising stops at the first attempt that clears both floors, or after the last allowed one. */
  lemma {:induction false} RaisedIsFirstClearing(price: int, cost: int, r: PriceRules, attempts: nat) returns (k: nat)
    ensures k <= attempts
    ensures Raised(price, cost, r, attempts) == Attempt(price, k, r.rounding)
    ensures forall j :: 0 <= j < k ==> !ClearsFloors(Attempt(price, j, r.rounding), cost, r)
    ensures ClearsFloors(Attempt(price, k, r.rounding), cost, r) || k == attempts
    decreases attempts
  {
    if attempts == 0 || ClearsFloors(price, cost, r) {
      k := 0;
    } else {
      var next := price + RoundingStep(r.rounding);
      var rest := RaisedIsFirstClearing(next, cost, r, attempts - 1);
      k := rest + 1;
      assert forall j: nat :: Attempt(next, j, r.rounding) == Attempt(price, j + 1, r.rounding);
      forall j | 0 <= j < k ensures !ClearsFloors(Attempt(price, j, r.rounding), cost, r) {
        assert j > 0 ==> Attempt(next, j - 1, r.rounding) == Attempt(price, j, r.rounding);
      }
    }
  }

  /** The goal is the rounded target, raised to the first of at most a hundred steps that clears both floors. */
  lemma GoalIsFirstClearing(cost: int, r: PriceRules) returns (k: nat)
    requires Goal(cost, r).Some?
    ensures Target(cost, r).Some? && k <= 100
    ensures var start := ApplyRounding(Target(cost, r).value, r.rounding);
            && Goal(cost, r).value == Attempt(start, k, r.rounding)
            && (forall j :: 0 <= j < k ==> !ClearsFloors(Attempt(start, j, r.rounding), cost, r))
            && (k == 100 || ClearsFloors(Goal(cost, r).value, cost, r))
  {
    hide ClearsFloors, Target, Raised;
    k := RaisedIsFirstClearing(ApplyRounding(Target(cost, r).value, r.rounding), cost, r, MAX_ATTEMPTS);
  }

  /** What the target leaves after fees and margin is the absolute cost, to within the rounding of the price. */
  lemma SuggestedPriceMeetsTheMargin(cost: int, r: PriceRules)
    requires SuggestedPrice(cost, r).Some?
    ensures var kept := 1.0 - (r.paymentFee + r.shopifyFee + r.targetMargin) / 100.0;
            var absolute := cost + Round(r.advertisingCost) + Round(r.otherCosts);
            && 0.0 < kept <= 1.0 && absolute > 0
            && -0.5 * kept <= SuggestedPrice(cost, r).value as real * kept - absolute as real <= 0.5 * kept
  {
    hide Round;
    var kept := 1.0 - (r.paymentFee + r.shopifyFee + r.targetMargin) / 100.0;
    var absolute := cost + Round(r.advertisingCost) + Round(r.otherCosts);
    var exact := absolute as real / kept;
    DivideThenMultiply(absolute as real, kept);
    ScaledError(SuggestedPrice(cost, r).value as real, exact, kept, absolute as real);
  }

  lemma ScaledError(price: real, exact: real, kept: real, absolute: real)
    requires kept > 0.0 && absolute == exact * kept && -0.5 <= price - exact <= 0.5
    ensures -0.5 * kept <= price * kept - absolute <= 0.5 * kept
  {
    var error := price - exact;
    assert price * kept - absolute == error * kept;
    assert -0.5 * kept <= error * kept <= 0.5 * kept;
  }

  lemma DivideThenMultiply(a: real, k: real)
    requires k > 0.0
    ensures a / k * k == a
  {
  }

  lemma FeeIsNotNegative(price: int, percentage: real)
    requires price >= 0 && percentage >= 0.0
    ensures PercentageOf(price, percentage) >= 0
  {
    ScalingKeepsSign(price as real, percentage + 1.0);
    assert price as real * percentage >= 0.0;
  }

  lemma QuotedProfit(price: int, cost: int, r: PriceRules)
    requires price >= 0 && cost >= 0 && r.advertisingCost >= 0.0 && r.otherCosts >= 0.0
    requires r.paymentFee >= 0.0 && r.shopifyFee >= 0.0
    ensures Quoted(price, cost, r).Some?
    ensures Quoted(price, cost, r).value.profit
            == price - (cost + Round(r.advertisingCost) + Round(r.otherCosts))
               - PercentageOf(price, r.paymentFee) - PercentageOf(price, r.shopifyFee)
  {
    hide PercentageOf;
    FeeIsNotNegative(price, r.paymentFee);
    FeeIsNotNegative(price, r.shopifyFee);
  }

  lemma MarginOf(p: real, absolute: real, payment: real, shopify: real, a: real, b: real, c: real)
    requires var kept := 1.0 - (a + b + c) / 100.0;
             && 0.0 < kept <= 1.0
             && -0.5 * kept <= p * kept - absolute <= 0.5 * kept
    requires -0.5 <= payment - p * a / 100.0 <= 0.5 && -0.5 <= shopify - p * b / 100.0 <= 0.5
    ensures -1.5 <= p - absolute - payment - shopify - p * c / 100.0 <= 1.5
  {
    assert p * (1.0 - (a + b + c) / 100.0) == p - p * a / 100.0 - p * b / 100.0 - p * c / 100.0;
  }

  lemma SuggestionInputs(cost: int, r: PriceRules)
    requires ValidPriceRules(r) && SuggestedPrice(cost, r).Some?
    ensures cost >= 0 && r.advertisingCost >= 0.0 && r.otherCosts >= 0.0 && SuggestedPrice(cost, r).value >= 0
  {
    ScalingKeepsSign((cost + Round(r.advertisingCost) + Round(r.otherCosts)) as real,
                     1.0 - (r.paymentFee + r.shopifyFee + r.targetMargin) / 100.0);
  }

  /**
   * The engine that quotes a margin and the one that solves for a price agree: sold at the
   * suggested price, a unit earns the target margin to within a minor unit and a half.
   */
  lemma TargetPriceEarnsTheMargin(cost: int, r: PriceRules)
    requires ValidPriceRules(r) && SuggestedPrice(cost, r).Some?
    ensures var price := SuggestedPrice(cost, r).value;
            && Quoted(price, cost, r).Some?
            && -1.5 <= Quoted(price, cost, r).value.profit as real - price as real * r.targetMargin / 100.0 <= 1.5
  {
    hide Quoted, SuggestedPrice, PercentageOf;
    SuggestedPriceMeetsTheMargin(cost, r);
    SuggestionInputs(cost, r);
    var price := SuggestedPrice(cost, r).value;
    QuotedProfit(price, cost, r);
    MarginOf(price as real, (cost + Round(r.advertisingCost) + Round(r.otherCosts)) as real,
             PercentageOf(price, r.paymentFee) as real, PercentageOf(price, r.shopifyFee) as real,
             r.paymentFee, r.shopifyFee, r.targetMargin);
  }

  /** A price that clears the floors really earns them, up to the rounding of the quoted margin. */
  lemma ClearingEarnsTheFloors(price: int, cost: int, r: PriceRules)
    requires price > 0 && ClearsFloors(price, cost, r) && Quoted(price, cost, r).Some?
    ensures var profit := Quoted(price, cost, r).value.profit as real;
            && profit * 10000.0 / price as real >= 100.0 * r.minMargin - 0.5
            && (r.minimumProfit > 0.0 ==> profit >= r.minimumProfit)
  {
  }

  /** A price that earns the margin floor with half a hundredth of a percent to spare, and the cash floor, clears. */
  lemma EarningTheFloorsClears(price: int, cost: int, r: PriceRules)
    requires Quoted(price, cost, r).Some?
    requires var profit := Quoted(price, cost, r).value.profit as real;
             && (price > 0 ==> profit * 10000.0 / price as real >= 100.0 * r.minMargin + 0.5)
             && profit >= r.minimumProfit
    ensures ClearsFloors(price, cost, r)
  {
  }

  /** Costs the engine cannot quote are no evidence of a loss. */
  lemma UnquotableClears(price: int, cost: int, r: PriceRules)
    requires price < 0 || cost < 0 || r.advertisingCost < 0.0 || r.otherCosts < 0.0
    ensures ClearsFloors(price, cost, r)
  {
  }

  /** The markup modes follow the landed cost to the nearest minor unit. */
  lemma MarkupTargets(cost: int, r: PriceRules)
    ensures r.mode == Multiplier ==>
              Target(cost, r).Some? && -0.5 <= Target(cost, r).value as real - cost as real * r.multiplier <= 0.5
    ensures r.mode == FixedUplift ==>
              Target(cost, r).Some? && -0.5 <= Target(cost, r).value as real - (cost as real + r.fixedUplift) <= 0.5
    ensures r.mode == Margin ==> Target(cost, r) == SuggestedPrice(cost, r)
  {
  }

  /** What each rounding setting does to a target. */
  lemma RoundingBySetting(value: int, x: int)
    ensures ApplyRounding(value, NoRounding) == value
    ensures var charm := ApplyRounding(value, Charm99);
            && charm % 100 == 99 && charm >= 99 && (value >= 99 ==> charm <= value)
            && (x % 100 == 99 && x <= value ==> x <= charm)
    ensures var whole := ApplyRounding(value, WholeUnits);
            && whole % 100 == 0 && whole >= 100 && (value >= 50 ==> -50 < whole - value <= 50)
  {
    CharmIsLargestBelow(value, x);
  }

  /** The margin a product is hidden for is that of its product cost; the price it is given is that of its landed cost. */
  lemma WhichCostCounts(v: Variant, other: Option<int>, r: PriceRules)
    ensures CurrentMargin(v.(cost := v.cost.(landed := other)), r) == CurrentMargin(v, r)
    ensures Decide(v.(cost := v.cost.(amount := other)), r) == Decide(v, r)
    ensures v.cost.amount.Some? && v.price.Some? ==>
              CurrentMargin(v, r) == MarginAt(v.price.value, v.cost.amount.value, r)
  {
    hide Goal, MarginAt, Move;
  }

  /** The quoted margin is the profit's share of the price, to half a hundredth of a percent. */
  lemma MarginIsProfitShare(price: int, cost: int, r: PriceRules)
    requires price > 0 && Quoted(price, cost, r).Some?
    ensures MarginAt(price, cost, r).Some?
    ensures -0.5 <= MarginAt(price, cost, r).value as real
                    - Quoted(price, cost, r).value.profit as real * 10000.0 / price as real <= 0.5
  {
  }

  /** Charm pricing is the largest amount ending in 99 that does not exceed the target, and never below 0.99. */
  lemma CharmIsLargestBelow(value: int, x: int)
    ensures ToCharm99(value) % 100 == 99 && ToCharm99(value) >= 99
    ensures value >= 99 ==> ToCharm99(value) <= value
    ensures x % 100 == 99 && x <= value ==> x <= ToCharm99(value)
  {
    if value > 99 && x % 100 == 99 && x <= value {
      var units := x / 100;
      assert x == units * 100 + 99;
      assert units <= value / 100;
    }
  }

  lemma ScaledUp(price: int, percentage: real)
    requires price >= 0 && percentage >= 0.0
    ensures price as real * (1.0 - percentage / 100.0) <= price as real <= price as real * (1.0 + percentage / 100.0)
    ensures percentage <= 100.0 ==> price as real * (1.0 - percentage / 100.0) >= 0.0
  {
    var p, x := price as real, percentage / 100.0;
    assert p * x >= 0.0;
    assert p * (1.0 + x) == p + p * x && p * (1.0 - x) == p - p * x;
    if percentage <= 100.0 {
      assert p * (1.0 - x) >= 0.0;
    }
  }

  /** Standing still is always allowed. */
  lemma ClampSurroundsPrice(price: int, r: PriceRules)
    requires ValidPriceRules(r) && price >= 0
    ensures 0 <= MaxDown(price, r) <= price <= MaxUp(price, r)
  {
    ScaledUp(price, r.maxIncrease);
    ScaledUp(price, r.maxDecrease);
    RoundOfInteger(price);
    RoundMonotone(price as real, price as real * (1.0 + r.maxIncrease / 100.0));
    RoundMonotone(price as real * (1.0 - r.maxDecrease / 100.0), price as real);
  }

  /** A price lies from one end to the other, in either direction. */
  predicate Between(from: int, x: int, to: int) {
    from <= x <= to || to <= x <= from
  }

  /**
   * Every change stays within the two percentages, is worth making, never overshoots the goal,
   * and reaches it exactly when it was not clamped; a clamped one clears both floors.
   */
  lemma ChangeIsBounded(v: Variant, r: PriceRules)
    requires ValidPriceRules(r)
    requires Decide(v, r).Change? && v.price.value >= 0
    ensures var d := Decide(v, r); var price := v.price.value; var cost := v.cost.landed.value;
            && MaxDown(price, r) <= d.to <= MaxUp(price, r)
            && Abs(d.to - price) as real >= r.minChange
            && Between(price, d.to, Goal(cost, r).value)
            && (d.to == Goal(cost, r).value <==> !d.clamped)
            && (d.clamped ==> ClearsFloors(d.to, cost, r))
  {
    ClampSurroundsPrice(v.price.value, r);
  }

  /** At the low end of one run's reach, to the nearest minor unit. */
  predicate AtLowerLimit(to: int, price: int, r: PriceRules) {
    -0.5 <= to as real - price as real * (1.0 - r.maxDecrease / 100.0) <= 0.5
  }

  predicate AtUpperLimit(to: int, price: int, r: PriceRules) {
    -0.5 <= to as real - price as real * (1.0 + r.maxIncrease / 100.0) <= 0.5
  }

  /**
   * In percentages of the price it had: no change exceeds them by more than the rounding, a clamped
   * one stops at the limit on its goal's side, and a goal well inside them is reached.
   */
  lemma ChangeWithinPercentages(v: Variant, r: PriceRules)
    requires ValidPriceRules(r)
    requires Decide(v, r).Change? && v.price.value >= 0
    ensures var d := Decide(v, r); var price := v.price.value as real; var goal := Goal(v.cost.landed.value, r).value;
            var low, high := price * (1.0 - r.maxDecrease / 100.0), price * (1.0 + r.maxIncrease / 100.0);
            && low - 0.5 <= d.to as real <= high + 0.5
            && (d.clamped ==> (goal < d.to && AtLowerLimit(d.to, v.price.value, r))
                              || (goal > d.to && AtUpperLimit(d.to, v.price.value, r)))
            && (low + 0.5 <= goal as real <= high - 0.5 ==> d.to == goal)
  {
    hide Goal, ClearsFloors, Round;
    ClampSurroundsPrice(v.price.value, r);
  }

  /** An unclamped change clears both floors unless every permitted step was spent without reaching them. */
  lemma UnclampedClearsFloors(v: Variant, r: PriceRules)
    requires Decide(v, r).Change? && !Decide(v, r).clamped
    ensures var cost := v.cost.landed.value; var start := ApplyRounding(Target(cost, r).value, r.rounding);
            || ClearsFloors(Decide(v, r).to, cost, r)
            || (&& Decide(v, r).to == Attempt(start, MAX_ATTEMPTS, r.rounding)
                && forall j :: 0 <= j < MAX_ATTEMPTS ==> !ClearsFloors(Attempt(start, j, r.rounding), cost, r))
  {
    var cost := v.cost.landed.value;
    var k := RaisedIsFirstClearing(ApplyRounding(Target(cost, r).value, r.rounding), cost, r, MAX_ATTEMPTS);
  }

  // ---- the feedback loop on one variant ------------------------------------------

  function Repriced(v: Variant, price: int): Variant {
    v.(price := Some(price))
  }

  /** The distance still to go. */
  function Distance(v: Variant, r: PriceRules): nat {
    if v.price == None || v.cost.landed == None then 0
    else
      match Goal(v.cost.landed.value, r)
      case None => 0
      case Some(goal) => Abs(goal - v.price.value)
  }

  /** With a positive threshold each write comes strictly closer. */
  lemma ChangeComesCloser(v: Variant, r: PriceRules)
    requires ValidPriceRules(r) && r.minChange > 0.0
    requires Decide(v, r).Change? && v.price.value >= 0
    ensures Distance(Repriced(v, Decide(v, r).to), r) < Distance(v, r)
    ensures Decide(v, r).to >= 0
  {
    ClampSurroundsPrice(v.price.value, r);
    ChangeIsBounded(v, r);
  }

  lemma ScalingKeepsSign(a: real, b: real)
    requires a >= 0.0 && b > 0.0
    ensures a * b >= 0.0 && a / b >= 0.0
  {
  }

  lemma TargetIsNonNegative(cost: int, r: PriceRules)
    requires ValidPriceRules(r) && cost >= 0 && Target(cost, r).Some?
    ensures Target(cost, r).value >= 0
  {
    match r.mode
    case Multiplier => ScalingKeepsSign(cost as real, r.multiplier);
    case FixedUplift =>
    case Margin =>
      var absolute := cost + Round(r.advertisingCost) + Round(r.otherCosts);
      ScalingKeepsSign(absolute as real, 1.0 - (r.paymentFee + r.shopifyFee + r.targetMargin) / 100.0);
  }

  lemma {:induction false} RaisedOnlyRaises(price: int, cost: int, r: PriceRules, attempts: nat)
    ensures Raised(price, cost, r, attempts) >= price
    decreases attempts
  {
    if !(attempts == 0 || ClearsFloors(price, cost, r)) {
      RaisedOnlyRaises(price + RoundingStep(r.rounding), cost, r, attempts - 1);
    }
  }

  lemma GoalIsNonNegative(cost: int, r: PriceRules)
    requires ValidPriceRules(r) && cost >= 0
    ensures Goal(cost, r).Some? ==> Goal(cost, r).value >= 0
  {
    if Goal(cost, r).Some? {
      TargetIsNonNegative(cost, r);
      RaisedOnlyRaises(ApplyRounding(Target(cost, r).value, r.rounding), cost, r, MAX_ATTEMPTS);
    }
  }

  /** After an unclamped write the next run has nothing to do, provided the threshold is positive. */
  lemma UnclampedChangeSettles(v: Variant, r: PriceRules)
    requires ValidPriceRules(r) && v.cost.landed.Some? && v.cost.landed.value >= 0
    requires Decide(v, r).Change? && !Decide(v, r).clamped
    ensures Decide(Repriced(v, Decide(v, r).to), r)
            == if r.minChange > 0.0 then Noop else Change(Decide(v, r).to, false)
  {
    var goal := Decide(v, r).to;
    GoalIsNonNegative(v.cost.landed.value, r);
    ClampSurroundsPrice(goal, r);
  }

  /** A threshold of zero passes validation, yet no decision is then ever "nothing to do". */
  lemma ZeroThresholdNeverSettles(v: Variant, r: PriceRules)
    requires r.minChange == 0.0
    ensures Decide(v, r) != Noop
  {
  }

  /** Everything a price decision needs is known. */
  predicate Priceable(v: Variant, r: PriceRules) {
    && r.enabled
    && v.cost.landed.Some? && v.price.Some?
    && (v.cost.currency == None || v.cost.currency.value == v.currency)
    && (v.cost.shippingKnown || !r.requireKnownShipping)
    && Goal(v.cost.landed.value, r).Some?
  }

  /** The reason given for a skip is a fact about the variant, and the first one in the order of the checks. */
  lemma SkipNamesTheFirstFact(v: Variant, r: PriceRules)
    requires Decide(v, r).Skip?
    ensures var known := r.enabled && v.cost.landed.Some? && v.price.Some?;
            var comparable := known && (v.cost.currency == None || v.cost.currency == Some(v.currency));
            var complete := comparable && (v.cost.shippingKnown || !r.requireKnownShipping);
            match Decide(v, r).reason
            case Disabled => !r.enabled
            case CostUnknown => r.enabled && v.cost.landed == None
            case NoPrice => r.enabled && v.cost.landed.Some? && v.price == None
            case CurrencyMismatch => known && v.cost.currency.Some? && v.cost.currency.value != v.currency
            case ShippingUnknown => comparable && !v.cost.shippingKnown && r.requireKnownShipping
            case EngineRejected => complete && Goal(v.cost.landed.value, r) == None
            case ClampBelowFloor => complete && Goal(v.cost.landed.value, r).Some?
  {
    hide Goal, ClearsFloors, MaxUp, MaxDown;
  }

  /**
   * No step worth making is left: the goal is within the threshold, or the most one run may move
   * towards it is below the threshold, or that step would break a floor.
   */
  predicate StandsStill(price: int, goal: int, cost: int, r: PriceRules) {
    || Abs(goal - price) as real < r.minChange
    || (goal > MaxUp(price, r) && (MaxUp(price, r) - price) as real < r.minChange)
    || (goal < MaxDown(price, r) && (price - MaxDown(price, r)) as real < r.minChange)
    || ((goal > MaxUp(price, r) || goal < MaxDown(price, r)) && !ClearsFloors(Clamped(price, goal, r), cost, r))
  }

  /** At the price it has, this variant has no step left towards its goal. */
  predicate Stays(v: Variant, r: PriceRules)
    requires Priceable(v, r)
  {
    StandsStill(v.price.value, Goal(v.cost.landed.value, r).value, v.cost.landed.value, r)
  }

  /** A price is changed exactly when everything needed is known and a step worth making is left. */
  lemma ChangedIffStepLeft(v: Variant, r: PriceRules)
    requires ValidPriceRules(r) && (v.price.Some? ==> v.price.value >= 0)
    ensures Decide(v, r).Change? <==> Priceable(v, r) && !Stays(v, r)
  {
    hide Goal, ClearsFloors;
    if v.price.Some? {
      ClampSurroundsPrice(v.price.value, r);
    }
  }

  /** When the run after a write changes nothing, read off the written price and the goal. */
  lemma NextRunIsQuietIff(v: Variant, r: PriceRules)
    requires ValidPriceRules(r) && r.minChange > 0.0
    requires Decide(v, r).Change? && v.price.value >= 0
    ensures var to := Decide(v, r).to; var goal := Goal(v.cost.landed.value, r).value;
            !Decide(Repriced(v, to), r).Change?
            <==> || Abs(goal - to) as real < r.minChange
                 || (goal > MaxUp(to, r) && (MaxUp(to, r) - to) as real < r.minChange)
                 || (goal < MaxDown(to, r) && (to - MaxDown(to, r)) as real < r.minChange)
                 || ((goal > MaxUp(to, r) || goal < MaxDown(to, r))
                     && !ClearsFloors(Clamped(to, goal, r), v.cost.landed.value, r))
  {
    hide Goal, ClearsFloors, Decide, MaxUp, MaxDown, Clamped;
    ChangeComesCloser(v, r);
    ChangedIffStepLeft(v, r);
    ChangedIffStepLeft(Repriced(v, Decide(v, r).to), r);
  }

  const CAUTIOUS: PriceRules :=
    PriceRules(true, Multiplier, 2.0, 10.0, 30.0, 0.0, 0.0, 0.0, 0.0, 0.0, NoRounding, 20.0, 20.0, false, 0.0, 5.0)

  const UNDERPRICED: Variant :=
    Variant("v", Some(1000), "GBP", Some(1000), Cost(Some(1000), Some(1000), Some("GBP"), true), None, None)

  lemma CautiousGoal()
    ensures Goal(1000, CAUTIOUS) == Some(2000)
    ensures MaxUp(1000, CAUTIOUS) == 1200 && MaxUp(1200, CAUTIOUS) == 1440
  {
    assert Target(1000, CAUTIOUS) == Some(2000);
    assert ClearsFloors(2000, 1000, CAUTIOUS);
  }

  /**
   * The trigger documentation says a loop ends after exactly one extra run that changes nothing.
   * This clamped write is followed by another write.
   */
  lemma OneWriteIsNotEnough()
    ensures ValidPriceRules(CAUTIOUS)
    ensures Decide(UNDERPRICED, CAUTIOUS) == Change(1200, true)
    ensures Decide(Repriced(UNDERPRICED, 1200), CAUTIOUS) == Change(1440, true)
  {
    CautiousGoal();
    assert Quoted(1200, 1000, CAUTIOUS).value.profit == 200;
    assert Quoted(1440, 1000, CAUTIOUS).value.profit == 440;
  }

  const UPLIFT_201: PriceRules := CAUTIOUS.(mode := FixedUplift, fixedUplift := 201.0)

  /** This clamped write is not: it stops one minor unit short of its goal, within the threshold. */
  lemma ClampedWriteCanSettle()
    ensures ValidPriceRules(UPLIFT_201)
    ensures Decide(UNDERPRICED, UPLIFT_201) == Change(1200, true)
    ensures Decide(Repriced(UNDERPRICED, 1200), UPLIFT_201) == Noop
  {
    assert Target(1000, UPLIFT_201) == Some(1201);
    assert ClearsFloors(1201, 1000, UPLIFT_201);
    assert Goal(1000, UPLIFT_201) == Some(1201);
    assert Quoted(1200, 1000, UPLIFT_201).value.profit == 200;
    assert MaxUp(1000, UPLIFT_201) == 1200;
    assert MaxUp(1200, UPLIFT_201) == 1440;
    assert MaxDown(1200, UPLIFT_201) == 960;
  }

  const TIGHT: PriceRules := CAUTIOUS.(mode := FixedUplift, fixedUplift := 1000.0, maxIncrease := 1.0)

  const FAR_BELOW: Variant := UNDERPRICED.(price := Some(400), cost := Cost(Some(100), Some(100), Some("GBP"), true))

  /**
   * The code reports such a variant as already within the threshold of its target. This one is
   * seven pounds away for good: the largest step allowed is smaller than the threshold.
   */
  lemma StuckShortOfTheGoal()
    ensures ValidPriceRules(TIGHT) && Priceable(FAR_BELOW, TIGHT)
    ensures Goal(100, TIGHT) == Some(1100) && FAR_BELOW.price == Some(400)
    ensures Decide(FAR_BELOW, TIGHT) == Noop && ClearsFloors(MaxUp(400, TIGHT), 100, TIGHT)
  {
    assert Target(100, TIGHT) == Some(1100);
    assert ClearsFloors(1100, 100, TIGHT);
    assert MaxUp(400, TIGHT) == 404;
    assert Quoted(404, 100, TIGHT).value.profit == 304;
  }
}
