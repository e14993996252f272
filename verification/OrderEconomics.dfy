/**
 * One order's economics: landed cost, commercial cost, contribution.
 *
 * An unknown cost is UNKNOWN and never zero; figures are integer minor units.
 */
module OrderEconomics {
  import opened Prelude
  import opened Money

  datatype Confidence = Known | Estimated | Unknown

  function Rank(c: Confidence): nat {
    match c
    case Known => 0
    case Estimated => 1
    case Unknown => 2
  }

  function Worst(a: Confidence, b: Confidence): Confidence {
    if Rank(b) > Rank(a) then b else a
  }

  datatype Figure = Figure(amount: Option<int>, confidence: Confidence)

  const UNKNOWN: Figure := Figure(None, Unknown)

  /** A component switched off by configuration: a known zero. */
  const EXCLUDED: Figure := Figure(Some(0), Known)

  function KnownFigure(amount: real): Figure {
    Figure(Some(Round(amount * 100.0)), Known)
  }

  predicate Honest(f: Figure) {
    f.amount == None <==> f.confidence == Unknown
  }

  // ---- adding figures ------------------------------------------------------

  function AmountOrZero(f: Figure): int {
    match f.amount
    case Some(n) => n
    case None => 0
  }

  function SumFigures(parts: seq<Figure>): int {
    if parts == [] then 0 else AmountOrZero(parts[0]) + SumFigures(parts[1..])
  }

  function WorstOf(parts: seq<Figure>): Confidence {
    if parts == [] then Known else Worst(parts[0].confidence, WorstOf(parts[1..]))
  }

  function AddFigures(parts: seq<Figure>): Figure {
    if exists p :: p in parts && p.confidence == Unknown then UNKNOWN
    else Figure(Some(SumFigures(parts)), WorstOf(parts))
  }

  // ---- per-line totals -----------------------------------------------------

  datatype Line = Line(quantity: int, unitCost: Option<real>, unitShipping: Option<real>, unitSurcharge: Option<real>)

  datatype Component = ProductCost | ShippingCost | Surcharge

  /** An unrecorded surcharge is read as zero; the other two stay unknown. */
  function Pick(line: Line, c: Component): Option<real> {
    match c
    case ProductCost => line.unitCost
    case ShippingCost => line.unitShipping
    case Surcharge => Some(if line.unitSurcharge.Some? then line.unitSurcharge.value else 0.0)
  }

  predicate Recorded(lines: seq<Line>, c: Component) {
    forall line :: line in lines ==> Pick(line, c).Some?
  }

  /** A per-unit amount times a quantity, as a whole number of minor units. */
  function Times(unit: real, quantity: int): int {
    Round(unit * quantity as real * 100.0)
  }

  function LineAmount(line: Line, c: Component): int {
    match Pick(line, c)
    case Some(v) => Times(v, line.quantity)
    case None => 0
  }

  function LineTotal(lines: seq<Line>, c: Component): int {
    if lines == [] then 0 else LineTotal(lines[..|lines| - 1], c) + LineAmount(lines[|lines| - 1], c)
  }

  function ComponentTotal(lines: seq<Line>, c: Component): Figure {
    if lines == [] || !Recorded(lines, c) then UNKNOWN else Figure(Some(LineTotal(lines, c)), Known)
  }

  /** Totals one component; a single unrecorded line makes the whole unknown, and is named. */
  method TotalPerUnit(lines: seq<Line>, c: Component) returns (figure: Figure, missingLines: seq<nat>)
    ensures figure == ComponentTotal(lines, c)
    ensures forall i :: i in missingLines <==> 0 <= i < |lines| && Pick(lines[i], c) == None
    ensures forall j, k :: 0 <= j < k < |missingLines| ==> missingLines[j] < missingLines[k]
  {
    missingLines := [];
    if lines == [] {
      return UNKNOWN, [];
    }
    var perLine := 0;
    for i := 0 to |lines|
      invariant forall k :: k in missingLines <==> 0 <= k < i && Pick(lines[k], c) == None
      invariant forall j :: 0 <= j < |missingLines| ==> missingLines[j] < i
      invariant forall j, k :: 0 <= j < k < |missingLines| ==> missingLines[j] < missingLines[k]
      invariant perLine == LineTotal(lines[..i], c)
    {
      assert lines[..i + 1][..i] == lines[..i];
      match Pick(lines[i], c) {
        case None => missingLines := missingLines + [i];
        case Some(value) => perLine := perLine + Times(value, lines[i].quantity);
      }
    }
    assert lines[..|lines|] == lines;
    if missingLines != [] {
      assert Pick(lines[missingLines[0]], c) == None by { assert missingLines[0] in missingLines; }
      figure := UNKNOWN;
    } else {
      figure := Figure(Some(perLine), Known);
    }
  }

  // ---- the model -----------------------------------------------------------

  datatype Config = Config(
    includeSupplierShipping: bool,
    includePaymentFees: bool, paymentFeePercentage: real,
    includeShopifyFees: bool, shopifyFeePercentage: real,
    includeAdvertising: bool, advertisingPercentage: real,
    otherCostPerOrder: real)

  datatype Order = Order(customerRevenue: Option<real>, lines: seq<Line>)

  datatype Input = Revenue | SupplierProduct | SupplierShipping | PaymentFees | ShopifyFees | Advertising

  datatype Economics = Economics(
    revenue: Figure,
    productCost: Figure,
    shippingCost: Figure,
    surcharge: Figure,
    paymentFees: Figure,
    shopifyFees: Figure,
    advertising: Figure,
    other: Figure,
    landed: Figure,
    commercial: Figure,
    profit: Figure,
    margin: Option<int>,       // of revenue, in hundredths of a percent
    confidence: Confidence,
    missingInputs: seq<Input>)

  function FeeOf(included: bool, percentage: real, revenue: Figure): Figure {
    if !included then EXCLUDED
    else
      match revenue.amount
      case None => UNKNOWN
      case Some(minor) => Figure(Some(PercentageOf(minor, percentage)), Estimated)
  }

  predicate AnySurcharge(lines: seq<Line>) {
    exists line :: line in lines && line.unitSurcharge.Some?
  }

  function Profit(revenue: Figure, commercial: Figure): Figure {
    if revenue.amount == None || commercial.amount == None then UNKNOWN
    else Figure(Some(revenue.amount.value - commercial.amount.value),
                Worst(revenue.confidence, commercial.confidence))
  }

  function MarginOf(revenue: Figure, commercial: Figure): Option<int> {
    if revenue.amount == None || commercial.amount == None || revenue.amount.value == 0 then None
    else
      var profit := revenue.amount.value - commercial.amount.value;
      Some(Round(profit as real / revenue.amount.value as real * 10000.0))
  }

  /** The worst of the figures the result rests on. */
  function Overall(revenue: Figure, landed: Figure, commercial: Figure, profit: Figure): Confidence {
    Worst(Worst(Worst(revenue.confidence, landed.confidence), commercial.confidence), profit.confidence)
  }

  function Missing(f: Figure, input: Input): seq<Input> {
    if f.confidence == Unknown then [input] else []
  }

  function EconomicsOf(order: Order, cfg: Config): Economics {
    var revenue := match order.customerRevenue case None => UNKNOWN case Some(v) => KnownFigure(v);
    var productCost := ComponentTotal(order.lines, ProductCost);
    var shippingCost := if cfg.includeSupplierShipping then ComponentTotal(order.lines, ShippingCost) else EXCLUDED;
    var surcharge := if AnySurcharge(order.lines) then ComponentTotal(order.lines, Surcharge) else EXCLUDED;
    var landed := AddFigures([productCost, shippingCost, surcharge]);
    var paymentFees := FeeOf(cfg.includePaymentFees, cfg.paymentFeePercentage, revenue);
    var shopifyFees := FeeOf(cfg.includeShopifyFees, cfg.shopifyFeePercentage, revenue);
    var advertising := FeeOf(cfg.includeAdvertising, cfg.advertisingPercentage, revenue);
    var other := KnownFigure(cfg.otherCostPerOrder);
    var commercial := AddFigures([landed, paymentFees, shopifyFees, advertising, other]);
    Economics(revenue, productCost, shippingCost, surcharge, paymentFees, shopifyFees, advertising, other,
              landed, commercial, Profit(revenue, commercial), MarginOf(revenue, commercial),
              Overall(revenue, landed, commercial, Profit(revenue, commercial)),
              Missing(revenue, Revenue) + Missing(productCost, SupplierProduct)
              + Missing(shippingCost, SupplierShipping) + Missing(paymentFees, PaymentFees)
              + Missing(shopifyFees, ShopifyFees) + Missing(advertising, Advertising))
  }

  lemma AddOne(first: Figure, rest: seq<Figure>)
    ensures SumFigures([first] + rest) == AmountOrZero(first) + SumFigures(rest)
    ensures WorstOf([first] + rest) == Worst(first.confidence, WorstOf(rest))
  {
    assert ([first] + rest)[1..] == rest;
  }

  lemma AddThree(a: Figure, b: Figure, c: Figure)
    requires Honest(a) && Honest(b) && Honest(c)
    ensures var sum := AddFigures([a, b, c]);
            && Honest(sum)
            && (sum.confidence == Unknown <==> a.confidence == Unknown || b.confidence == Unknown || c.confidence == Unknown)
            && (sum.amount.Some? ==>
                  && a.amount.Some? && b.amount.Some? && c.amount.Some?
                  && sum.amount.value == a.amount.value + b.amount.value + c.amount.value)
            && (sum.confidence == Known <==> a.confidence == Known && b.confidence == Known && c.confidence == Known)
  {
    var parts := [a, b, c];
    AddOne(c, []);
    AddOne(b, [c]);
    AddOne(a, [b, c]);
    assert [c] + [] == [c] && [b] + [c] == [b, c] && [a] + [b, c] == parts;
    assert a in parts && b in parts && c in parts;
  }

  lemma AddFive(a: Figure, b: Figure, c: Figure, d: Figure, e: Figure)
    requires Honest(a) && Honest(b) && Honest(c) && Honest(d) && Honest(e)
    ensures var sum := AddFigures([a, b, c, d, e]);
            && Honest(sum)
            && (sum.confidence == Unknown
                <==> a.confidence == Unknown || b.confidence == Unknown || c.confidence == Unknown
                     || d.confidence == Unknown || e.confidence == Unknown)
            && (sum.amount.Some? ==>
                  && a.amount.Some? && b.amount.Some? && c.amount.Some? && d.amount.Some? && e.amount.Some?
                  && sum.amount.value == a.amount.value + b.amount.value + c.amount.value + d.amount.value + e.amount.value)
            && (sum.confidence == Known
                <==> a.confidence == Known && b.confidence == Known && c.confidence == Known
                     && d.confidence == Known && e.confidence == Known)
  {
    var tail := [c, d, e];
    AddThree(c, d, e);
    AddOne(b, tail);
    AddOne(a, [b] + tail);
    var parts := [a] + ([b] + tail);
    assert parts == [a, b, c, d, e];
    assert a in parts && b in parts && c in parts && d in parts && e in parts;
    assert c in tail && d in tail && e in tail;
  }

  lemma ComponentsAreHonest(order: Order, cfg: Config)
    ensures var e := EconomicsOf(order, cfg);
            && Honest(e.revenue) && Honest(e.productCost) && Honest(e.shippingCost) && Honest(e.surcharge)
            && Honest(e.paymentFees) && Honest(e.shopifyFees) && Honest(e.advertising) && Honest(e.other)
            && e.surcharge.confidence == Known
  {
    if AnySurcharge(order.lines) {
      assert Recorded(order.lines, Surcharge);
    }
  }

  /** A figure has no amount exactly when it is UNKNOWN. */
  lemma FiguresAreHonest(order: Order, cfg: Config)
    ensures var e := EconomicsOf(order, cfg);
            && Honest(e.revenue) && Honest(e.productCost) && Honest(e.shippingCost) && Honest(e.surcharge)
            && Honest(e.paymentFees) && Honest(e.shopifyFees) && Honest(e.advertising) && Honest(e.other)
            && Honest(e.landed) && Honest(e.commercial) && Honest(e.profit)
  {
    ComponentsAreHonest(order, cfg);
    var e := EconomicsOf(order, cfg);
    AddThree(e.productCost, e.shippingCost, e.surcharge);
    AddFive(e.landed, e.paymentFees, e.shopifyFees, e.advertising, e.other);
  }

  /** Ignorance propagates exactly: the profit is unknown when, and only when, an input is missing. */
  lemma ProfitUnknownIffInputsMissing(order: Order, cfg: Config)
    ensures var e := EconomicsOf(order, cfg);
            e.profit.confidence == Unknown <==> e.missingInputs != []
  {
    FiguresAreHonest(order, cfg);
    ComponentsAreHonest(order, cfg);
    var e := EconomicsOf(order, cfg);
    AddThree(e.productCost, e.shippingCost, e.surcharge);
    AddFive(e.landed, e.paymentFees, e.shopifyFees, e.advertising, e.other);
  }

  /** Whenever a profit is reported, every minor unit of revenue is accounted for. */
  lemma EconomicsBalance(order: Order, cfg: Config)
    ensures var e := EconomicsOf(order, cfg);
            e.profit.amount.Some? ==>
              && e.revenue.amount.Some? && e.productCost.amount.Some? && e.shippingCost.amount.Some?
              && e.surcharge.amount.Some? && e.paymentFees.amount.Some? && e.shopifyFees.amount.Some?
              && e.advertising.amount.Some? && e.other.amount.Some?
              && e.revenue.amount.value
                 == e.profit.amount.value
                    + e.productCost.amount.value + e.shippingCost.amount.value + e.surcharge.amount.value
                    + e.paymentFees.amount.value + e.shopifyFees.amount.value + e.advertising.amount.value
                    + e.other.amount.value
  {
    ComponentsAreHonest(order, cfg);
    var e := EconomicsOf(order, cfg);
    AddThree(e.productCost, e.shippingCost, e.surcharge);
    AddFive(e.landed, e.paymentFees, e.shopifyFees, e.advertising, e.other);
  }

  /** A profit is a measurement only when no modelled percentage went into it. */
  lemma ProfitIsKnownOnlyWithoutModelledFees(order: Order, cfg: Config)
    ensures var e := EconomicsOf(order, cfg);
            e.profit.confidence == Known
            <==> e.missingInputs == [] && !cfg.includePaymentFees && !cfg.includeShopifyFees && !cfg.includeAdvertising
  {
    ProfitUnknownIffInputsMissing(order, cfg);
    ComponentsAreHonest(order, cfg);
    var e := EconomicsOf(order, cfg);
    AddThree(e.productCost, e.shippingCost, e.surcharge);
    AddFive(e.landed, e.paymentFees, e.shopifyFees, e.advertising, e.other);
  }

  /**
   * The overall confidence is the profit's, although it is taken over the parts again; and a margin
   * is quoted exactly when there is a profit on a revenue that is not zero.
   */
  lemma OverallConfidenceIsTheProfits(order: Order, cfg: Config)
    ensures var e := EconomicsOf(order, cfg);
            && e.confidence == e.profit.confidence
            && (e.margin.Some? <==> e.profit.amount.Some? && e.revenue.amount != Some(0))
  {
    ComponentsAreHonest(order, cfg);
    var e := EconomicsOf(order, cfg);
    AddThree(e.productCost, e.shippingCost, e.surcharge);
    AddFive(e.landed, e.paymentFees, e.shopifyFees, e.advertising, e.other);
  }

  /** Within half a minor unit of the exact percentage of the revenue. */
  predicate Nearest(fee: Figure, revenue: int, percentage: real) {
    fee.amount.Some? && AbsReal(fee.amount.value as real - revenue as real * percentage / 100.0) <= 0.5
  }

  /** Each modelled fee is the nearest whole number of minor units. */
  lemma FeesAreNearest(order: Order, cfg: Config)
    requires order.customerRevenue.Some?
    ensures var e := EconomicsOf(order, cfg); var revenue := e.revenue.amount.value;
            && (cfg.includePaymentFees ==> Nearest(e.paymentFees, revenue, cfg.paymentFeePercentage))
            && (cfg.includeShopifyFees ==> Nearest(e.shopifyFees, revenue, cfg.shopifyFeePercentage))
            && (cfg.includeAdvertising ==> Nearest(e.advertising, revenue, cfg.advertisingPercentage))
  {
    var revenue := EconomicsOf(order, cfg).revenue;
    FeeIsNearest(cfg.paymentFeePercentage, revenue);
    FeeIsNearest(cfg.shopifyFeePercentage, revenue);
    FeeIsNearest(cfg.advertisingPercentage, revenue);
  }

  lemma FeeIsNearest(percentage: real, revenue: Figure)
    requires revenue.amount.Some?
    ensures Nearest(FeeOf(true, percentage, revenue), revenue.amount.value, percentage)
  {
  }

  /** A fee switched off is a known zero, one without a revenue to take it of is unknown, any other is an estimate. */
  predicate Switched(fee: Figure, included: bool, revenue: Option<real>) {
    && (!included ==> fee == Figure(Some(0), Known))
    && (included && revenue == None ==> fee == Figure(None, Unknown))
    && (included && revenue.Some? ==> fee.confidence == Estimated)
  }

  lemma FeesFollowTheirSwitches(order: Order, cfg: Config)
    ensures var e := EconomicsOf(order, cfg);
            && Switched(e.paymentFees, cfg.includePaymentFees, order.customerRevenue)
            && Switched(e.shopifyFees, cfg.includeShopifyFees, order.customerRevenue)
            && Switched(e.advertising, cfg.includeAdvertising, order.customerRevenue)
  {
    hide ComponentTotal, AddFigures, Profit, MarginOf, Overall;
  }

  /** What the customer paid and the flat cost per order, each to the nearest minor unit. */
  lemma AmountsAreNearest(order: Order, cfg: Config)
    ensures var e := EconomicsOf(order, cfg);
            && (e.revenue.amount.Some? <==> order.customerRevenue.Some?)
            && (order.customerRevenue.Some? ==>
                  && e.revenue.confidence == Known
                  && AbsReal(e.revenue.amount.value as real - 100.0 * order.customerRevenue.value) <= 0.5)
            && e.other.confidence == Known && e.other.amount.Some?
            && AbsReal(e.other.amount.value as real - 100.0 * cfg.otherCostPerOrder) <= 0.5
  {
    hide ComponentTotal, AddFigures, Profit, MarginOf, Overall, FeeOf;
  }

  lemma {:induction false} LineTotalAppend(a: seq<Line>, b: seq<Line>, c: Component)
    ensures LineTotal(a + b, c) == LineTotal(a, c) + LineTotal(b, c)
  {
    hide LineAmount;
    if b == [] {
      assert a + b == a;
    } else {
      assert (a + b)[..|a + b| - 1] == a + b[..|b| - 1];
      LineTotalAppend(a, b[..|b| - 1], c);
    }
  }

  /** The recorded amount per unit times the quantity, to the nearest minor unit. */
  predicate CostsTimes(total: int, unit: Option<real>, quantity: int) {
    unit.Some? ==> AbsReal(total as real - 100.0 * unit.value * quantity as real) <= 0.5
  }

  /** What one line adds to each component; a line without a surcharge adds none. */
  lemma LineTotalOfOne(line: Line)
    ensures CostsTimes(LineTotal([line], ProductCost), line.unitCost, line.quantity)
    ensures CostsTimes(LineTotal([line], ShippingCost), line.unitShipping, line.quantity)
    ensures CostsTimes(LineTotal([line], Surcharge), line.unitSurcharge, line.quantity)
    ensures line.unitSurcharge == None ==> LineTotal([line], Surcharge) == 0
  {
    assert [line][..0] == [];
    TimesIsNearest(line.unitCost, line.quantity);
    TimesIsNearest(line.unitShipping, line.quantity);
    TimesIsNearest(line.unitSurcharge, line.quantity);
    TimesIsNearest(Some(0.0), line.quantity);
    RoundOfInteger(0);
  }

  lemma TimesIsNearest(unit: Option<real>, quantity: int)
    ensures unit.Some? ==> CostsTimes(Times(unit.value, quantity), unit, quantity)
    ensures Times(0.0, quantity) == 0
  {
    assert 0.0 * quantity as real * 100.0 == 0.0;
    if unit.Some? {
      assert unit.value * quantity as real * 100.0 == 100.0 * unit.value * quantity as real;
    }
  }

  /**
   * What the supplier is owed: the product cost is known exactly when there is a line and every line
   * has one, shipping likewise unless it is switched off, and the landed cost is the three together.
   */
  lemma SupplierIsOwed(order: Order, cfg: Config)
    ensures var e := EconomicsOf(order, cfg); var lines := order.lines;
            && (e.productCost.amount.Some? <==> lines != [] && forall l :: l in lines ==> l.unitCost.Some?)
            && (e.productCost.amount.Some? ==> e.productCost == Figure(Some(LineTotal(lines, ProductCost)), Known))
            && (!cfg.includeSupplierShipping ==> e.shippingCost == Figure(Some(0), Known))
            && (cfg.includeSupplierShipping ==>
                  && (e.shippingCost.amount.Some? <==> lines != [] && forall l :: l in lines ==> l.unitShipping.Some?)
                  && (e.shippingCost.amount.Some? ==> e.shippingCost == Figure(Some(LineTotal(lines, ShippingCost)), Known)))
            && (e.surcharge == Figure(Some(if exists l :: l in lines && l.unitSurcharge.Some? then LineTotal(lines, Surcharge) else 0), Known))
            && (e.landed.amount.Some? <==> e.productCost.amount.Some? && e.shippingCost.amount.Some?)
            && (e.landed.amount.Some? ==>
                  e.landed.amount.value == e.productCost.amount.value + e.shippingCost.amount.value + e.surcharge.amount.value)
  {
    hide LineTotal, AddFigures, Profit, MarginOf, Overall, FeeOf;
    var e := EconomicsOf(order, cfg);
    ComponentsAreHonest(order, cfg);
    AddThree(e.productCost, e.shippingCost, e.surcharge);
    RecordedMeans(order.lines);
  }

  lemma RecordedMeans(lines: seq<Line>)
    ensures Recorded(lines, ProductCost) <==> forall l :: l in lines ==> l.unitCost.Some?
    ensures Recorded(lines, ShippingCost) <==> forall l :: l in lines ==> l.unitShipping.Some?
    ensures Recorded(lines, Surcharge)
  {
    assert forall l :: l in lines ==> (Pick(l, ProductCost).Some? <==> l.unitCost.Some?);
    assert forall l :: l in lines ==> (Pick(l, ShippingCost).Some? <==> l.unitShipping.Some?);
  }

  /** Exactly which gaps are named, read off the order and the configuration. */
  lemma MissingInputsAre(order: Order, cfg: Config, input: Input)
    ensures input in EconomicsOf(order, cfg).missingInputs <==>
              match input
              case Revenue => order.customerRevenue == None
              case SupplierProduct => order.lines == [] || exists l :: l in order.lines && l.unitCost == None
              case SupplierShipping =>
                cfg.includeSupplierShipping && (order.lines == [] || exists l :: l in order.lines && l.unitShipping == None)
              case PaymentFees => cfg.includePaymentFees && order.customerRevenue == None
              case ShopifyFees => cfg.includeShopifyFees && order.customerRevenue == None
              case Advertising => cfg.includeAdvertising && order.customerRevenue == None
  {
    hide LineTotal, AddFigures, Profit, MarginOf, Overall;
    RecordedMeans(order.lines);
    ComponentsAreHonest(order, cfg);
  }

  /** A margin is the profit's share of the revenue, to the nearest hundredth of a percent. */
  lemma MarginIsProfitShare(order: Order, cfg: Config)
    ensures var e := EconomicsOf(order, cfg);
            e.margin.Some? ==>
              && e.revenue.amount.Some? && e.profit.amount.Some? && e.revenue.amount.value != 0
              && AbsReal(e.margin.value as real - 10000.0 * e.profit.amount.value as real / e.revenue.amount.value as real) <= 0.5
  {
    hide ComponentTotal, AddFigures, FeeOf, Overall, Round;
    var e := EconomicsOf(order, cfg);
    if e.margin.Some? {
      ShareScaled(e.profit.amount.value as real, e.revenue.amount.value as real);
    }
  }

  lemma ShareScaled(profit: real, revenue: real)
    requires revenue != 0.0
    ensures profit / revenue * 10000.0 == 10000.0 * profit / revenue
  {
    var share := profit / revenue;
    assert share * revenue == profit;
    assert 10000.0 * profit == (share * 10000.0) * revenue;
  }

  /**
   * A line without a surcharge beside one that has it counts as a known zero. The source's own
   * comment promises UNKNOWN here; the code reads the gap as nothing owed.
   */
  lemma PartialSurchargeIsKnown(order: Order, cfg: Config)
    requires AnySurcharge(order.lines)
    ensures EconomicsOf(order, cfg).surcharge == Figure(Some(LineTotal(order.lines, Surcharge)), Known)
  {
    assert Recorded(order.lines, Surcharge);
  }

  /** Steps 1 to 4 as the code runs them: revenue and what the supplier is owed. */
  method SupplierSide(order: Order, cfg: Config)
    returns (revenue: Figure, product: Figure, shipping: Figure, surcharge: Figure, missing: seq<Input>)
    ensures var e := EconomicsOf(order, cfg);
            && revenue == e.revenue && product == e.productCost && shipping == e.shippingCost && surcharge == e.surcharge
    ensures missing == Missing(revenue, Revenue) + Missing(product, SupplierProduct)
                       + Missing(shipping, SupplierShipping)
  {
    hide ComponentTotal, AddFigures, FeeOf, Profit, MarginOf, Overall;
    missing := [];
    revenue := match order.customerRevenue case None => UNKNOWN case Some(v) => KnownFigure(v);
    missing := missing + Missing(revenue, Revenue);

    var gaps;
    product, gaps := TotalPerUnit(order.lines, ProductCost);
    missing := missing + Missing(product, SupplierProduct);

    shipping := EXCLUDED;
    if cfg.includeSupplierShipping {
      shipping, gaps := TotalPerUnit(order.lines, ShippingCost);
      missing := missing + Missing(shipping, SupplierShipping);
    }

    surcharge := EXCLUDED;
    if AnySurcharge(order.lines) {
      surcharge, gaps := TotalPerUnit(order.lines, Surcharge);
    }
  }

  /** The whole derivation, collecting the missing inputs as it goes. */
  method ComputeOrderEconomics(order: Order, cfg: Config) returns (e: Economics)
    ensures e == EconomicsOf(order, cfg)
  {
    var revenue, product, shipping, surcharge, missing := SupplierSide(order, cfg);
    var landed := AddFigures([product, shipping, surcharge]);
    var paymentFees := FeeOf(cfg.includePaymentFees, cfg.paymentFeePercentage, revenue);
    var shopifyFees := FeeOf(cfg.includeShopifyFees, cfg.shopifyFeePercentage, revenue);
    var advertising := FeeOf(cfg.includeAdvertising, cfg.advertisingPercentage, revenue);
    var other := KnownFigure(cfg.otherCostPerOrder);
    missing := missing + Missing(paymentFees, PaymentFees);
    missing := missing + Missing(shopifyFees, ShopifyFees);
    missing := missing + Missing(advertising, Advertising);
    var commercial := AddFigures([landed, paymentFees, shopifyFees, advertising, other]);
    var profit := Profit(revenue, commercial);
    e := Economics(revenue, product, shipping, surcharge, paymentFees, shopifyFees, advertising, other,
                   landed, commercial, profit, MarginOf(revenue, commercial),
                   Overall(revenue, landed, commercial, profit), missing);
  }
}
