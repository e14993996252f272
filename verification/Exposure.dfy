/** Totals over many orders, and the supplier cash still outstanding. */
module Exposure {
  import opened Prelude
  import opened OrderEconomics
  import Sorting

  type Currency = string

  /** One order's figure with its currency, and what decides whether it is committed cash. */
  datatype OrderFact = OrderFact(
    landed: Figure,
    currency: Option<Currency>,
    paid: bool,
    state: FulfillmentState)

  datatype FulfillmentState =
    | OrderReceived | AwaitingSupplier | SupplierProcessing | Fulfilled | LabelCreated | CarrierPickedUp
    | InTransit | OutForDelivery | Delivered | DeliveryFailed | Cancelled | UnknownState

  /** Progress states at or beyond dispatch. */
  predicate Dispatched(s: FulfillmentState) {
    s.Fulfilled? || s.LabelCreated? || s.CarrierPickedUp? || s.InTransit? || s.OutForDelivery? || s.Delivered?
  }

  datatype Aggregate = Aggregate(amount: int, confidence: Confidence, included: nat, excluded: nat)

  /** Unknown, or denominated in a currency other than the one being reported. */
  predicate Excluded(order: OrderFact, primary: Option<Currency>) {
    || order.landed.amount == None
    || order.landed.confidence == Unknown
    || (primary.Some? && order.currency.Some? && order.currency != primary)
  }

  /** The groups of orders the dashboard selects. */
  datatype Group = Committed | CommittedAndLeft | Waiting | CommittedCostUnknown | HasLeft | JustShipped | IsCancelled

  /** Paid and not cancelled: the merchant holds the money and owes the supplier. */
  predicate IsCommitted(order: OrderFact) {
    order.paid && !order.state.Cancelled?
  }

  predicate Belongs(order: OrderFact, g: Group) {
    match g
    case Committed => IsCommitted(order)
    case CommittedAndLeft => IsCommitted(order) && Dispatched(order.state)
    case Waiting => IsCommitted(order) && !Dispatched(order.state)
    case CommittedCostUnknown => IsCommitted(order) && order.landed.amount == None
    case HasLeft => Dispatched(order.state)
    case JustShipped => order.state.Fulfilled? || order.state.LabelCreated? || order.state.CarrierPickedUp?
    case IsCancelled => order.state.Cancelled?
  }

  function Keep(orders: seq<OrderFact>, g: Group): seq<OrderFact> {
    if orders == [] then []
    else Keep(orders[..|orders| - 1], g)
         + (if Belongs(orders[|orders| - 1], g) then [orders[|orders| - 1]] else [])
  }

  function AmountSum(orders: seq<OrderFact>, primary: Option<Currency>): int {
    if orders == [] then 0
    else
      var last := orders[|orders| - 1];
      AmountSum(orders[..|orders| - 1], primary) + if Excluded(last, primary) then 0 else last.landed.amount.value
  }

  function ExcludedCount(orders: seq<OrderFact>, primary: Option<Currency>): (n: nat)
    ensures n <= |orders|
  {
    if orders == [] then 0
    else ExcludedCount(orders[..|orders| - 1], primary) + if Excluded(orders[|orders| - 1], primary) then 1 else 0
  }

  function WorstIncluded(orders: seq<OrderFact>, primary: Option<Currency>): Confidence {
    if orders == [] then Known
    else
      var last := orders[|orders| - 1];
      var before := WorstIncluded(orders[..|orders| - 1], primary);
      if Excluded(last, primary) then before else Worst(before, last.landed.confidence)
  }

  function Totalled(orders: seq<OrderFact>, primary: Option<Currency>): Aggregate {
    var excluded := ExcludedCount(orders, primary);
    Aggregate(AmountSum(orders, primary),
              Worst(WorstIncluded(orders, primary), if excluded > 0 then Estimated else Known),
              |orders| - excluded, excluded)
  }

  /** Totals the figure across orders, excluding and counting what it cannot include. */
  method AggregateOrders(orders: seq<OrderFact>, primary: Option<Currency>) returns (r: Aggregate)
    ensures r == Totalled(orders, primary)
    ensures r.included + r.excluded == |orders|
  {
    var amount, included, excluded, confidence := 0, 0, 0, Known;
    for i := 0 to |orders|
      invariant amount == AmountSum(orders[..i], primary)
      invariant excluded == ExcludedCount(orders[..i], primary)
      invariant included + excluded == i
      invariant confidence == WorstIncluded(orders[..i], primary)
    {
      assert orders[..i + 1][..i] == orders[..i];
      var order := orders[i];
      if order.landed.amount == None || order.landed.confidence == Unknown {
        excluded := excluded + 1;
      } else if primary.Some? && order.currency.Some? && order.currency != primary {
        excluded := excluded + 1;
      } else {
        amount := amount + order.landed.amount.value;
        confidence := Worst(confidence, order.landed.confidence);
        included := included + 1;
      }
    }
    assert orders[..|orders|] == orders;
    if excluded > 0 { confidence := Worst(confidence, Estimated); }
    r := Aggregate(amount, confidence, included, excluded);
  }

  // ---- the same aggregate however the orders are split or arranged ----------

  function Combine(a: Aggregate, b: Aggregate): Aggregate {
    Aggregate(a.amount + b.amount, Worst(a.confidence, b.confidence), a.included + b.included, a.excluded + b.excluded)
  }

  lemma {:induction false} PartsAppend(a: seq<OrderFact>, b: seq<OrderFact>, primary: Option<Currency>)
    ensures AmountSum(a + b, primary) == AmountSum(a, primary) + AmountSum(b, primary)
    ensures ExcludedCount(a + b, primary) == ExcludedCount(a, primary) + ExcludedCount(b, primary)
    ensures Rank(WorstIncluded(a + b, primary))
            == Max(Rank(WorstIncluded(a, primary)), Rank(WorstIncluded(b, primary)))
  {
    if b == [] {
      assert a + b == a;
    } else {
      assert (a + b)[..|a + b| - 1] == a + b[..|b| - 1];
      PartsAppend(a, b[..|b| - 1], primary);
    }
  }

  /** Splitting the orders and adding the parts loses nothing. */
  lemma TotalledSplits(a: seq<OrderFact>, b: seq<OrderFact>, primary: Option<Currency>)
    ensures Totalled(a + b, primary) == Combine(Totalled(a, primary), Totalled(b, primary))
  {
    hide AmountSum, ExcludedCount, WorstIncluded;
    PartsAppend(a, b, primary);
    SameRank(Totalled(a + b, primary).confidence, Combine(Totalled(a, primary), Totalled(b, primary)).confidence);
  }

  lemma SameRank(a: Confidence, b: Confidence)
    ensures Rank(a) == Rank(b) ==> a == b
  {
  }

  lemma CombineCommutes(a: Aggregate, b: Aggregate, c: Aggregate)
    ensures Combine(Combine(a, b), c) == Combine(Combine(a, c), b)
  {
  }

  /** Nor does the order they come in matter. */
  lemma {:induction false} TotalledIgnoresOrder(a: seq<OrderFact>, b: seq<OrderFact>, primary: Option<Currency>)
    requires multiset(a) == multiset(b)
    ensures Totalled(a, primary) == Totalled(b, primary)
    decreases |a|
  {
    hide Totalled;
    if a == [] {
      assert |multiset(b)| == 0;
    } else {
      var last := a[|a| - 1];
      assert last in multiset(b) by { assert last in multiset(a); }
      var k :| 0 <= k < |b| && b[k] == last;
      var shorter := b[..k] + b[k + 1..];
      Sorting.RemoveBoth(a, b, k);
      TotalledIgnoresOrder(a[..|a| - 1], shorter, primary);
      assert a == a[..|a| - 1] + [last];
      TotalledSplits(a[..|a| - 1], [last], primary);
      assert b == b[..k] + [last] + b[k + 1..];
      TotalledSplits(b[..k] + [last], b[k + 1..], primary);
      TotalledSplits(b[..k], [last], primary);
      TotalledSplits(b[..k], b[k + 1..], primary);
      CombineCommutes(Totalled(b[..k], primary), Totalled([last], primary), Totalled(b[k + 1..], primary));
    }
  }

  /**
   * What one order contributes: nothing but an exclusion when its cost is unknown or in another
   * currency, which makes the total an estimate; otherwise its own figure.
   */
  lemma TotalledOfOne(order: OrderFact, primary: Option<Currency>)
    ensures Totalled([], primary) == Aggregate(0, Known, 0, 0)
    ensures var foreign := primary.Some? && order.currency.Some? && order.currency.value != primary.value;
            Totalled([order], primary)
            == if order.landed.amount == None || order.landed.confidence == Unknown || foreign then Aggregate(0, Estimated, 0, 1)
               else Aggregate(order.landed.amount.value, order.landed.confidence, 1, 0)
  {
    assert [order][..0] == [];
    assert Totalled([], primary) == Aggregate(0, Known, 0, 0);
    TotalledSplits([], [order], primary);
    assert [] + [order] == [order];
  }

  lemma {:induction false} KeepAppend(a: seq<OrderFact>, b: seq<OrderFact>, g: Group)
    ensures Keep(a + b, g) == Keep(a, g) + Keep(b, g)
  {
    hide Belongs;
    if b == [] {
      assert a + b == a;
    } else {
      assert (a + b)[..|a + b| - 1] == a + b[..|b| - 1];
      KeepAppend(a, b[..|b| - 1], g);
    }
  }

  /** Has been handed over, by its progress state. */
  const GONE: set<FulfillmentState> := {Fulfilled, LabelCreated, CarrierPickedUp, InTransit, OutForDelivery, Delivered}

  /** Paid, and still to be handed over. */
  const STILL_HERE: set<FulfillmentState> := {OrderReceived, AwaitingSupplier, SupplierProcessing, DeliveryFailed, UnknownState}

  lemma KeepIfBelongs(order: OrderFact, g: Group)
    ensures Keep([order], g) == if Belongs(order, g) then [order] else []
  {
    hide Belongs;
    assert [order][..0] == [];
    assert Keep([order], g) == Keep([order][..0], g) + (if Belongs(order, g) then [order] else []);
  }

  /** Which groups an order is selected for, by whether it is paid, its state and its cost. */
  lemma KeepOfOne(order: OrderFact)
    ensures var selected := (g: Group) => Keep([order], g) == [order];
            && (forall g :: Keep([order], g) == [order] || Keep([order], g) == [])
            && (selected(Committed) <==> order.paid && order.state != Cancelled)
            && (selected(CommittedAndLeft) <==> order.paid && order.state in GONE)
            && (selected(Waiting) <==> order.paid && order.state in STILL_HERE)
            && (selected(CommittedCostUnknown) <==> order.paid && order.state != Cancelled && order.landed.amount == None)
            && (selected(HasLeft) <==> order.state in GONE)
            && (selected(JustShipped) <==> order.state in {Fulfilled, LabelCreated, CarrierPickedUp})
            && (selected(IsCancelled) <==> order.state == Cancelled)
  {
    hide Keep;
    forall g ensures Keep([order], g) == if Belongs(order, g) then [order] else [] {
      KeepIfBelongs(order, g);
    }
  }

  // ---- exposure ------------------------------------------------------------

  datatype Exposure = Exposure(commitments: Aggregate, fulfilled: Aggregate, outstanding: Aggregate, unknownCost: nat)

  /** Outstanding is computed by subtraction, floored at zero. */
  function ExposureOf(orders: seq<OrderFact>, primary: Option<Currency>): Exposure {
    var commitments := Totalled(Keep(orders, Committed), primary);
    var fulfilled := Totalled(Keep(orders, CommittedAndLeft), primary);
    CommitmentsSplit(orders, primary);
    Exposure(commitments, fulfilled,
             Aggregate(Max(0, commitments.amount - fulfilled.amount),
                       Worst(commitments.confidence, fulfilled.confidence),
                       commitments.included - fulfilled.included,
                       commitments.excluded),
             |Keep(orders, CommittedCostUnknown)|)
  }

  method ComputeExposure(orders: seq<OrderFact>, primary: Option<Currency>) returns (r: Exposure)
    ensures r == ExposureOf(orders, primary)
  {
    hide Keep, Totalled;
    var paid := Keep(orders, Committed);
    var dispatched := Keep(orders, CommittedAndLeft);
    var commitments := AggregateOrders(paid, primary);
    var fulfilled := AggregateOrders(dispatched, primary);
    CommitmentsSplit(orders, primary);
    r := Exposure(commitments, fulfilled,
                  Aggregate(Max(0, commitments.amount - fulfilled.amount),
                            Worst(commitments.confidence, fulfilled.confidence),
                            commitments.included - fulfilled.included,
                            commitments.excluded),
                  |Keep(orders, CommittedCostUnknown)|);
  }

  lemma SplitStep(kept: seq<OrderFact>, done: seq<OrderFact>, waiting: seq<OrderFact>, last: OrderFact,
                  primary: Option<Currency>)
    requires Totalled(kept, primary) == Combine(Totalled(done, primary), Totalled(waiting, primary))
    ensures Totalled(kept + [last], primary) == Combine(Totalled(done + [last], primary), Totalled(waiting, primary))
    ensures Totalled(kept + [last], primary) == Combine(Totalled(done, primary), Totalled(waiting + [last], primary))
  {
    hide Totalled;
    TotalledSplits(kept, [last], primary);
    TotalledSplits(done, [last], primary);
    TotalledSplits(waiting, [last], primary);
    var a, b, one := Totalled(done, primary), Totalled(waiting, primary), Totalled([last], primary);
    CombineCommutes(a, b, one);
    CombineAssociates(a, b, one);
  }

  lemma CombineAssociates(a: Aggregate, b: Aggregate, c: Aggregate)
    ensures Combine(Combine(a, b), c) == Combine(a, Combine(b, c))
  {
  }

  lemma NothingToSplit(none: seq<OrderFact>, primary: Option<Currency>)
    requires none == []
    ensures Totalled(none, primary) == Combine(Totalled(none, primary), Totalled(none, primary))
  {
  }

  /** Every committed order is either dispatched or waiting. */
  lemma {:induction false} CommitmentsSplit(orders: seq<OrderFact>, primary: Option<Currency>)
    ensures Totalled(Keep(orders, Committed), primary)
            == Combine(Totalled(Keep(orders, CommittedAndLeft), primary), Totalled(Keep(orders, Waiting), primary))
  {
    hide Totalled, Combine;
    if orders == [] {
      NothingToSplit(orders, primary);
    } else {
      var rest, last := orders[..|orders| - 1], orders[|orders| - 1];
      CommitmentsSplit(rest, primary);
      var kept, done, waiting := Keep(rest, Committed), Keep(rest, CommittedAndLeft), Keep(rest, Waiting);
      SplitStep(kept, done, waiting, last, primary);
      assert kept + [] == kept && done + [] == done && waiting + [] == waiting;
    }
  }

  predicate NonNegative(orders: seq<OrderFact>) {
    forall o :: o in orders && o.landed.amount.Some? ==> o.landed.amount.value >= 0
  }

  lemma {:induction false} NonNegativeSum(orders: seq<OrderFact>, primary: Option<Currency>)
    requires NonNegative(orders)
    ensures AmountSum(orders, primary) >= 0
  {
    if orders != [] {
      NonNegativeSum(orders[..|orders| - 1], primary);
      assert orders[|orders| - 1] in orders;
    }
  }

  lemma {:induction false} KeptWereThere(orders: seq<OrderFact>, g: Group)
    ensures forall o :: o in Keep(orders, g) <==> o in orders && Belongs(o, g)
  {
    if orders != [] {
      KeptWereThere(orders[..|orders| - 1], g);
      assert orders == orders[..|orders| - 1] + [orders[|orders| - 1]];
    }
  }

  /** An order that makes a total less than a measurement: left out of it, or only estimated. */
  predicate Shaky(order: OrderFact, primary: Option<Currency>) {
    Excluded(order, primary) || order.landed.confidence == Estimated
  }

  lemma {:induction false} ExcludedCountMeans(orders: seq<OrderFact>, primary: Option<Currency>)
    ensures ExcludedCount(orders, primary) == 0 <==> forall o :: o in orders ==> !Excluded(o, primary)
  {
    hide Excluded;
    if orders != [] {
      var rest, last := orders[..|orders| - 1], orders[|orders| - 1];
      ExcludedCountMeans(rest, primary);
      assert orders == rest + [last];
    }
  }

  lemma {:induction false} WorstIncludedMeans(orders: seq<OrderFact>, primary: Option<Currency>)
    ensures WorstIncluded(orders, primary)
            == if exists o :: o in orders && !Excluded(o, primary) && o.landed.confidence == Estimated
               then Estimated else Known
  {
    if orders != [] {
      var rest, last := orders[..|orders| - 1], orders[|orders| - 1];
      WorstIncludedMeans(rest, primary);
      assert orders == rest + [last];
      assert last in orders && forall o :: o in rest ==> o in orders;
    }
  }

  /** A total is known exactly when no order in it is shaky, and estimated otherwise. */
  lemma TotalledConfidence(orders: seq<OrderFact>, primary: Option<Currency>)
    ensures Totalled(orders, primary).confidence
            == if exists o :: o in orders && Shaky(o, primary) then Estimated else Known
  {
    ExcludedCountMeans(orders, primary);
    WorstIncludedMeans(orders, primary);
    assert forall o :: o in orders && Excluded(o, primary) ==> Shaky(o, primary);
    assert forall o :: o in orders && o.landed.confidence == Estimated ==> Shaky(o, primary);
  }

  /** No order of the group had to be left out of its total. */
  predicate AllIncluded(orders: seq<OrderFact>, g: Group, primary: Option<Currency>) {
    forall o :: o in orders && Belongs(o, g) ==> !Excluded(o, primary)
  }

  predicate SomeShaky(orders: seq<OrderFact>, g: Group, primary: Option<Currency>) {
    exists o :: o in orders && Belongs(o, g) && Shaky(o, primary)
  }

  lemma GroupTotals(orders: seq<OrderFact>, g: Group, primary: Option<Currency>)
    ensures Totalled(Keep(orders, g), primary).excluded == 0 <==> AllIncluded(orders, g, primary)
    ensures Totalled(Keep(orders, g), primary).confidence == if SomeShaky(orders, g, primary) then Estimated else Known
  {
    hide Keep, Excluded, Shaky, AmountSum, ExcludedCount, WorstIncluded, Belongs;
    var kept := Keep(orders, g);
    KeptWereThere(orders, g);
    ExcludedCountMeans(kept, primary);
    TotalledConfidence(kept, primary);
    if SomeShaky(orders, g, primary) {
      var o :| o in orders && Belongs(o, g) && Shaky(o, primary);
      assert o in kept;
    }
  }

  /**
   * The subtraction against a direct aggregate over the orders still waiting. Amount and number of
   * orders always agree. The excluded count is the one of all committed orders, so it agrees
   * exactly when every dispatched one was included; and a shaky dispatched order spoils the
   * confidence unless a waiting one does so anyway.
   */
  lemma OutstandingIsTheWaitingOrders(orders: seq<OrderFact>, primary: Option<Currency>)
    requires NonNegative(orders)
    ensures var outstanding := ExposureOf(orders, primary).outstanding;
            var waiting := Totalled(Keep(orders, Waiting), primary);
            && outstanding.amount == waiting.amount
            && outstanding.included == waiting.included
            && (outstanding.excluded == waiting.excluded <==> AllIncluded(orders, CommittedAndLeft, primary))
            && (outstanding.confidence == waiting.confidence
                <==> (SomeShaky(orders, CommittedAndLeft, primary) ==> SomeShaky(orders, Waiting, primary)))
  {
    hide Keep, AmountSum, ExcludedCount, WorstIncluded, AllIncluded, SomeShaky;
    CommitmentsSplit(orders, primary);
    KeptWereThere(orders, Waiting);
    NonNegativeSum(Keep(orders, Waiting), primary);
    GroupTotals(orders, CommittedAndLeft, primary);
    GroupTotals(orders, Waiting, primary);
  }

  /** Whatever the amounts, what is outstanding is what is committed and not yet dispatched, and never below zero. */
  lemma OutstandingIsFloored(orders: seq<OrderFact>, primary: Option<Currency>)
    ensures var e := ExposureOf(orders, primary); var rest := e.commitments.amount - e.fulfilled.amount;
            && e.outstanding.amount >= 0
            && (rest >= 0 ==> e.outstanding.amount == rest)
            && (rest < 0 ==> e.outstanding.amount == 0)
  {
    hide Keep, Totalled;
  }

  const WAITING_ORDER: OrderFact := OrderFact(Figure(Some(500), Known), Some("GBP"), true, AwaitingSupplier)

  const DISPATCHED_ESTIMATE: OrderFact := OrderFact(Figure(Some(300), Estimated), Some("GBP"), true, InTransit)

  const DISPATCHED_UNKNOWN: OrderFact := OrderFact(UNKNOWN, Some("GBP"), true, InTransit)

  /** A dispatched order whose cost was an estimate makes the cash still owed on another one an estimate. */
  lemma DispatchedEstimateSpoilsConfidence()
    ensures var orders := [DISPATCHED_ESTIMATE, WAITING_ORDER];
            && ExposureOf(orders, Some("GBP")).outstanding.confidence == Estimated
            && Totalled(Keep(orders, Waiting), Some("GBP")).confidence == Known
  {
    hide Keep, Totalled;
    var orders, primary := [DISPATCHED_ESTIMATE, WAITING_ORDER], Some("GBP");
    assert DISPATCHED_ESTIMATE in orders && Belongs(DISPATCHED_ESTIMATE, CommittedAndLeft) && Shaky(DISPATCHED_ESTIMATE, primary);
    GroupTotals(orders, Committed, primary);
    GroupTotals(orders, CommittedAndLeft, primary);
    GroupTotals(orders, Waiting, primary);
  }

  /** A dispatched order without a known cost is still counted as excluded from what is outstanding. */
  lemma DispatchedUnknownStaysExcluded()
    ensures var orders := [DISPATCHED_UNKNOWN, WAITING_ORDER];
            ExposureOf(orders, Some("GBP")).outstanding.excluded != Totalled(Keep(orders, Waiting), Some("GBP")).excluded
  {
    hide Keep, Totalled, ExposureOf;
    var orders, primary := [DISPATCHED_UNKNOWN, WAITING_ORDER], Some("GBP");
    assert DISPATCHED_UNKNOWN in orders && Belongs(DISPATCHED_UNKNOWN, CommittedAndLeft) && Excluded(DISPATCHED_UNKNOWN, primary);
    OutstandingIsTheWaitingOrders(orders, primary);
  }

  /** The committed and the dispatched totals are over exactly those orders, and so is the count of unknown costs. */
  lemma ExposureTotals(orders: seq<OrderFact>, more: seq<OrderFact>, primary: Option<Currency>)
    ensures var e := ExposureOf(orders + more, primary); var a, b := ExposureOf(orders, primary), ExposureOf(more, primary);
            && e.commitments == Combine(a.commitments, b.commitments)
            && e.fulfilled == Combine(a.fulfilled, b.fulfilled)
            && e.unknownCost == a.unknownCost + b.unknownCost
  {
    hide Totalled, Keep, Combine;
    KeepAppend(orders, more, Committed);
    KeepAppend(orders, more, CommittedAndLeft);
    KeepAppend(orders, more, CommittedCostUnknown);
    TotalledSplits(Keep(orders, Committed), Keep(more, Committed), primary);
    TotalledSplits(Keep(orders, CommittedAndLeft), Keep(more, CommittedAndLeft), primary);
  }

  /** What one order adds to the exposure: an unpaid or cancelled one nothing at all. */
  lemma ExposureOfOne(order: OrderFact, primary: Option<Currency>)
    ensures var e := ExposureOf([order], primary); var none := Aggregate(0, Known, 0, 0);
            && e.commitments == (if order.paid && order.state != Cancelled then Totalled([order], primary) else none)
            && e.fulfilled == (if order.paid && order.state in GONE then Totalled([order], primary) else none)
            && e.unknownCost == (if order.paid && order.state != Cancelled && order.landed.amount == None then 1 else 0)
  {
    hide Totalled, Keep, Combine;
    KeepOfOne(order);
    TotalledOfOne(order, primary);
  }

  // ---- state counts --------------------------------------------------------

  datatype StateCounts = StateCounts(
    awaiting: nat, processing: nat, shipped: nat, inTransit: nat, outForDelivery: nat,
    delivered: nat, failed: nat, cancelled: nat, unknown: nat)

  function Buckets(c: StateCounts): nat {
    c.awaiting + c.processing + c.shipped + c.inTransit + c.outForDelivery + c.delivered + c.failed + c.cancelled
    + c.unknown
  }

  function Bump(c: StateCounts, s: FulfillmentState): StateCounts {
    match s
    case OrderReceived => c.(awaiting := c.awaiting + 1)
    case AwaitingSupplier => c.(awaiting := c.awaiting + 1)
    case SupplierProcessing => c.(processing := c.processing + 1)
    case Fulfilled => c.(shipped := c.shipped + 1)
    case LabelCreated => c.(shipped := c.shipped + 1)
    case CarrierPickedUp => c.(shipped := c.shipped + 1)
    case InTransit => c.(inTransit := c.inTransit + 1)
    case OutForDelivery => c.(outForDelivery := c.outForDelivery + 1)
    case Delivered => c.(delivered := c.delivered + 1)
    case DeliveryFailed => c.(failed := c.failed + 1)
    case Cancelled => c.(cancelled := c.cancelled + 1)
    case UnknownState => c.(unknown := c.unknown + 1)
  }

  function Tally(orders: seq<OrderFact>): StateCounts {
    if orders == [] then StateCounts(0, 0, 0, 0, 0, 0, 0, 0, 0)
    else Bump(Tally(orders[..|orders| - 1]), orders[|orders| - 1].state)
  }

  method CountStates(orders: seq<OrderFact>) returns (c: StateCounts)
    ensures c == Tally(orders)
  {
    c := StateCounts(0, 0, 0, 0, 0, 0, 0, 0, 0);
    for i := 0 to |orders|
      invariant c == Tally(orders[..i])
    {
      assert orders[..i + 1][..i] == orders[..i];
      c := Bump(c, orders[i].state);
    }
    assert orders[..|orders|] == orders;
  }

  /** What the counters say about a group that is a union of progress buckets. */
  function Counted(c: StateCounts, g: Group): nat {
    match g
    case IsCancelled => c.cancelled
    case HasLeft => c.shipped + c.inTransit + c.outForDelivery + c.delivered
    case JustShipped => c.shipped
    case _ => 0
  }

  function One(order: OrderFact, g: Group): nat {
    if Belongs(order, g) then 1 else 0
  }

  predicate IsBucketUnion(g: Group) {
    g.IsCancelled? || g.HasLeft? || g.JustShipped?
  }

  lemma BumpCounts(c: StateCounts, order: OrderFact, g: Group)
    requires IsBucketUnion(g)
    ensures Counted(Bump(c, order.state), g) == Counted(c, g) + One(order, g)
  {
  }

  lemma BumpBuckets(c: StateCounts, s: FulfillmentState)
    ensures Buckets(Bump(c, s)) == Buckets(c) + 1
  {
  }

  /** The counters agree with the groups the exposure selects. */
  lemma {:induction false} CountsMatchGroups(orders: seq<OrderFact>, g: Group)
    requires IsBucketUnion(g)
    ensures Counted(Tally(orders), g) == |Keep(orders, g)|
  {
    if orders != [] {
      var rest, last := orders[..|orders| - 1], orders[|orders| - 1];
      CountsMatchGroups(rest, g);
      BumpCounts(Tally(rest), last, g);
    }
  }

  /** How many of the orders are in one of these states. */
  function Number(orders: seq<OrderFact>, states: set<FulfillmentState>): nat {
    if orders == [] then 0
    else Number(orders[..|orders| - 1], states) + if orders[|orders| - 1].state in states then 1 else 0
  }

  /** Each counter is the number of orders in its states. */
  lemma {:induction false} CountersAre(orders: seq<OrderFact>)
    ensures var c := Tally(orders);
            && c.awaiting == Number(orders, {OrderReceived, AwaitingSupplier})
            && c.processing == Number(orders, {SupplierProcessing})
            && c.shipped == Number(orders, {Fulfilled, LabelCreated, CarrierPickedUp})
            && c.inTransit == Number(orders, {InTransit})
            && c.outForDelivery == Number(orders, {OutForDelivery})
            && c.delivered == Number(orders, {Delivered})
            && c.failed == Number(orders, {DeliveryFailed})
            && c.cancelled == Number(orders, {Cancelled})
            && c.unknown == Number(orders, {UnknownState})
  {
    if orders != [] {
      CountersAre(orders[..|orders| - 1]);
    }
  }

  /** Each order lands in exactly one progress bucket. */
  lemma {:induction false} CountsArePartition(orders: seq<OrderFact>)
    ensures Buckets(Tally(orders)) == |orders|
  {
    if orders != [] {
      var rest, last := orders[..|orders| - 1], orders[|orders| - 1];
      CountsArePartition(rest);
      BumpBuckets(Tally(rest), last.state);
    }
  }
}
