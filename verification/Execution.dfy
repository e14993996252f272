/**
 * One real run of a prepared plan: visibility first, then prices in one call per product,
 * stopping for good once Shopify is seen to be degraded.
 */
module Execution {
  import opened Prelude
  import opened Catalogue
  import opened Plan
  import Convergence
  import PlanHash
  import Visibility

  /** What the breaker says before a call, and whether the call would succeed. */
  datatype Weather = Weather(degraded: bool, accepted: bool)

  datatype Status = Applied | Rejected | NotAttempted

  datatype Reported = Reported(action: Action, status: Status)

  function Reports(group: seq<Action>, status: Status): seq<Reported> {
    if group == [] then [] else Reports(group[..|group| - 1], status) + [Reported(group[|group| - 1], status)]
  }

  function ActionsOf(report: seq<Reported>): seq<Action> {
    if report == [] then [] else ActionsOf(report[..|report| - 1]) + [report[|report| - 1].action]
  }

  function CountApplied(report: seq<Reported>): nat {
    if report == [] then 0
    else CountApplied(report[..|report| - 1]) + if report[|report| - 1].status == Applied then 1 else 0
  }

  // ---- the order of execution ------------------------------------------------------

  function VisibilityActions(actions: seq<Action>): seq<Action> {
    if actions == [] then []
    else
      VisibilityActions(actions[..|actions| - 1])
      + if actions[|actions| - 1].VisibilityAction? then [actions[|actions| - 1]] else []
  }

  predicate PriceOf(a: Action, product: string) {
    a.PriceAction? && a.product == product
  }

  function GroupOf(actions: seq<Action>, product: string): seq<Action> {
    if actions == [] then []
    else
      GroupOf(actions[..|actions| - 1], product)
      + if PriceOf(actions[|actions| - 1], product) then [actions[|actions| - 1]] else []
  }

  /** The products with price changes, by first appearance. */
  function GroupOrder(actions: seq<Action>): seq<string> {
    if actions == [] then []
    else
      var before, last := GroupOrder(actions[..|actions| - 1]), actions[|actions| - 1];
      if last.PriceAction? && last.product !in before then before + [last.product] else before
  }

  function Grouped(actions: seq<Action>, products: seq<string>): seq<Action> {
    if products == [] then []
    else Grouped(actions, products[..|products| - 1]) + GroupOf(actions, products[|products| - 1])
  }

  function ExecutionOrder(actions: seq<Action>): seq<Action> {
    VisibilityActions(actions) + Grouped(actions, GroupOrder(actions))
  }

  predicate Distinct(products: seq<string>) {
    forall i, j :: 0 <= i < j < |products| ==> products[i] != products[j]
  }

  lemma {:induction false} OrderNamesProducts(actions: seq<Action>)
    ensures Distinct(GroupOrder(actions))
    ensures forall a :: a in actions && a.PriceAction? ==> a.product in GroupOrder(actions)
  {
    if actions != [] {
      OrderNamesProducts(actions[..|actions| - 1]);
      assert actions == actions[..|actions| - 1] + [actions[|actions| - 1]];
    }
  }

  /** Products are called in the order in which each one's first price action stands in the plan. */
  lemma {:induction false} OrderIsByFirstAppearance(actions: seq<Action>, i: nat, j: nat)
    requires i < j < |GroupOrder(actions)|
    ensures exists m :: 0 <= m < |actions| && PriceOf(actions[m], GroupOrder(actions)[i])
              && forall n :: 0 <= n <= m ==> !PriceOf(actions[n], GroupOrder(actions)[j])
  {
    var rest, order := actions[..|actions| - 1], GroupOrder(actions);
    OrderNamesProducts(rest);
    OrderNamesProducts(actions);
    if j < |GroupOrder(rest)| {
      OrderIsByFirstAppearance(rest, i, j);
      var m :| 0 <= m < |rest| && PriceOf(rest[m], GroupOrder(rest)[i])
               && forall n :: 0 <= n <= m ==> !PriceOf(rest[n], GroupOrder(rest)[j]);
      assert PriceOf(actions[m], order[i]) && forall n :: 0 <= n <= m ==> actions[n] == rest[n];
    } else {
      OrderedHaveActions(rest, i);
      var m :| 0 <= m < |rest| && PriceOf(rest[m], GroupOrder(rest)[i]);
      assert PriceOf(actions[m], order[i]);
      forall n | 0 <= n <= m ensures !PriceOf(actions[n], order[j]) {
        assert actions[n] == rest[n] && rest[n] in rest;
        assert order[j] !in GroupOrder(rest);
      }
    }
  }

  lemma {:induction false} OrderedHaveActions(actions: seq<Action>, i: nat)
    requires i < |GroupOrder(actions)|
    ensures exists m :: 0 <= m < |actions| && PriceOf(actions[m], GroupOrder(actions)[i])
  {
    var rest := actions[..|actions| - 1];
    if i < |GroupOrder(rest)| {
      OrderedHaveActions(rest, i);
      var m :| 0 <= m < |rest| && PriceOf(rest[m], GroupOrder(rest)[i]);
      assert PriceOf(actions[m], GroupOrder(actions)[i]);
    } else {
      assert PriceOf(actions[|actions| - 1], GroupOrder(actions)[i]);
    }
  }

  /** Both selections keep the plan's own order. */
  lemma {:induction false} SelectionsKeepOrder(a: seq<Action>, b: seq<Action>, product: string)
    ensures VisibilityActions(a + b) == VisibilityActions(a) + VisibilityActions(b)
    ensures GroupOf(a + b, product) == GroupOf(a, product) + GroupOf(b, product)
  {
    if b == [] {
      assert a + b == a;
    } else {
      assert (a + b)[..|a + b| - 1] == a + b[..|b| - 1];
      SelectionsKeepOrder(a, b[..|b| - 1], product);
    }
  }

  lemma Last<T>(s: seq<T>)
    requires s != []
    ensures multiset(s) == multiset(s[..|s| - 1]) + multiset{s[|s| - 1]}
  {
    assert s == s[..|s| - 1] + [s[|s| - 1]];
  }

  lemma {:induction false} CountVisibility(actions: seq<Action>, x: Action)
    ensures multiset(VisibilityActions(actions))[x] == if x.VisibilityAction? then multiset(actions)[x] else 0
  {
    if actions != [] {
      CountVisibility(actions[..|actions| - 1], x);
      Last(actions);
    }
  }

  lemma {:induction false} CountGroup(actions: seq<Action>, product: string, x: Action)
    ensures multiset(GroupOf(actions, product))[x] == if PriceOf(x, product) then multiset(actions)[x] else 0
  {
    if actions != [] {
      CountGroup(actions[..|actions| - 1], product, x);
      Last(actions);
    }
  }

  lemma {:induction false} CountGrouped(actions: seq<Action>, products: seq<string>, x: Action)
    requires Distinct(products)
    ensures multiset(Grouped(actions, products))[x]
            == if x.PriceAction? && x.product in products then multiset(actions)[x] else 0
  {
    if products != [] {
      var rest, last := products[..|products| - 1], products[|products| - 1];
      CountGrouped(actions, rest, x);
      CountGroup(actions, last, x);
      assert products == rest + [last];
      assert last !in rest;
    }
  }

  /** Executing in this order does every planned action, once. */
  lemma ExecutionOrderIsTheWholePlan(actions: seq<Action>)
    ensures multiset(ExecutionOrder(actions)) == multiset(actions)
    ensures |ExecutionOrder(actions)| == |actions|
  {
    hide VisibilityActions, Grouped, GroupOrder;
    forall x ensures multiset(ExecutionOrder(actions))[x] == multiset(actions)[x] {
      OrderNamesProducts(actions);
      CountVisibility(actions, x);
      CountGrouped(actions, GroupOrder(actions), x);
      assert x in actions <==> x in multiset(actions);
    }
    assert multiset(ExecutionOrder(actions)) == multiset(actions);
    assert |multiset(ExecutionOrder(actions))| == |multiset(actions)|;
  }

  // ---- what a report may look like ------------------------------------------------------

  /** Once an action was not attempted, none after it was. */
  predicate StopsForGood(report: seq<Reported>) {
    forall i, j :: 0 <= i < j < |report| && report[i].status == NotAttempted ==> report[j].status == NotAttempted
  }

  predicate NothingStopped(report: seq<Reported>) {
    forall i :: 0 <= i < |report| ==> report[i].status != NotAttempted
  }

  /** The price changes of one product succeed or fail together. */
  predicate ProductsShareFate(report: seq<Reported>) {
    forall i, j :: 0 <= i < |report| && 0 <= j < |report|
                   && report[i].action.PriceAction? && report[j].action.PriceAction?
                   && report[i].action.product == report[j].action.product ==>
                     report[i].status == report[j].status
  }

  // ---- which call an action belongs to, and what that call does ----------------------------

  function IndexOf(products: seq<string>, product: string): nat {
    if products == [] || products[0] == product then 0 else 1 + IndexOf(products[1..], product)
  }

  lemma {:induction false} IndexOfAt(products: seq<string>, k: nat)
    requires Distinct(products) && k < |products|
    ensures IndexOf(products, products[k]) == k
  {
    if k > 0 {
      assert products[1..][k - 1] == products[k];
      IndexOfAt(products[1..], k - 1);
    }
  }

  /** One call per visibility action, in order, then one per product with price changes. */
  function CallNumber(visibilities: nat, products: seq<string>, a: Action, i: nat): nat {
    if a.VisibilityAction? then i else visibilities + IndexOf(products, a.product)
  }

  /** Not attempted once Shopify was degraded before this call or an earlier one; otherwise as the call went. */
  predicate StatusOfCall(weather: nat -> Weather, k: nat, status: Status) {
    && (status == NotAttempted <==> exists n: nat :: n <= k && weather(n).degraded)
    && (status == Applied ==> weather(k).accepted)
    && (status == Rejected ==> !weather(k).accepted)
  }

  predicate DegradedBefore(weather: nat -> Weather, k: nat) {
    exists n: nat :: n < k && weather(n).degraded
  }

  lemma DegradedStep(weather: nat -> Weather, k: nat)
    ensures DegradedBefore(weather, k + 1) <==> DegradedBefore(weather, k) || weather(k).degraded
    ensures DegradedBefore(weather, k + 1) <==> exists n: nat :: n <= k && weather(n).degraded
  {
  }

  lemma {:induction false} ReportsAre(group: seq<Action>, status: Status)
    ensures ActionsOf(Reports(group, status)) == group
    ensures |Reports(group, status)| == |group|
    ensures CountApplied(Reports(group, status)) == if status == Applied then |group| else 0
    ensures forall i :: 0 <= i < |group| ==> Reports(group, status)[i] == Reported(group[i], status)
  {
    hide ActionsOf, CountApplied;
    if group == [] {
      EmptyReport(Reports(group, status), group);
    } else {
      var rest, last := Reports(group[..|group| - 1], status), Reported(group[|group| - 1], status);
      ReportsAre(group[..|group| - 1], status);
      assert Reports(group, status) == rest + [last];
      GrowReport(rest, last);
      assert group[..|group| - 1] + [group[|group| - 1]] == group;
    }
  }

  lemma EmptyReport(report: seq<Reported>, actions: seq<Action>)
    requires report == [] && actions == []
    ensures ActionsOf(report) == [] == VisibilityActions(actions)
    ensures CountApplied(report) == 0 && StopsForGood(report) && NothingStopped(report)
  {
  }

  lemma GrowReport(report: seq<Reported>, r: Reported)
    ensures ActionsOf(report + [r]) == ActionsOf(report) + [r.action]
    ensures CountApplied(report + [r]) == CountApplied(report) + if r.status == Applied then 1 else 0
  {
    assert (report + [r])[..|report|] == report;
  }

  lemma {:induction false} ReportAppend(a: seq<Reported>, b: seq<Reported>)
    ensures ActionsOf(a + b) == ActionsOf(a) + ActionsOf(b)
    ensures CountApplied(a + b) == CountApplied(a) + CountApplied(b)
  {
    if b == [] {
      assert a + b == a;
    } else {
      assert (a + b)[..|a + b| - 1] == a + b[..|b| - 1];
      ReportAppend(a, b[..|b| - 1]);
    }
  }

  lemma {:induction false} ActionsOfAt(report: seq<Reported>)
    ensures |ActionsOf(report)| == |report|
    ensures forall i :: 0 <= i < |report| ==> ActionsOf(report)[i] == report[i].action
  {
    if report != [] {
      ActionsOfAt(report[..|report| - 1]);
    }
  }

  lemma {:induction false} GroupMembers(actions: seq<Action>, product: string)
    ensures forall a :: a in GroupOf(actions, product) ==> PriceOf(a, product)
  {
    if actions != [] {
      GroupMembers(actions[..|actions| - 1], product);
    }
  }

  // ---- the run ----------------------------------------------------------------------------

  lemma VisibilityStep(actions: seq<Action>, i: nat)
    requires i < |actions|
    ensures VisibilityActions(actions[..i + 1])
            == VisibilityActions(actions[..i]) + if actions[i].VisibilityAction? then [actions[i]] else []
  {
    assert actions[..i + 1][..i] == actions[..i];
  }

  lemma ReportOne(report: seq<Reported>, r: Reported)
    requires StopsForGood(report) && (r.status != NotAttempted ==> NothingStopped(report))
    ensures StopsForGood(report + [r]) && (r.status != NotAttempted ==> NothingStopped(report + [r]))
  {
  }

  lemma NeverBeforeTheFirst(weather: nat -> Weather)
    ensures !DegradedBefore(weather, 0)
  {
  }

  method ApplyVisibilities(actions: seq<Action>, weather: nat -> Weather)
    returns (report: seq<Reported>, applied: nat, failed: nat, calls: nat, aborted: bool)
    ensures ActionsOf(report) == VisibilityActions(actions)
    ensures applied == CountApplied(report) && applied + failed == |report|
    ensures StopsForGood(report) && (!aborted ==> NothingStopped(report))
    ensures (forall k :: !weather(k).degraded) ==> !aborted
    ensures (forall k :: !weather(k).degraded && weather(k).accepted) ==> failed == 0
    ensures forall r :: r in report ==> r.action.VisibilityAction?
    ensures aborted <==> DegradedBefore(weather, |report|)
    ensures !aborted ==> calls == |report|
    ensures forall m :: 0 <= m < |report| ==> StatusOfCall(weather, m, report[m].status)
  {
    hide VisibilityActions, ActionsOf, CountApplied, StopsForGood, NothingStopped, DegradedBefore;
    assert !DegradedBefore(weather, 0) by { NeverBeforeTheFirst(weather); }
    report, applied, failed, calls, aborted := [], 0, 0, 0, false;
    EmptyReport(report, actions[..0]);
    for i := 0 to |actions|
      invariant ActionsOf(report) == VisibilityActions(actions[..i])
      invariant applied == CountApplied(report) && applied + failed == |report|
      invariant StopsForGood(report) && (!aborted ==> NothingStopped(report))
      invariant (forall k :: !weather(k).degraded) ==> !aborted
      invariant (forall k :: !weather(k).degraded && weather(k).accepted) ==> failed == 0
      invariant forall r :: r in report ==> r.action.VisibilityAction?
      invariant aborted <==> DegradedBefore(weather, |report|)
      invariant !aborted ==> calls == |report|
      invariant forall m :: 0 <= m < |report| ==> StatusOfCall(weather, m, report[m].status)
    {
      VisibilityStep(actions, i);
      if actions[i].VisibilityAction? {
        DegradedStep(weather, |report|);
        if !aborted && weather(calls).degraded { aborted := true; }
        var status := NotAttempted;
        if !aborted {
          status := if weather(calls).accepted then Applied else Rejected;
          calls := calls + 1;
        }
        if status == Applied { applied := applied + 1; } else { failed := failed + 1; }
        GrowReport(report, Reported(actions[i], status));
        ReportOne(report, Reported(actions[i], status));
        report := report + [Reported(actions[i], status)];
      }
    }
    assert actions[..|actions|] == actions;
  }

  method GroupByProduct(actions: seq<Action>) returns (order: seq<string>, byProduct: map<string, seq<Action>>)
    ensures order == GroupOrder(actions)
    ensures forall p :: p in order ==> p in byProduct && byProduct[p] == GroupOf(actions, p)
  {
    order, byProduct := [], map[];
    for i := 0 to |actions|
      invariant order == GroupOrder(actions[..i])
      invariant forall p :: p in order <==> p in byProduct
      invariant forall p :: p in order ==> byProduct[p] == GroupOf(actions[..i], p)
      invariant forall p :: p !in order ==> GroupOf(actions[..i], p) == []
    {
      assert actions[..i + 1][..i] == actions[..i];
      var a := actions[i];
      if a.PriceAction? {
        if a.product !in byProduct {
          order := order + [a.product];
          byProduct := byProduct[a.product := [a]];
        } else {
          byProduct := byProduct[a.product := byProduct[a.product] + [a]];
        }
      }
    }
    assert actions[..|actions|] == actions;
  }

  lemma GroupKeepsFate(report: seq<Reported>, product: string, group: seq<Action>, status: Status)
    requires ProductsShareFate(report)
    requires forall a :: a in group ==> PriceOf(a, product)
    requires forall r :: r in report && r.action.PriceAction? ==> r.action.product != product
    ensures ProductsShareFate(report + Reports(group, status))
  {
    ReportsAre(group, status);
    var more := Reports(group, status);
    var all := report + more;
    forall i | |report| <= i < |all| ensures PriceOf(all[i].action, product) && all[i].status == status {
      assert all[i] == more[i - |report|];
      assert group[i - |report|] in group;
    }
    assert forall i :: 0 <= i < |report| ==> all[i] == report[i] && all[i] in report;
  }

  lemma GroupStopsForGood(report: seq<Reported>, group: seq<Action>, status: Status)
    requires StopsForGood(report)
    requires status != NotAttempted ==> NothingStopped(report)
    ensures StopsForGood(report + Reports(group, status))
    ensures status != NotAttempted ==> NothingStopped(report + Reports(group, status))
  {
    ReportsAre(group, status);
  }

  /** The whole run; `applied` and `failed` are the counters the report's summary shows. */
  method RunPreparedPlan(actions: seq<Action>, weather: nat -> Weather)
    returns (report: seq<Reported>, applied: nat, failed: nat)
    ensures ActionsOf(report) == ExecutionOrder(actions)
    ensures multiset(ActionsOf(report)) == multiset(actions)
    ensures applied == CountApplied(report) && applied + failed == |actions| == |report|
    ensures StopsForGood(report) && ProductsShareFate(report)
    ensures (forall k :: !weather(k).degraded) ==> NothingStopped(report)
    ensures (forall k :: !weather(k).degraded && weather(k).accepted) ==> applied == |actions|
    ensures forall i :: 0 <= i < |report| ==>
              StatusOfCall(weather, CallNumber(|VisibilityActions(actions)|, GroupOrder(actions), report[i].action, i),
                           report[i].status)
  {
    hide IndexOf, DegradedBefore, StatusOfCall, Reports;
    hide VisibilityActions, GroupOf, Grouped, GroupOrder, StopsForGood, ProductsShareFate, NothingStopped, CountApplied, ActionsOf;
    var calls, aborted;
    report, applied, failed, calls, aborted := ApplyVisibilities(actions, weather);
    var order, byProduct := GroupByProduct(actions);
    OrderNamesProducts(actions);
    NothingGroupedYet(report, actions);
    ActionsOfAt(report);
    ghost var visibilities := |VisibilityActions(actions)|;
    var k := 0;
    while k < |order|
      invariant 0 <= k <= |order|
      invariant ActionsOf(report) == VisibilityActions(actions) + Grouped(actions, order[..k])
      invariant applied == CountApplied(report) && applied + failed == |report|
      invariant StopsForGood(report) && ProductsShareFate(report) && (!aborted ==> NothingStopped(report))
      invariant (forall n :: !weather(n).degraded) ==> !aborted
      invariant (forall n :: !weather(n).degraded && weather(n).accepted) ==> failed == 0
      invariant forall r :: r in report && r.action.PriceAction? ==> r.action.product in order[..k]
      invariant aborted <==> DegradedBefore(weather, visibilities + k)
      invariant !aborted ==> calls == visibilities + k
      invariant forall i :: 0 <= i < |report| ==>
                  StatusOfCall(weather, CallNumber(visibilities, order, report[i].action, i), report[i].status)
    {
      DegradedStep(weather, visibilities + k);
      IndexOfAt(order, k);
      var product := order[k];
      var group := byProduct[product];
      if !aborted && weather(calls).degraded { aborted := true; }
      var status := NotAttempted;
      if !aborted {
        status := if weather(calls).accepted then Applied else Rejected;
        calls := calls + 1;
      }
      if status == Applied { applied := applied + |group|; } else { failed := failed + |group|; }
      GroupMembers(actions, product);
      assert product !in order[..k];
      GroupKeepsFate(report, product, group, status);
      GroupStopsForGood(report, group, status);
      ReportsAre(group, status);
      ReportAppend(report, Reports(group, status));
      GroupedGrows(actions, order, k);
      forall r | r in Reports(group, status) ensures PriceOf(r.action, product) && r.status == status {
        assert r.action in group;
      }
      assert StatusOfCall(weather, visibilities + k, status) by { CallGoes(weather, visibilities + k, aborted, status); }
      report := report + Reports(group, status);
      k := k + 1;
    }
    assert order[..k] == order;
    ExecutionOrderIsTheWholePlan(actions);
    ActionsOfAt(report);
  }

  lemma CallGoes(weather: nat -> Weather, k: nat, aborted: bool, status: Status)
    requires aborted <==> DegradedBefore(weather, k + 1)
    requires status == if aborted then NotAttempted else if weather(k).accepted then Applied else Rejected
    ensures StatusOfCall(weather, k, status)
  {
    DegradedStep(weather, k);
  }

  lemma NothingGroupedYet(report: seq<Reported>, actions: seq<Action>)
    requires forall r :: r in report ==> r.action.VisibilityAction?
    ensures ProductsShareFate(report)
    ensures forall s: seq<Action> :: s + Grouped(actions, []) == s
  {
  }

  lemma GroupedGrows(actions: seq<Action>, order: seq<string>, k: nat)
    requires k < |order|
    ensures Grouped(actions, order[..k + 1]) == Grouped(actions, order[..k]) + GroupOf(actions, order[k])
  {
    assert order[..k + 1][..k] == order[..k];
  }

  // ---- a run and the feedback loop -----------------------------------------------------------

  function AppliedActions(report: seq<Reported>): seq<Action> {
    if report == [] then []
    else
      AppliedActions(report[..|report| - 1])
      + if report[|report| - 1].status == Applied then [report[|report| - 1].action] else []
  }

  lemma {:induction false} AppliedWerePlanned(report: seq<Reported>)
    ensures forall a :: a in AppliedActions(report) ==> a in ActionsOf(report)
    ensures |AppliedActions(report)| == CountApplied(report)
  {
    if report != [] {
      AppliedWerePlanned(report[..|report| - 1]);
    }
  }

  /** However badly a run goes, if anything at all was applied the store is closer to rest. */
  lemma AnyProgressComesCloser(ps: seq<Product>, r: Visibility.Rules, report: seq<Reported>, tagged: set<string>)
    requires Convergence.Settling(r) && Convergence.SoundStore(ps)
    requires multiset(ActionsOf(report)) == multiset(FirstFew(AllActions(ps, r), r.cap))
    requires CountApplied(report) > 0
    ensures var after := Convergence.StoreAfter(ps, AppliedActions(report), tagged);
            Convergence.SoundStore(after) && Convergence.Rank(after, r) < Convergence.Rank(ps, r)
  {
    hide AllActions, ActionsOf, AppliedActions, CountApplied, Convergence.Settling, Convergence.SoundStore, Convergence.Rank;
    var written := AppliedActions(report);
    AppliedWerePlanned(report);
    forall a | a in written ensures a in AllActions(ps, r) {
      assert a in multiset(ActionsOf(report));
    }
    Convergence.WritingComesCloser(ps, r, written, tagged);
  }

  // ---- regrouping changes nothing ---------------------------------------------------------

  lemma SameTargetSameAction(a: seq<Action>, x: Action, y: Action)
    requires PlanHash.DistinctTargets(a) && x in a && y in a && PlanHash.SameTarget(x, y)
    ensures x == y
  {
    var i :| 0 <= i < |a| && a[i] == x;
    var j :| 0 <= j < |a| && a[j] == y;
    assert PlanHash.SameTarget(y, x);
    assert !(i < j) && !(j < i);
  }

  lemma SamePrices(a: seq<Action>, b: seq<Action>, product: string, variant: string)
    requires multiset(a) == multiset(b) && PlanHash.DistinctTargets(a)
    ensures Convergence.PriceWritten(a, product, variant) == Convergence.PriceWritten(b, product, variant)
  {
    hide PlanHash.DistinctTargets, Convergence.PriceWritten;
    Convergence.PriceWrittenComesFrom(a, product, variant);
    Convergence.PriceWrittenComesFrom(b, product, variant);
    assert forall x :: x in a <==> x in multiset(a);
    assert forall x :: x in b <==> x in multiset(b);
    if Convergence.PriceWritten(a, product, variant).Some? {
      var x :| x in a && x.PriceAction? && x.product == product && x.variant == variant
               && x.to == Convergence.PriceWritten(a, product, variant).value;
      assert x in b;
      var y :| y in b && y.PriceAction? && y.product == product && y.variant == variant
               && y.to == Convergence.PriceWritten(b, product, variant).value;
      SameTargetSameAction(a, x, y);
    }
  }

  lemma SameStatus(a: seq<Action>, b: seq<Action>, product: string)
    requires multiset(a) == multiset(b) && PlanHash.DistinctTargets(a)
    ensures Convergence.StatusWritten(a, product) == Convergence.StatusWritten(b, product)
  {
    hide PlanHash.DistinctTargets, Convergence.StatusWritten;
    Convergence.StatusWrittenComesFrom(a, product);
    Convergence.StatusWrittenComesFrom(b, product);
    assert forall x :: x in a <==> x in multiset(a);
    assert forall x :: x in b <==> x in multiset(b);
    if Convergence.StatusWritten(a, product).Some? {
      var x :| x in a && x.VisibilityAction? && x.product == product
               && x.status == Convergence.StatusWritten(a, product).value;
      assert x in b;
      var y :| y in b && y.VisibilityAction? && y.product == product
               && y.status == Convergence.StatusWritten(b, product).value;
      SameTargetSameAction(a, x, y);
    }
  }

  /** Hiding first and grouping by product leaves the store exactly as the plan's own order would. */
  lemma RegroupingKeepsTheEffect(ps: seq<Product>, actions: seq<Action>, tagged: set<string>)
    requires PlanHash.DistinctTargets(actions)
    ensures Convergence.StoreAfter(ps, ExecutionOrder(actions), tagged) == Convergence.StoreAfter(ps, actions, tagged)
  {
    hide PlanHash.DistinctTargets, ExecutionOrder, Convergence.PriceWritten, Convergence.StatusWritten;
    var executed := ExecutionOrder(actions);
    ExecutionOrderIsTheWholePlan(actions);
    forall i | 0 <= i < |ps|
      ensures Convergence.ProductAfter(ps[i], executed, tagged) == Convergence.ProductAfter(ps[i], actions, tagged)
    {
      var p := ps[i];
      SameStatus(actions, executed, p.id);
      forall k | 0 <= k < |p.variants|
        ensures Convergence.VariantAfter(p.variants[k], p.id, executed) == Convergence.VariantAfter(p.variants[k], p.id, actions)
      {
        SamePrices(actions, executed, p.id, p.variants[k].id);
      }
      assert Convergence.ProductAfter(p, executed, tagged).variants == Convergence.ProductAfter(p, actions, tagged).variants;
    }
  }
}
