/**
 * The webhook feedback loop ends: applying plans over and over reaches a store for which
 * nothing is left to do, under any cap and even when some of the planned writes fail.
 */
module Convergence {
  import opened Prelude
  import opened Catalogue
  import opened Plan
  import Price
  import Visibility

  // ---- what a set of successful writes does to the store ---------------------------

  function PriceWritten(written: seq<Action>, product: string, variant: string): Option<int> {
    if written == [] then None
    else
      var last := written[|written| - 1];
      if last.PriceAction? && last.product == product && last.variant == variant then Some(last.to)
      else PriceWritten(written[..|written| - 1], product, variant)
  }

  function StatusWritten(written: seq<Action>, product: string): Option<Visibility.DesiredStatus> {
    if written == [] then None
    else
      var last := written[|written| - 1];
      if last.VisibilityAction? && last.product == product then Some(last.status)
      else StatusWritten(written[..|written| - 1], product)
  }

  function VariantAfter(v: Variant, product: string, written: seq<Action>): Variant {
    match PriceWritten(written, product, v.id)
    case Some(to) => Price.Repriced(v, to)
    case None => v
  }

  function StatusAfter(p: Product, written: seq<Action>, tagged: set<string>): Product {
    match StatusWritten(written, p.id)
    case Some(to) => Visibility.Applied(p, to, p.id in tagged)
    case None => p
  }

  /** One product after the writes; `tagged` are the products whose ownership tag write succeeded. */
  function ProductAfter(p: Product, written: seq<Action>, tagged: set<string>): Product {
    StatusAfter(p, written, tagged).(
      variants := seq(|p.variants|, i requires 0 <= i < |p.variants| => VariantAfter(p.variants[i], p.id, written)))
  }

  function StoreAfter(ps: seq<Product>, written: seq<Action>, tagged: set<string>): seq<Product> {
    seq(|ps|, i requires 0 <= i < |ps| => ProductAfter(ps[i], written, tagged))
  }

  predicate DistinctIds(ps: seq<Product>) {
    && (forall i, j :: 0 <= i < j < |ps| ==> ps[i].id != ps[j].id)
    && (forall p :: p in ps ==> forall i, j :: 0 <= i < j < |p.variants| ==> p.variants[i].id != p.variants[j].id)
  }

  predicate SoundVariant(v: Variant) {
    (v.price.Some? ==> v.price.value >= 0) && (v.cost.landed.Some? ==> v.cost.landed.value >= 0)
  }

  /** Amounts are not negative and ids are unique, as Shopify guarantees. */
  predicate SoundStore(ps: seq<Product>) {
    DistinctIds(ps) && forall p :: p in ps ==> forall v :: v in p.variants ==> SoundVariant(v)
  }

  /** Some of the actions planned for this store; the rest were cut off or failed. */
  predicate FromPlan(written: seq<Action>, ps: seq<Product>, r: Visibility.Rules) {
    forall a :: a in written ==> a in AllActions(ps, r)
  }

  /** A rule set that passes validation, with a threshold that is not zero. */
  predicate Settling(r: Visibility.Rules) {
    Visibility.ValidRules(r) && r.price.minChange > 0.0
  }

  // ---- a write carries the decision it was planned from -----------------------------

  lemma {:induction false} PriceWrittenComesFrom(written: seq<Action>, product: string, variant: string)
    ensures PriceWritten(written, product, variant).Some? <==>
              exists a :: a in written && a.PriceAction? && a.product == product && a.variant == variant
    ensures PriceWritten(written, product, variant).Some? ==>
              exists a :: a in written && a.PriceAction? && a.product == product && a.variant == variant
                          && a.to == PriceWritten(written, product, variant).value
  {
    if written != [] {
      PriceWrittenComesFrom(written[..|written| - 1], product, variant);
      assert written == written[..|written| - 1] + [written[|written| - 1]];
    }
  }

  lemma {:induction false} StatusWrittenComesFrom(written: seq<Action>, product: string)
    ensures StatusWritten(written, product).Some? <==>
              exists a :: a in written && a.VisibilityAction? && a.product == product
    ensures StatusWritten(written, product).Some? ==>
              exists a :: a in written && a.VisibilityAction? && a.product == product
                          && a.status == StatusWritten(written, product).value
  {
    if written != [] {
      StatusWrittenComesFrom(written[..|written| - 1], product);
      assert written == written[..|written| - 1] + [written[|written| - 1]];
    }
  }

  lemma VisibilityPartIs(p: Product, r: Visibility.Rules, a: Action)
    requires a in VisibilityPart(p, r)
    ensures Visibility.Decide(p, r).Change?
    ensures a.VisibilityAction? && a.product == p.id && a.status == Visibility.Decide(p, r).to
  {
  }

  /** The product an action was planned for. */
  lemma Planned(ps: seq<Product>, r: Visibility.Rules, a: Action) returns (i: nat)
    requires a in AllActions(ps, r)
    ensures i < |ps| && a.product == ps[i].id && Considered(ps[i], r)
    ensures a.VisibilityAction? ==> a in VisibilityPart(ps[i], r)
    ensures a.PriceAction? ==> exists v :: v in ps[i].variants && a in PricePart(ps[i].id, v, r.price)
  {
    hide Price.Decide, Visibility.Decide, Visibility.IsSelected, Visibility.IsExempt;
    AllActionsAre(ps, r, a);
    var p :| p in ps && a in ProductActions(p, r);
    ProductActionsAre(p, r, a);
    i :| 0 <= i < |ps| && ps[i] == p;
  }

  /** A new price for a variant is the one decided for it. */
  lemma VariantWrite(ps: seq<Product>, r: Visibility.Rules, written: seq<Action>, i: nat, v: Variant)
    requires SoundStore(ps) && FromPlan(written, ps, r) && i < |ps| && v in ps[i].variants
    requires PriceWritten(written, ps[i].id, v.id).Some?
    ensures Price.Decide(v, r.price).Change? && v.price.Some?
    ensures VariantAfter(v, ps[i].id, written) == Price.Repriced(v, Price.Decide(v, r.price).to)
  {
    hide Price.Decide, Visibility.Decide, Visibility.IsSelected, Visibility.IsExempt;
    PriceWrittenComesFrom(written, ps[i].id, v.id);
    var a :| a in written && a.PriceAction? && a.product == ps[i].id && a.variant == v.id
             && a.to == PriceWritten(written, ps[i].id, v.id).value;
    var k := Planned(ps, r, a);
    assert k == i;
    var w :| w in ps[i].variants && a in PricePart(ps[i].id, w, r.price);
    PricePartIs(ps[i].id, w, r.price, a);
    assert w == v;
  }

  /** A new status for a product is the one decided for it. */
  lemma ProductWrite(ps: seq<Product>, r: Visibility.Rules, written: seq<Action>, i: nat)
    requires SoundStore(ps) && FromPlan(written, ps, r) && i < |ps|
    requires StatusWritten(written, ps[i].id).Some?
    ensures Considered(ps[i], r)
    ensures Visibility.Decide(ps[i], r).Change? && Visibility.Decide(ps[i], r).to == StatusWritten(written, ps[i].id).value
  {
    hide Price.Decide, Visibility.Decide, Visibility.IsSelected, Visibility.IsExempt;
    StatusWrittenComesFrom(written, ps[i].id);
    var a :| a in written && a.VisibilityAction? && a.product == ps[i].id
             && a.status == StatusWritten(written, ps[i].id).value;
    var k := Planned(ps, r, a);
    assert k == i;
    VisibilityPartIs(ps[i], r, a);
  }

  // ---- the measure ------------------------------------------------------------------

  function DistanceOf(vs: seq<Variant>, r: Price.PriceRules): nat {
    if vs == [] then 0 else DistanceOf(vs[..|vs| - 1], r) + Price.Distance(vs[|vs| - 1], r)
  }

  function TotalDistance(ps: seq<Product>, r: Price.PriceRules): nat {
    if ps == [] then 0 else TotalDistance(ps[..|ps| - 1], r) + DistanceOf(ps[|ps| - 1].variants, r)
  }

  /** Its visibility is still to be changed. */
  predicate Unsettled(p: Product, r: Visibility.Rules) {
    Considered(p, r) && Visibility.Decide(p, r).Change?
  }

  function UnsettledCount(ps: seq<Product>, r: Visibility.Rules): (n: nat)
    ensures n <= |ps|
  {
    if ps == [] then 0 else UnsettledCount(ps[..|ps| - 1], r) + if Unsettled(ps[|ps| - 1], r) then 1 else 0
  }

  /** Prices first; any price write outweighs every visibility change it may cause. */
  function Rank(ps: seq<Product>, r: Visibility.Rules): nat {
    TotalDistance(ps, r.price) * (|ps| + 1) + UnsettledCount(ps, r)
  }

  // ---- sums shrink when their terms do -----------------------------------------------

  predicate NoFarther(vs: seq<Variant>, ws: seq<Variant>, r: Price.PriceRules) {
    |ws| == |vs| && forall i :: 0 <= i < |vs| ==> Price.Distance(ws[i], r) <= Price.Distance(vs[i], r)
  }

  lemma {:induction false} DistanceShrinks(vs: seq<Variant>, ws: seq<Variant>, r: Price.PriceRules)
    requires NoFarther(vs, ws, r)
    ensures DistanceOf(ws, r) <= DistanceOf(vs, r)
    ensures (exists i :: 0 <= i < |vs| && Price.Distance(ws[i], r) < Price.Distance(vs[i], r)) ==>
              DistanceOf(ws, r) < DistanceOf(vs, r)
  {
    hide Price.Distance;
    if vs != [] {
      DistanceShrinks(vs[..|vs| - 1], ws[..|ws| - 1], r);
      forall i | 0 <= i < |vs| && Price.Distance(ws[i], r) < Price.Distance(vs[i], r)
        ensures DistanceOf(ws, r) < DistanceOf(vs, r)
      {
        if i < |vs| - 1 {
          assert ws[..|ws| - 1][i] == ws[i] && vs[..|vs| - 1][i] == vs[i];
        }
      }
    }
  }

  lemma {:induction false} TotalShrinks(ps: seq<Product>, qs: seq<Product>, r: Price.PriceRules)
    requires |qs| == |ps|
    requires forall i :: 0 <= i < |ps| ==> DistanceOf(qs[i].variants, r) <= DistanceOf(ps[i].variants, r)
    ensures TotalDistance(qs, r) <= TotalDistance(ps, r)
    ensures (exists i :: 0 <= i < |ps| && DistanceOf(qs[i].variants, r) < DistanceOf(ps[i].variants, r)) ==>
              TotalDistance(qs, r) < TotalDistance(ps, r)
  {
    hide DistanceOf;
    if ps != [] {
      TotalShrinks(ps[..|ps| - 1], qs[..|qs| - 1], r);
      forall i | 0 <= i < |ps| && DistanceOf(qs[i].variants, r) < DistanceOf(ps[i].variants, r)
        ensures TotalDistance(qs, r) < TotalDistance(ps, r)
      {
        if i < |ps| - 1 {
          assert qs[..|qs| - 1][i] == qs[i] && ps[..|ps| - 1][i] == ps[i];
        }
      }
    }
  }

  lemma {:induction false} CountShrinks(ps: seq<Product>, qs: seq<Product>, r: Visibility.Rules)
    requires |qs| == |ps|
    requires forall i :: 0 <= i < |ps| && Unsettled(qs[i], r) ==> Unsettled(ps[i], r)
    ensures UnsettledCount(qs, r) <= UnsettledCount(ps, r)
    ensures (exists i :: 0 <= i < |ps| && Unsettled(ps[i], r) && !Unsettled(qs[i], r)) ==>
              UnsettledCount(qs, r) < UnsettledCount(ps, r)
  {
    hide Unsettled;
    if ps != [] {
      CountShrinks(ps[..|ps| - 1], qs[..|qs| - 1], r);
      forall i | 0 <= i < |ps| && Unsettled(ps[i], r) && !Unsettled(qs[i], r)
        ensures UnsettledCount(qs, r) < UnsettledCount(ps, r)
      {
        if i < |ps| - 1 {
          assert qs[..|qs| - 1][i] == qs[i] && ps[..|ps| - 1][i] == ps[i];
        }
      }
    }
  }

  // ---- every run with something written comes closer -----------------------------------

  lemma VariantComesCloser(ps: seq<Product>, r: Visibility.Rules, written: seq<Action>, i: nat, v: Variant)
    requires Settling(r) && SoundStore(ps) && FromPlan(written, ps, r) && i < |ps| && v in ps[i].variants
    ensures var w := VariantAfter(v, ps[i].id, written);
            && SoundVariant(w) && w.id == v.id
            && Price.Distance(w, r.price) <= Price.Distance(v, r.price)
            && (PriceWritten(written, ps[i].id, v.id).Some? ==> Price.Distance(w, r.price) < Price.Distance(v, r.price))
  {
    hide Price.Decide, Price.Distance;
    assert SoundVariant(v);
    if PriceWritten(written, ps[i].id, v.id).Some? {
      VariantWrite(ps, r, written, i, v);
      Price.ChangeComesCloser(v, r.price);
    }
  }

  lemma ProductComesCloser(ps: seq<Product>, r: Visibility.Rules, written: seq<Action>, tagged: set<string>, i: nat)
    requires Settling(r) && SoundStore(ps) && FromPlan(written, ps, r) && i < |ps|
    ensures DistanceOf(ProductAfter(ps[i], written, tagged).variants, r.price) <= DistanceOf(ps[i].variants, r.price)
    ensures (exists v :: v in ps[i].variants && PriceWritten(written, ps[i].id, v.id).Some?) ==>
              DistanceOf(ProductAfter(ps[i], written, tagged).variants, r.price) < DistanceOf(ps[i].variants, r.price)
  {
    hide Price.Distance, DistanceOf, SoundStore, FromPlan, Settling, PriceWritten, StatusAfter;
    var vs, ws := ps[i].variants, ProductAfter(ps[i], written, tagged).variants;
    forall k | 0 <= k < |vs|
      ensures Price.Distance(ws[k], r.price) <= Price.Distance(vs[k], r.price)
      ensures PriceWritten(written, ps[i].id, vs[k].id).Some? ==>
                Price.Distance(ws[k], r.price) < Price.Distance(vs[k], r.price)
    {
      VariantComesCloser(ps, r, written, i, vs[k]);
    }
    DistanceShrinks(vs, ws, r.price);
  }

  lemma StaysSound(ps: seq<Product>, r: Visibility.Rules, written: seq<Action>, tagged: set<string>)
    requires Settling(r) && SoundStore(ps) && FromPlan(written, ps, r)
    ensures SoundStore(StoreAfter(ps, written, tagged))
  {
    hide Price.Distance, FromPlan, Settling, PriceWritten, StatusWritten, SoundVariant;
    var qs := StoreAfter(ps, written, tagged);
    forall q | q in qs
      ensures forall v :: v in q.variants ==> SoundVariant(v)
      ensures forall i, j :: 0 <= i < j < |q.variants| ==> q.variants[i].id != q.variants[j].id
    {
      var i :| 0 <= i < |ps| && q == ProductAfter(ps[i], written, tagged);
      forall k | 0 <= k < |q.variants| ensures SoundVariant(q.variants[k]) && q.variants[k].id == ps[i].variants[k].id {
        VariantComesCloser(ps, r, written, i, ps[i].variants[k]);
      }
    }
  }

  /** When no price of it was written, a product whose visibility was changed is settled, and any other is as it was. */
  lemma VisibilitySettles(ps: seq<Product>, r: Visibility.Rules, written: seq<Action>, tagged: set<string>, i: nat)
    requires SoundStore(ps) && FromPlan(written, ps, r) && i < |ps|
    requires forall a :: a in written ==> a.VisibilityAction?
    ensures ProductAfter(ps[i], written, tagged).variants == ps[i].variants
    ensures if StatusWritten(written, ps[i].id).Some?
            then Unsettled(ps[i], r) && !Unsettled(ProductAfter(ps[i], written, tagged), r)
            else ProductAfter(ps[i], written, tagged) == ps[i]
  {
    hide SoundStore, FromPlan, Price.LowestMargin, Visibility.DecideWith, Visibility.IsSelected, Visibility.IsExempt;
    var p, q := ps[i], ProductAfter(ps[i], written, tagged);
    forall k | 0 <= k < |p.variants| ensures q.variants[k] == p.variants[k] {
      PriceWrittenComesFrom(written, p.id, p.variants[k].id);
    }
    if StatusWritten(written, p.id).Some? {
      ProductWrite(ps, r, written, i);
      var margin := Price.LowestMargin(p.variants, r.price);
      Visibility.ChangeSettles(p, r, margin, p.id in tagged);
      assert q == Visibility.Applied(p, Visibility.DecideWith(p, r, margin).to, p.id in tagged);
    }
  }

  lemma PricesComeCloser(ps: seq<Product>, r: Visibility.Rules, written: seq<Action>, tagged: set<string>)
    requires Settling(r) && SoundStore(ps) && FromPlan(written, ps, r)
    ensures TotalDistance(StoreAfter(ps, written, tagged), r.price) <= TotalDistance(ps, r.price)
    ensures (exists a :: a in written && a.PriceAction?) ==>
              TotalDistance(StoreAfter(ps, written, tagged), r.price) < TotalDistance(ps, r.price)
  {
    hide DistanceOf, SoundStore, Settling, PriceWritten, ProductAfter, TotalDistance, Price.Decide;
    var qs := StoreAfter(ps, written, tagged);
    forall i | 0 <= i < |ps| ensures DistanceOf(qs[i].variants, r.price) <= DistanceOf(ps[i].variants, r.price) {
      ProductComesCloser(ps, r, written, tagged, i);
    }
    TotalShrinks(ps, qs, r.price);
    if a :| a in written && a.PriceAction? {
      var i := Planned(ps, r, a);
      var v :| v in ps[i].variants && a in PricePart(ps[i].id, v, r.price);
      PricePartIs(ps[i].id, v, r.price, a);
      PriceWrittenComesFrom(written, ps[i].id, v.id);
      ProductComesCloser(ps, r, written, tagged, i);
    }
  }

  lemma VisibilityComesCloser(ps: seq<Product>, r: Visibility.Rules, written: seq<Action>, tagged: set<string>)
    requires SoundStore(ps) && FromPlan(written, ps, r) && written != []
    requires forall a :: a in written ==> a.VisibilityAction?
    ensures UnsettledCount(StoreAfter(ps, written, tagged), r) < UnsettledCount(ps, r)
  {
    hide SoundStore, Unsettled, ProductAfter, UnsettledCount, StatusWritten;
    var qs := StoreAfter(ps, written, tagged);
    forall i | 0 <= i < |ps|
      ensures Unsettled(qs[i], r) ==> Unsettled(ps[i], r)
      ensures StatusWritten(written, ps[i].id).Some? ==> Unsettled(ps[i], r) && !Unsettled(qs[i], r)
    {
      VisibilitySettles(ps, r, written, tagged, i);
    }
    var a := written[0];
    var i := Planned(ps, r, a);
    StatusWrittenComesFrom(written, ps[i].id);
    CountShrinks(ps, qs, r);
  }

  lemma RankOrder(d: nat, d': nat, u: nat, u': nat, n: nat)
    requires u' <= n
    requires d' < d || (d' <= d && u' < u)
    ensures d' * (n + 1) + u' < d * (n + 1) + u
  {
    if d' < d {
      assert (d' + 1) * (n + 1) <= d * (n + 1);
    } else {
      assert d' == d;
    }
  }

  /** Any run that writes something planned brings the store strictly closer to rest. */
  lemma WritingComesCloser(ps: seq<Product>, r: Visibility.Rules, written: seq<Action>, tagged: set<string>)
    requires Settling(r) && SoundStore(ps) && FromPlan(written, ps, r) && written != []
    ensures SoundStore(StoreAfter(ps, written, tagged))
    ensures Rank(StoreAfter(ps, written, tagged), r) < Rank(ps, r)
  {
    hide SoundStore, Settling, FromPlan, UnsettledCount, TotalDistance;
    StaysSound(ps, r, written, tagged);
    PricesComeCloser(ps, r, written, tagged);
    if forall a :: a in written ==> a.VisibilityAction? {
      VisibilityComesCloser(ps, r, written, tagged);
    }
    var qs := StoreAfter(ps, written, tagged);
    RankOrder(TotalDistance(ps, r.price), TotalDistance(qs, r.price), UnsettledCount(ps, r), UnsettledCount(qs, r), |ps|);
  }

  // ---- whole sequences of runs ------------------------------------------------------------

  /** What one run managed to write. */
  datatype Outcome = Outcome(written: seq<Action>, tagged: set<string>)

  function AfterRuns(ps: seq<Product>, runs: seq<Outcome>): seq<Product>
    decreases |runs|
  {
    if runs == [] then ps
    else
      var last := runs[|runs| - 1];
      StoreAfter(AfterRuns(ps, runs[..|runs| - 1]), last.written, last.tagged)
  }

  /** Each run wrote at least one of the actions planned for the store it met, and nothing else. */
  predicate Effective(ps: seq<Product>, runs: seq<Outcome>, r: Visibility.Rules) {
    forall k :: 0 <= k < |runs| ==> runs[k].written != [] && FromPlan(runs[k].written, AfterRuns(ps, runs[..k]), r)
  }

  /** With costs, stock and rules fixed there can be only so many runs that change anything. */
  lemma {:induction false} EffectiveRunsAreBounded(ps: seq<Product>, runs: seq<Outcome>, r: Visibility.Rules)
    requires Settling(r) && SoundStore(ps) && Effective(ps, runs, r)
    ensures SoundStore(AfterRuns(ps, runs))
    ensures Rank(AfterRuns(ps, runs), r) + |runs| <= Rank(ps, r)
    decreases |runs|
  {
    hide SoundStore, Settling, FromPlan, Rank;
    if runs != [] {
      var shorter, last := runs[..|runs| - 1], runs[|runs| - 1];
      forall k | 0 <= k < |shorter|
        ensures shorter[k].written != [] && FromPlan(shorter[k].written, AfterRuns(ps, shorter[..k]), r)
      {
        assert shorter[..k] == runs[..k] && shorter[k] == runs[k];
      }
      EffectiveRunsAreBounded(ps, shorter, r);
      assert shorter == runs[..|runs| - 1];
      WritingComesCloser(AfterRuns(ps, shorter), r, last.written, last.tagged);
    }
  }

  /** Complete runs, each applying its whole capped plan; `tags` says which ownership tags each managed to write. */
  function Repeated(ps: seq<Product>, r: Visibility.Rules, tags: seq<set<string>>): seq<Product>
    decreases |tags|
  {
    if tags == [] then ps
    else Repeated(StoreAfter(ps, FirstFew(AllActions(ps, r), r.cap), tags[0]), r, tags[1..])
  }

  lemma NothingWritten(ps: seq<Product>, tagged: set<string>)
    ensures StoreAfter(ps, [], tagged) == ps
  {
    forall i | 0 <= i < |ps| ensures ProductAfter(ps[i], [], tagged) == ps[i] {
      assert ProductAfter(ps[i], [], tagged).variants == ps[i].variants;
    }
  }

  /** The feedback loop ends: after at most that many complete runs the plan is empty, under any cap. */
  lemma {:induction false} LoopEnds(ps: seq<Product>, r: Visibility.Rules, tags: seq<set<string>>)
    requires Settling(r) && SoundStore(ps)
    requires |tags| >= Rank(ps, r)
    ensures AllActions(Repeated(ps, r, tags), r) == []
    decreases |tags|
  {
    hide SoundStore, Rank, AllActions, Price.ValidPriceRules;
    var plan := FirstFew(AllActions(ps, r), r.cap);
    if plan == [] {
      assert AllActions(ps, r) == [];
      RestIsFixed(ps, r, tags);
    } else {
      WritingComesCloser(ps, r, plan, {});
      assert tags != [];
      WritingComesCloser(ps, r, plan, tags[0]);
      LoopEnds(StoreAfter(ps, plan, tags[0]), r, tags[1..]);
    }
  }

  /** Once nothing is planned, nothing ever changes again. */
  lemma {:induction false} RestIsFixed(ps: seq<Product>, r: Visibility.Rules, tags: seq<set<string>>)
    requires AllActions(ps, r) == []
    ensures Repeated(ps, r, tags) == ps
    decreases |tags|
  {
    if tags != [] {
      NothingWritten(ps, tags[0]);
      RestIsFixed(ps, r, tags[1..]);
    }
  }

  // ---- where the loop comes to rest ---------------------------------------------------------

  /** Shown or hidden as the rules want, and no variant has a step worth making left. */
  predicate AtRest(p: Product, r: Visibility.Rules) {
    && Visibility.AtRest(p, r)
    && forall v :: v in p.variants && Price.Priceable(v, r.price) ==> Price.Stays(v, r.price)
  }

  lemma VariantAsksNothingIff(v: Variant, product: string, r: Price.PriceRules)
    requires Price.ValidPriceRules(r) && SoundVariant(v)
    ensures PricePart(product, v, r) == [] <==> (Price.Priceable(v, r) ==> Price.Stays(v, r))
  {
    hide Price.Decide, Price.Stays, Price.Priceable;
    Price.ChangedIffStepLeft(v, r);
  }

  lemma {:induction false} VariantsAskNothingIff(product: string, vs: seq<Variant>, r: Price.PriceRules)
    requires Price.ValidPriceRules(r) && forall v :: v in vs ==> SoundVariant(v)
    ensures PriceActions(product, vs, r) == [] <==>
              forall v :: v in vs && Price.Priceable(v, r) ==> Price.Stays(v, r)
  {
    hide PricePart, Price.Priceable, Price.Stays, SoundVariant, Price.ValidPriceRules;
    if vs != [] {
      var rest, last := vs[..|vs| - 1], vs[|vs| - 1];
      assert vs == rest + [last];
      VariantsAskNothingIff(product, rest, r);
      VariantAsksNothingIff(last, product, r);
    }
  }

  lemma ProductAsksNothingIff(p: Product, r: Visibility.Rules)
    requires Price.ValidPriceRules(r.price) && forall v :: v in p.variants ==> SoundVariant(v)
    ensures ProductActions(p, r) == [] <==> (Considered(p, r) ==> AtRest(p, r))
  {
    hide PriceActions, Price.Priceable, Price.Stays, SoundVariant, Price.ValidPriceRules, Visibility.Decide,
      Visibility.AtRest, Visibility.IsSelected, Visibility.IsExempt;
    VariantsAskNothingIff(p.id, p.variants, r.price);
    if Considered(p, r) {
      Visibility.ChangedIffNotAtRest(p, r);
    }
  }

  /** The loop rests exactly where every considered product is as the rules want it, as far as one step can tell. */
  lemma {:induction false} RestIffNothingLeft(ps: seq<Product>, r: Visibility.Rules)
    requires Price.ValidPriceRules(r.price)
    requires forall p :: p in ps ==> forall v :: v in p.variants ==> SoundVariant(v)
    ensures AllActions(ps, r) == [] <==> forall p :: p in ps && Considered(p, r) ==> AtRest(p, r)
  {
    hide ProductActions, Considered, AtRest, SoundVariant, Price.ValidPriceRules;
    if ps != [] {
      var rest, last := ps[..|ps| - 1], ps[|ps| - 1];
      assert ps == rest + [last];
      assert last in ps && forall p :: p in rest ==> p in ps;
      RestIffNothingLeft(rest, r);
      ProductAsksNothingIff(last, r);
    }
  }
}
