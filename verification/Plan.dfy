/** The planner: every action the rules ask for, in order, up to a cap. */
module Plan {
  import opened Prelude
  import opened Catalogue
  import Price
  import Visibility

  datatype Action =
    | VisibilityAction(product: string, before: ProductStatus, status: Visibility.DesiredStatus)
    | PriceAction(product: string, variant: string, from: int, to: int, currency: string, clamped: bool)

  /** Inside the selection and not pinned by hand. */
  predicate Considered(p: Product, r: Visibility.Rules) {
    Visibility.IsSelected(p, r.selection) && !Visibility.IsExempt(p, r.exemptTags)
  }

  function VisibilityPart(p: Product, r: Visibility.Rules): seq<Action> {
    match Visibility.Decide(p, r)
    case Change(to, _) => [VisibilityAction(p.id, p.status, to)]
    case _ => []
  }

  predicate BeingHidden(p: Product, r: Visibility.Rules) {
    Visibility.Decide(p, r).Change? && Visibility.Decide(p, r).to == Visibility.ToDraft
  }

  function PricePart(product: string, v: Variant, r: Price.PriceRules): seq<Action> {
    match Price.Decide(v, r)
    case Change(to, clamped) => [PriceAction(product, v.id, v.price.value, to, v.currency, clamped)]
    case _ => []
  }

  function PriceActions(product: string, vs: seq<Variant>, r: Price.PriceRules): seq<Action> {
    if vs == [] then []
    else PriceActions(product, vs[..|vs| - 1], r) + PricePart(product, vs[|vs| - 1], r)
  }

  /** A product being hidden keeps its prices for this run. */
  function ProductActions(p: Product, r: Visibility.Rules): seq<Action> {
    if !Considered(p, r) then []
    else if BeingHidden(p, r) then VisibilityPart(p, r)
    else VisibilityPart(p, r) + PriceActions(p.id, p.variants, r.price)
  }

  /** What an uncapped run would do. */
  function AllActions(ps: seq<Product>, r: Visibility.Rules): seq<Action> {
    if ps == [] then [] else AllActions(ps[..|ps| - 1], r) + ProductActions(ps[|ps| - 1], r)
  }

  function FirstFew(actions: seq<Action>, cap: nat): seq<Action> {
    actions[..Min(cap, |actions|)]
  }

  /** The planner meets this considered product, or one of its variants, with the plan already full. */
  predicate CutIn(p: Product, before: nat, r: Visibility.Rules) {
    && Considered(p, r)
    && (before >= r.cap || VariantCut(p, before + |VisibilityPart(p, r)|, |p.variants|, r))
  }

  predicate VariantCut(p: Product, before: nat, upTo: nat, r: Visibility.Rules)
    requires upTo <= |p.variants|
  {
    !BeingHidden(p, r) && exists j :: 0 <= j < upTo && FullBefore(p, before, j, r)
  }

  predicate FullBefore(p: Product, before: nat, j: nat, r: Visibility.Rules)
    requires j <= |p.variants|
  {
    before + |PriceActions(p.id, p.variants[..j], r.price)| >= r.cap
  }

  predicate CutAt(ps: seq<Product>, i: nat, r: Visibility.Rules)
    requires i < |ps|
  {
    CutIn(ps[i], |AllActions(ps[..i], r)|, r)
  }

  predicate Truncated(ps: seq<Product>, r: Visibility.Rules) {
    exists i :: 0 <= i < |ps| && CutAt(ps, i, r)
  }

  // ---- the loop --------------------------------------------------------------

  lemma FullPrefix(shown: seq<Action>, full: seq<Action>, cap: nat)
    requires shown <= full && |shown| == cap
    ensures FirstFew(full, cap) == shown
  {
  }

  lemma ShortEnough(full: seq<Action>, cap: nat)
    requires |full| <= cap
    ensures FirstFew(full, cap) == full
  {
  }

  lemma PriceActionsStep(product: string, vs: seq<Variant>, j: nat, r: Price.PriceRules)
    requires j < |vs|
    ensures PriceActions(product, vs[..j + 1], r) == PriceActions(product, vs[..j], r) + PricePart(product, vs[j], r)
  {
    assert vs[..j + 1][..j] == vs[..j];
  }

  lemma {:induction false} PriceActionsExtend(product: string, vs: seq<Variant>, j: nat, r: Price.PriceRules)
    requires j <= |vs|
    ensures PriceActions(product, vs[..j], r) <= PriceActions(product, vs, r)
  {
    if j == |vs| {
      assert vs[..j] == vs;
    } else {
      assert vs[..|vs| - 1][..j] == vs[..j];
      PriceActionsExtend(product, vs[..|vs| - 1], j, r);
    }
  }

  method PlanVariant(product: string, v: Variant, r: Price.PriceRules) returns (part: seq<Action>)
    ensures part == PricePart(product, v, r) && |part| <= 1
  {
    var d := Price.DecideVariantPrice(v, r);
    part := if d.Change? then [PriceAction(product, v.id, v.price.value, d.to, v.currency, d.clamped)] else [];
  }

  /** One product's variants, stopping when the plan is full. */
  method PlanVariants(p: Product, r: Visibility.Rules, start: seq<Action>) returns (actions: seq<Action>, truncated: bool)
    requires |start| <= r.cap
    ensures actions == FirstFew(start + PriceActions(p.id, p.variants, r.price), r.cap)
    ensures truncated <==> exists j :: 0 <= j < |p.variants| && FullBefore(p, |start|, j, r)
    ensures truncated ==> |actions| == r.cap
    ensures !truncated ==> actions == start + PriceActions(p.id, p.variants, r.price)
  {
    hide PricePart, FirstFew;
    actions, truncated := start, false;
    ghost var all := PriceActions(p.id, p.variants, r.price);
    var j := 0;
    while j < |p.variants|
      invariant 0 <= j <= |p.variants|
      invariant actions == start + PriceActions(p.id, p.variants[..j], r.price)
      invariant |actions| <= r.cap && !truncated
      invariant forall k :: 0 <= k < j ==> !FullBefore(p, |start|, k, r)
    {
      if |actions| >= r.cap {
        truncated := true;
        assert FullBefore(p, |start|, j, r);
        PriceActionsExtend(p.id, p.variants, j, r.price);
        FullPrefix(actions, start + all, r.cap);
        return;
      }
      assert !FullBefore(p, |start|, j, r);
      var part := PlanVariant(p.id, p.variants[j], r.price);
      PriceActionsStep(p.id, p.variants, j, r.price);
      actions := actions + part;
      j := j + 1;
    }
    assert p.variants[..|p.variants|] == p.variants;
    ShortEnough(start + all, r.cap);
  }

  method PlanVisibility(p: Product, r: Visibility.Rules) returns (part: seq<Action>, hiding: bool)
    ensures part == VisibilityPart(p, r) && hiding == BeingHidden(p, r)
  {
    var margin := Price.LowestCurrentMargin(p.variants, r.price);
    var d := Visibility.DecideVisibility(p, r, margin);
    part := if d.Change? then [VisibilityAction(p.id, p.status, d.to)] else [];
    hiding := d.Change? && d.to == Visibility.ToDraft;
  }

  lemma VisibilityPartIsShort(p: Product, r: Visibility.Rules)
    ensures |VisibilityPart(p, r)| <= 1
  {
  }

  /** The body of the product loop for a considered product met with room left. */
  method PlanProduct(p: Product, r: Visibility.Rules, before: seq<Action>) returns (actions: seq<Action>, truncated: bool)
    requires Considered(p, r) && |before| < r.cap
    ensures actions == FirstFew(before + ProductActions(p, r), r.cap)
    ensures truncated <==> CutIn(p, |before|, r)
    ensures truncated ==> |actions| == r.cap
    ensures !truncated ==> actions == before + ProductActions(p, r)
  {
    hide Price.Decide, Visibility.Decide, Visibility.IsSelected, Visibility.IsExempt;
    var part, hiding := PlanVisibility(p, r);
    VisibilityPartIsShort(p, r);
    actions, truncated := before + part, false;
    if hiding {
      ShortEnough(actions, r.cap);
      return;
    }
    assert before + ProductActions(p, r) == actions + PriceActions(p.id, p.variants, r.price);
    actions, truncated := PlanVariants(p, r, actions);
  }

  lemma {:induction false} AllActionsExtend(ps: seq<Product>, i: nat, r: Visibility.Rules)
    requires i <= |ps|
    ensures AllActions(ps[..i], r) <= AllActions(ps, r)
  {
    if i == |ps| {
      assert ps[..i] == ps;
    } else {
      assert ps[..|ps| - 1][..i] == ps[..i];
      AllActionsExtend(ps[..|ps| - 1], i, r);
    }
  }

  lemma ExtendByOne(ps: seq<Product>, i: nat, r: Visibility.Rules)
    requires i < |ps|
    ensures AllActions(ps[..i + 1], r) == AllActions(ps[..i], r) + ProductActions(ps[i], r)
  {
    assert ps[..i + 1][..i] == ps[..i];
  }

  lemma NothingAskedOutside(p: Product, before: nat, r: Visibility.Rules)
    requires !Considered(p, r)
    ensures ProductActions(p, r) == [] && !CutIn(p, before, r)
  {
  }

  lemma FullCuts(p: Product, before: nat, r: Visibility.Rules)
    requires Considered(p, r) && before >= r.cap
    ensures CutIn(p, before, r)
  {
  }

  /** Builds the capped plan: exactly the first actions of the uncapped one. */
  method BuildPlan(ps: seq<Product>, r: Visibility.Rules) returns (actions: seq<Action>, truncated: bool)
    ensures actions == FirstFew(AllActions(ps, r), r.cap)
    ensures truncated <==> Truncated(ps, r)
    ensures truncated ==> |actions| == r.cap
    ensures !truncated ==> actions == AllActions(ps, r)
  {
    hide Considered, ProductActions, CutIn;
    actions, truncated := [], false;
    ghost var all := AllActions(ps, r);
    var i := 0;
    while i < |ps|
      invariant 0 <= i <= |ps|
      invariant actions == FirstFew(AllActions(ps[..i], r), r.cap)
      invariant truncated <==> exists k :: 0 <= k < i && CutAt(ps, k, r)
      invariant truncated ==> |actions| == r.cap
      invariant !truncated ==> actions == AllActions(ps[..i], r)
    {
      ExtendByOne(ps, i, r);
      ghost var before := AllActions(ps[..i], r);
      AllActionsExtend(ps, i, r);
      if Considered(ps[i], r) {
        if |actions| >= r.cap {
          FullCuts(ps[i], |before|, r);
          assert CutAt(ps, i, r);
          truncated := true;
          FullPrefix(actions, all, r.cap);
          return;
        }
        assert !truncated;
        actions, truncated := PlanProduct(ps[i], r, actions);
        assert truncated <==> CutAt(ps, i, r);
      } else {
        NothingAskedOutside(ps[i], |before|, r);
        assert !CutAt(ps, i, r);
        assert before + ProductActions(ps[i], r) == before;
      }
      i := i + 1;
    }
    assert ps[..|ps|] == ps;
  }

  lemma NotCutMeansRoom(p: Product, before: nat, r: Visibility.Rules)
    requires before <= r.cap && !BeingHidden(p, r)
    requires !VariantCut(p, before, |p.variants|, r)
    ensures before + |PriceActions(p.id, p.variants, r.price)| <= r.cap
  {
    if p.variants != [] {
      var j := |p.variants| - 1;
      assert !FullBefore(p, before, j, r);
    }
  }

  // ---- what the plan contains --------------------------------------------------

  lemma {:induction false} PriceActionsAre(product: string, vs: seq<Variant>, r: Price.PriceRules, a: Action)
    ensures a in PriceActions(product, vs, r) <==> exists v :: v in vs && a in PricePart(product, v, r)
  {
    if vs != [] {
      var rest, last := vs[..|vs| - 1], vs[|vs| - 1];
      assert vs == rest + [last];
      PriceActionsAre(product, rest, r, a);
      assert last in vs && forall v :: v in rest ==> v in vs;
    }
  }

  lemma {:induction false} AllActionsAre(ps: seq<Product>, r: Visibility.Rules, a: Action)
    ensures a in AllActions(ps, r) <==> exists p :: p in ps && a in ProductActions(p, r)
  {
    if ps != [] {
      var rest, last := ps[..|ps| - 1], ps[|ps| - 1];
      assert ps == rest + [last];
      AllActionsAre(rest, r, a);
      assert last in ps && forall p :: p in rest ==> p in ps;
    }
  }

  /** Everything asked of one considered product is a visibility change, or a price change unless it is being hidden. */
  lemma ProductActionsAre(p: Product, r: Visibility.Rules, a: Action)
    ensures a in ProductActions(p, r) ==> Considered(p, r) && a.product == p.id
    ensures a in ProductActions(p, r) && a.VisibilityAction? ==> a in VisibilityPart(p, r)
    ensures a in ProductActions(p, r) && a.PriceAction? ==>
              !BeingHidden(p, r) && exists v :: v in p.variants && a in PricePart(p.id, v, r.price)
    ensures Considered(p, r) && a in VisibilityPart(p, r) ==> a in ProductActions(p, r)
  {
    PriceActionsAre(p.id, p.variants, r.price, a);
  }

  /** The rules ask for this very action on this product. */
  predicate Asks(p: Product, r: Visibility.Rules, a: Action) {
    && Visibility.IsSelected(p, r.selection) && !Visibility.IsExempt(p, r.exemptTags)
    && a.product == p.id
    && match a
       case VisibilityAction(_, before, status) =>
         before == p.status && Visibility.Decide(p, r).Change? && Visibility.Decide(p, r).to == status
       case PriceAction(_, variant, from, to, currency, clamped) =>
         && !(Visibility.Decide(p, r).Change? && Visibility.Decide(p, r).to == Visibility.ToDraft)
         && exists v :: v in p.variants && v.id == variant && v.price == Some(from) && v.currency == currency
                        && Price.Decide(v, r.price) == Price.Change(to, clamped)
  }

  /** The uncapped plan is made of exactly the actions some product's decisions ask for, old values and all. */
  lemma PlannedIff(ps: seq<Product>, r: Visibility.Rules, a: Action)
    ensures a in AllActions(ps, r) <==> exists p :: p in ps && Asks(p, r, a)
  {
    hide ProductActions, Asks, Visibility.Decide, Price.Decide;
    AllActionsAre(ps, r, a);
    forall p | p in ps ensures a in ProductActions(p, r) <==> Asks(p, r, a) {
      PlannedForOneIff(p, r, a);
    }
  }

  lemma PlannedForOneIff(p: Product, r: Visibility.Rules, a: Action)
    ensures a in ProductActions(p, r) <==> Asks(p, r, a)
  {
    hide Visibility.Decide, Price.Decide, Visibility.IsSelected, Visibility.IsExempt, PriceActions, PricePart;
    PriceActionsAre(p.id, p.variants, r.price, a);
    forall v | v in p.variants
      ensures a in PricePart(p.id, v, r.price) <==>
                && a.PriceAction? && a.product == p.id && a.variant == v.id && v.price == Some(a.from)
                && a.currency == v.currency && Price.Decide(v, r.price) == Price.Change(a.to, a.clamped)
    {
      PricePartIs(p.id, v, r.price, a);
    }
  }

  lemma PricePartIs(product: string, v: Variant, r: Price.PriceRules, a: Action)
    ensures a in PricePart(product, v, r) <==>
              && a.PriceAction? && a.product == product && a.variant == v.id && v.price == Some(a.from)
              && a.currency == v.currency && Price.Decide(v, r) == Price.Change(a.to, a.clamped)
  {
    hide Price.Goal, Price.ClearsFloors, Price.MaxUp, Price.MaxDown;
  }

  /** A product's visibility change comes before its prices. */
  lemma VisibilityComesFirst(p: Product, r: Visibility.Rules, i: nat)
    requires i < |ProductActions(p, r)| && ProductActions(p, r)[i].VisibilityAction?
    ensures i == 0
  {
    hide Visibility.Decide, Price.Decide, Visibility.IsSelected, Visibility.IsExempt, PriceActions, PricePart;
    if i > 0 {
      var a := ProductActions(p, r)[i];
      assert a in PriceActions(p.id, p.variants, r.price);
      PriceActionsAre(p.id, p.variants, r.price, a);
      var v :| v in p.variants && a in PricePart(p.id, v, r.price);
      PricePartIs(p.id, v, r.price, a);
    }
  }

  // ---- the truncated flag --------------------------------------------------------

  /** A clear flag means nothing was cut. */
  lemma NotTruncatedMeansAll(ps: seq<Product>, r: Visibility.Rules)
    requires !Truncated(ps, r)
    ensures |AllActions(ps, r)| <= r.cap
  {
    hide Price.Decide, Visibility.Decide, Visibility.IsSelected, Visibility.IsExempt;
    if ps != [] {
      var rest, last := ps[..|ps| - 1], ps[|ps| - 1];
      assert !CutAt(ps, |ps| - 1, r);
      forall i | 0 <= i < |rest| ensures !CutAt(rest, i, r) {
        assert rest[..i] == ps[..i];
        assert !CutAt(ps, i, r);
      }
      NotTruncatedMeansAll(rest, r);
      if Considered(last, r) && !BeingHidden(last, r) {
        NotCutMeansRoom(last, |AllActions(rest, r)| + |VisibilityPart(last, r)|, r);
      }
    }
  }

  lemma {:induction false} AllActionsAppend(a: seq<Product>, b: seq<Product>, r: Visibility.Rules)
    ensures AllActions(a + b, r) == AllActions(a, r) + AllActions(b, r)
  {
    hide ProductActions;
    if b == [] {
      assert a + b == a;
    } else {
      assert (a + b)[..|a + b| - 1] == a + b[..|b| - 1];
      AllActionsAppend(a, b[..|b| - 1], r);
    }
  }

  lemma AllActionsOfOne(p: Product, r: Visibility.Rules)
    ensures AllActions([p], r) == ProductActions(p, r)
  {
    hide ProductActions;
    assert [p][..0] == [];
    assert AllActions([p], r) == AllActions([], r) + ProductActions(p, r);
  }

  lemma {:induction false} PriceActionsAppend(product: string, a: seq<Variant>, b: seq<Variant>, r: Price.PriceRules)
    ensures PriceActions(product, a + b, r) == PriceActions(product, a, r) + PriceActions(product, b, r)
  {
    hide PricePart;
    if b == [] {
      assert a + b == a;
    } else {
      assert (a + b)[..|a + b| - 1] == a + b[..|b| - 1];
      PriceActionsAppend(product, a, b[..|b| - 1], r);
    }
  }

  /** From this considered product on, the rules ask for nothing. */
  predicate NothingFromProduct(ps: seq<Product>, i: nat, r: Visibility.Rules)
    requires i < |ps|
  {
    Considered(ps[i], r) && AllActions(ps[i..], r) == []
  }

  /** From this variant of a considered product on, the rules ask for nothing, and the product is not being hidden. */
  predicate NothingFromVariant(ps: seq<Product>, i: nat, j: nat, r: Visibility.Rules)
    requires i < |ps| && j < |ps[i].variants|
  {
    && Considered(ps[i], r) && !BeingHidden(ps[i], r)
    && PriceActions(ps[i].id, ps[i].variants[j..], r.price) == []
    && AllActions(ps[i + 1..], r) == []
  }

  /** Something is still looked at after the last action anybody asks for. */
  predicate IdleTail(ps: seq<Product>, r: Visibility.Rules) {
    exists i :: 0 <= i < |ps| && IdleAt(ps, i, r)
  }

  predicate IdleAt(ps: seq<Product>, i: nat, r: Visibility.Rules)
    requires i < |ps|
  {
    NothingFromProduct(ps, i, r) || exists j :: 0 <= j < |ps[i].variants| && NothingFromVariant(ps, i, j, r)
  }

  lemma CountAround(ps: seq<Product>, i: nat, r: Visibility.Rules)
    requires i < |ps|
    ensures |AllActions(ps, r)| == |AllActions(ps[..i], r)| + |AllActions(ps[i..], r)|
    ensures |AllActions(ps[i..], r)| == |ProductActions(ps[i], r)| + |AllActions(ps[i + 1..], r)|
  {
    hide ProductActions, AllActions;
    assert ps == ps[..i] + ps[i..];
    AllActionsAppend(ps[..i], ps[i..], r);
    assert ps[i..] == [ps[i]] + ps[i + 1..];
    AllActionsAppend([ps[i]], ps[i + 1..], r);
    AllActionsOfOne(ps[i], r);
  }

  lemma CountWithin(p: Product, j: nat, r: Visibility.Rules)
    requires Considered(p, r) && !BeingHidden(p, r) && j <= |p.variants|
    ensures |ProductActions(p, r)|
            == |VisibilityPart(p, r)| + |PriceActions(p.id, p.variants[..j], r.price)|
               + |PriceActions(p.id, p.variants[j..], r.price)|
  {
    hide Considered, PriceActions, VisibilityPart, BeingHidden;
    assert p.variants == p.variants[..j] + p.variants[j..];
    PriceActionsAppend(p.id, p.variants[..j], p.variants[j..], r.price);
  }

  /** How full the plan is when a product is met, against what is still asked for from there. */
  lemma CutAtMeans(ps: seq<Product>, i: nat, r: Visibility.Rules)
    requires i < |ps|
    ensures CutAt(ps, i, r) ==> |AllActions(ps, r)| >= r.cap
    ensures |AllActions(ps, r)| == r.cap ==> (CutAt(ps, i, r) <==> IdleAt(ps, i, r))
  {
    hide Considered, PriceActions, VisibilityPart, BeingHidden, ProductActions, AllActions;
    CountAround(ps, i, r);
    var p := ps[i];
    if Considered(p, r) && !BeingHidden(p, r) {
      forall j | 0 <= j < |p.variants|
        ensures |ProductActions(p, r)|
                == |VisibilityPart(p, r)| + |PriceActions(p.id, p.variants[..j], r.price)|
                   + |PriceActions(p.id, p.variants[j..], r.price)|
        ensures |AllActions(ps, r)| == r.cap ==>
                  (FullBefore(p, |AllActions(ps[..i], r)| + |VisibilityPart(p, r)|, j, r) <==> NothingFromVariant(ps, i, j, r))
      {
        CountWithin(p, j, r);
      }
    }
  }

  /**
   * The converse fails, in exactly these cases: the plan is full to the action, and a considered
   * product, or one more variant of a product not being hidden, is still met after the last one.
   */
  lemma FlaggedWithNothingCut(ps: seq<Product>, r: Visibility.Rules)
    ensures Truncated(ps, r) && |AllActions(ps, r)| <= r.cap <==> |AllActions(ps, r)| == r.cap && IdleTail(ps, r)
  {
    hide CutAt, IdleAt, AllActions;
    forall i | 0 <= i < |ps|
      ensures CutAt(ps, i, r) ==> |AllActions(ps, r)| >= r.cap
      ensures |AllActions(ps, r)| == r.cap ==> (CutAt(ps, i, r) <==> IdleAt(ps, i, r))
    {
      CutAtMeans(ps, i, r);
    }
  }

  const PRICES_ONLY: Visibility.Rules :=
    Visibility.Rules(Visibility.VisibilityRules(false, false, false, false, false), Price.CAUTIOUS, Visibility.All, [], 1)

  const ONE_TO_REPRICE: Product := Product("gid://shopify/Product/1", Active, [], "", None, [Price.UNDERPRICED])

  const EMPTY_LISTING: Product := Product("gid://shopify/Product/2", Active, [], "", None, [])

  /** One product to reprice and one with nothing to do, under a cap of one. */
  lemma FlagIsRaisedForNothing()
    ensures Visibility.ValidRules(PRICES_ONLY)
    ensures Truncated([ONE_TO_REPRICE, EMPTY_LISTING], PRICES_ONLY)
    ensures |AllActions([ONE_TO_REPRICE, EMPTY_LISTING], PRICES_ONLY)| == 1
  {
    hide Price.Decide;
    var ps, r := [ONE_TO_REPRICE, EMPTY_LISTING], PRICES_ONLY;
    Price.OneWriteIsNotEnough();
    OneVariant(ONE_TO_REPRICE.id, Price.UNDERPRICED, r.price);
    assert |ProductActions(ps[0], r)| == 1 && ProductActions(ps[1], r) == [];
    assert ps[1..] == [EMPTY_LISTING] && ps[2..] == [] && ps[..0] == [];
    AllActionsOfOne(EMPTY_LISTING, r);
    CountAround(ps, 0, r);
    CountAround(ps, 1, r);
    assert NothingFromProduct(ps, 1, r);
    assert IdleAt(ps, 1, r);
    FlaggedWithNothingCut(ps, r);
  }

  lemma OneVariant(product: string, v: Variant, r: Price.PriceRules)
    ensures PriceActions(product, [v], r) == PricePart(product, v, r)
  {
    hide PricePart;
    assert [v][..0] == [];
    assert PriceActions(product, [v], r) == PriceActions(product, [], r) + PricePart(product, v, r);
  }
}
