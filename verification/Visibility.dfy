/** Whether a product belongs on the storefront: hide, restore, or leave alone. */
module Visibility {
  import opened Prelude
  import opened Catalogue
  import opened Text
  import Price

  datatype VisibilityRules = VisibilityRules(
    enabled: bool, hideOutOfStock: bool, restoreWhenBackInStock: bool, hideBelowMinMargin: bool, hideUnknownCost: bool)

  datatype Selection = All | Tagged(includeTags: seq<string>) | FromVendors(includeVendors: seq<string>)

  datatype Rules = Rules(
    visibility: VisibilityRules, price: Price.PriceRules, selection: Selection, exemptTags: seq<string>, cap: nat)

  /** Rule sets that pass validation. */
  predicate ValidRules(r: Rules) {
    && Price.ValidPriceRules(r.price)
    && r.cap >= 1
    && (r.selection.Tagged? ==> r.selection.includeTags != [])
    && (r.selection.FromVendors? ==> r.selection.includeVendors != [])
  }

  const HIDDEN_TAG: string := "trademart:auto-hidden"
  const REVIEW_TAG: string := "trademart:needs-review"

  // ---- tags --------------------------------------------------------------------

  /** Merchant-entered tags compare trimmed and case-insensitively. */
  function Normal(tag: string): string {
    Lower(Trim(tag))
  }

  predicate HasTag(p: Product, tag: string) {
    exists entry :: entry in p.tags && Normal(entry) == Normal(tag)
  }

  predicate AnyShared(entries: seq<string>, wanted: seq<string>) {
    exists entry, tag :: entry in entries && tag in wanted && Normal(entry) != "" && Normal(entry) == Normal(tag)
  }

  predicate IsExempt(p: Product, exemptTags: seq<string>) {
    AnyShared(p.tags, exemptTags)
  }

  predicate IsSelected(p: Product, selection: Selection) {
    match selection
    case All => true
    case Tagged(wanted) => AnyShared(p.tags, wanted)
    case FromVendors(wanted) => AnyShared([p.vendor], wanted)
  }

  // ---- stock -------------------------------------------------------------------

  datatype Stock = Stock(quantity: Option<int>, hasUntracked: bool)

  predicate Counted(v: Variant) {
    v.tracked != Some(false) && v.quantity.Some?
  }

  function TrackedTotal(vs: seq<Variant>): int {
    if vs == [] then 0
    else TrackedTotal(vs[..|vs| - 1]) + if Counted(vs[|vs| - 1]) then vs[|vs| - 1].quantity.value else 0
  }

  function StockOf(p: Product): Stock {
    Stock(if exists v :: v in p.variants && Counted(v) then Some(TrackedTotal(p.variants)) else p.totalInventory,
          exists v :: v in p.variants && v.tracked == Some(false))
  }

  /** The stock level, or nothing when it genuinely cannot be determined. */
  method ResolveStock(p: Product) returns (s: Stock)
    ensures s == StockOf(p)
  {
    var total, sawTracked, hasUntracked := 0, false, false;
    for i := 0 to |p.variants|
      invariant total == TrackedTotal(p.variants[..i])
      invariant sawTracked <==> exists v :: v in p.variants[..i] && Counted(v)
      invariant hasUntracked <==> exists v :: v in p.variants[..i] && v.tracked == Some(false)
    {
      var v := p.variants[i];
      assert p.variants[..i + 1] == p.variants[..i] + [v] && p.variants[..i + 1][..i] == p.variants[..i];
      assert v in p.variants[..i + 1];
      if v.tracked == Some(false) {
        hasUntracked := true;
      } else if v.quantity.Some? {
        total := total + v.quantity.value;
        sawTracked := true;
      }
    }
    assert p.variants[..|p.variants|] == p.variants;
    if !sawTracked && p.totalInventory.Some? { return Stock(p.totalInventory, hasUntracked); }
    if !sawTracked { return Stock(None, hasUntracked); }
    s := Stock(Some(total), hasUntracked);
  }

  predicate HasKnownCost(p: Product) {
    exists v :: v in p.variants && v.unitCost.Some? && v.unitCost.value > 0
  }

  // ---- the decision --------------------------------------------------------------

  datatype HideReason = OutOfStock | CostMissing | BelowMargin

  datatype DesiredStatus = ToActive | ToDraft

  datatype VisibilityDecision = Change(to: DesiredStatus, reasons: seq<HideReason>) | Noop | Skip

  function HideReasons(p: Product, r: Rules, margin: Option<int>): seq<HideReason> {
    var stock := StockOf(p);
    (if r.visibility.hideOutOfStock && stock.quantity.Some? && stock.quantity.value <= 0 && !stock.hasUntracked
     then [OutOfStock] else [])
    + (if r.visibility.hideUnknownCost && !HasKnownCost(p) then [CostMissing] else [])
    + (if r.visibility.hideBelowMinMargin && margin.Some? && margin.value as real / 100.0 < r.price.minMargin
       then [BelowMargin] else [])
  }

  function DecideWith(p: Product, r: Rules, margin: Option<int>): VisibilityDecision {
    if !r.visibility.enabled || IsExempt(p, r.exemptTags) || p.status == Archived then Skip
    else if HasTag(p, REVIEW_TAG) && p.status == Draft then Skip
    else
      var reasons := HideReasons(p, r, margin);
      if reasons != [] then (if p.status == Draft then Noop else Change(ToDraft, reasons))
      else if p.status != Draft then Noop
      else if !r.visibility.restoreWhenBackInStock || !HasTag(p, HIDDEN_TAG) then Skip
      else Change(ToActive, [])
  }

  /** The decision at the product's current prices. */
  function Decide(p: Product, r: Rules): VisibilityDecision {
    DecideWith(p, r, Price.LowestMargin(p.variants, r.price))
  }

  method DecideVisibility(p: Product, r: Rules, margin: Option<int>) returns (d: VisibilityDecision)
    ensures d == DecideWith(p, r, margin)
  {
    if !r.visibility.enabled { return Skip; }
    if IsExempt(p, r.exemptTags) { return Skip; }
    if p.status == Archived { return Skip; }
    if HasTag(p, REVIEW_TAG) && p.status == Draft { return Skip; }
    var stock := ResolveStock(p);
    var hideReasons := [];
    if r.visibility.hideOutOfStock {
      if stock.quantity.Some? && stock.quantity.value <= 0 && !stock.hasUntracked {
        hideReasons := hideReasons + [OutOfStock];
      }
    }
    if r.visibility.hideUnknownCost && !HasKnownCost(p) {
      hideReasons := hideReasons + [CostMissing];
    }
    if r.visibility.hideBelowMinMargin && margin.Some? && margin.value as real / 100.0 < r.price.minMargin {
      hideReasons := hideReasons + [BelowMargin];
    }
    assert hideReasons == HideReasons(p, r, margin);
    if |hideReasons| > 0 {
      if p.status == Draft { return Noop; }
      return Change(ToDraft, hideReasons);
    }
    if p.status == Draft {
      if !r.visibility.restoreWhenBackInStock { return Skip; }
      if !HasTag(p, HIDDEN_TAG) { return Skip; }
      return Change(ToActive, []);
    }
    d := Noop;
  }

  // ---- what the decision means for a product -----------------------------------------

  /** Automation may decide about this product at all. */
  predicate Eligible(p: Product, r: Rules) {
    && r.visibility.enabled && !IsExempt(p, r.exemptTags)
    && p.status != Archived && !(HasTag(p, REVIEW_TAG) && p.status == Draft)
  }

  /** Decided to be off the storefront: it is a draft and stays one, or becomes one. */
  predicate KeptHidden(p: Product, d: VisibilityDecision) {
    if p.status == Draft then d == Noop else d.Change? && d.to == ToDraft
  }

  /** Each reported quantity is of a variant whose stock counts. */
  predicate Reports(v: Variant) {
    v.tracked != Some(false) && v.quantity.Some?
  }

  lemma {:induction false} TrackedTotalAppend(a: seq<Variant>, b: seq<Variant>)
    ensures TrackedTotal(a + b) == TrackedTotal(a) + TrackedTotal(b)
  {
    if b == [] {
      assert a + b == a;
    } else {
      assert (a + b)[..|a + b| - 1] == a + b[..|b| - 1];
      TrackedTotalAppend(a, b[..|b| - 1]);
    }
  }

  lemma TrackedTotalOfOne(v: Variant)
    ensures TrackedTotal([v]) == if v.tracked != Some(false) && v.quantity.Some? then v.quantity.value else 0
  {
    assert [v][..0] == [];
  }

  lemma {:induction false} TrackedTotalSign(vs: seq<Variant>)
    ensures (forall v :: v in vs && Reports(v) ==> v.quantity.value <= 0) ==> TrackedTotal(vs) <= 0
    ensures (forall v :: v in vs && Reports(v) ==> v.quantity.value >= 0) ==>
              TrackedTotal(vs) >= 0 && ((exists v :: v in vs && Reports(v) && v.quantity.value > 0) ==> TrackedTotal(vs) > 0)
  {
    if vs != [] {
      var rest, last := vs[..|vs| - 1], vs[|vs| - 1];
      assert vs == rest + [last];
      TrackedTotalSign(rest);
    }
  }

  /** Nothing left of any variant, and none sold without counting: off the storefront. */
  lemma SoldOutIsHidden(p: Product, r: Rules, margin: Option<int>)
    requires Eligible(p, r) && r.visibility.hideOutOfStock
    requires forall v :: v in p.variants ==> v.tracked != Some(false)
    requires || ((exists v :: v in p.variants && v.quantity.Some?)
                 && forall v :: v in p.variants && v.quantity.Some? ==> v.quantity.value <= 0)
             || ((forall v :: v in p.variants ==> v.quantity == None)
                 && p.totalInventory.Some? && p.totalInventory.value <= 0)
    ensures KeptHidden(p, DecideWith(p, r, margin))
  {
    hide IsExempt, HasTag;
    TrackedTotalSign(p.variants);
    assert OutOfStock in HideReasons(p, r, margin);
  }

  /** A cost is recorded for some variant. */
  predicate CostRecorded(p: Product) {
    exists v :: v in p.variants && v.unitCost.Some? && v.unitCost.value > 0
  }

  predicate MarginBelowFloor(margin: Option<int>, r: Rules) {
    margin.Some? && margin.value as real / 100.0 < r.price.minMargin
  }

  /** Something left, sold without counting, or not known to be gone. */
  predicate MayBeSold(p: Product) {
    || (exists v :: v in p.variants && v.tracked == Some(false))
    || (&& (exists v :: v in p.variants && Reports(v) && v.quantity.value > 0)
        && forall v :: v in p.variants && Reports(v) ==> v.quantity.value >= 0)
    || ((forall v :: v in p.variants ==> v.quantity == None)
        && (p.totalInventory.Some? ==> p.totalInventory.value > 0))
  }

  lemma MayBeSoldIsNoReason(p: Product, r: Rules, margin: Option<int>)
    requires MayBeSold(p)
    ensures HideReasons(p, r, margin)
            == (if r.visibility.hideUnknownCost && !CostRecorded(p) then [CostMissing] else [])
               + (if r.visibility.hideBelowMinMargin && MarginBelowFloor(margin, r) then [BelowMargin] else [])
  {
    TrackedTotalSign(p.variants);
    assert HasKnownCost(p) <==> CostRecorded(p);
  }

  /** With stock to sell, a product is hidden exactly for an unrecorded cost or a margin below the floor, where the rules ask for it. */
  lemma SellableIsHiddenIff(p: Product, r: Rules, margin: Option<int>)
    requires Eligible(p, r) && MayBeSold(p)
    ensures KeptHidden(p, DecideWith(p, r, margin))
            <==> || (r.visibility.hideUnknownCost && !CostRecorded(p))
                 || (r.visibility.hideBelowMinMargin && MarginBelowFloor(margin, r))
    ensures DecideWith(p, r, margin).Change? && DecideWith(p, r, margin).to == ToDraft
            ==> KeptHidden(p, DecideWith(p, r, margin))
  {
    hide IsExempt, HasTag, MayBeSold, CostRecorded, HideReasons, MarginBelowFloor;
    MayBeSoldIsNoReason(p, r, margin);
  }

  /** Which products are skipped: those automation may not decide about, and drafts it may not bring back. */
  lemma SkippedIff(p: Product, r: Rules, margin: Option<int>)
    ensures DecideWith(p, r, margin).Skip?
            <==> || !Eligible(p, r)
                 || (&& p.status == Draft && !KeptHidden(p, DecideWith(p, r, margin))
                     && (!r.visibility.restoreWhenBackInStock || !HasTag(p, HIDDEN_TAG)))
    ensures DecideWith(p, r, margin).Noop? ==> Eligible(p, r)
  {
    hide IsExempt, HasTag, HideReasons;
  }

  /** The reasons given are facts about the product, and the rules ask for each. */
  lemma ReasonsAreFacts(p: Product, r: Rules, margin: Option<int>)
    requires DecideWith(p, r, margin).Change?
    ensures var reasons := DecideWith(p, r, margin).reasons;
            && (OutOfStock in reasons ==> r.visibility.hideOutOfStock && !MayBeSold(p))
            && (CostMissing in reasons ==> r.visibility.hideUnknownCost && !CostRecorded(p))
            && (BelowMargin in reasons ==> r.visibility.hideBelowMinMargin && MarginBelowFloor(margin, r))
  {
    hide IsExempt, HasTag;
    TrackedTotalSign(p.variants);
    assert HasKnownCost(p) <==> CostRecorded(p);
  }

  /** Tags and vendors match when they agree without their case and their surrounding blanks, and are not empty. */
  predicate Matches(entry: string, wanted: string) {
    Lower(Trim(entry)) == Lower(Trim(wanted)) && Trim(entry) != ""
  }

  /** What each selection mode admits, and what exempts. */
  lemma SelectionIsExact(p: Product, wanted: seq<string>)
    ensures IsSelected(p, All)
    ensures IsSelected(p, Tagged(wanted)) <==> exists e, t :: e in p.tags && t in wanted && Matches(e, t)
    ensures IsSelected(p, FromVendors(wanted)) <==> exists t :: t in wanted && Matches(p.vendor, t)
    ensures IsExempt(p, wanted) <==> exists e, t :: e in p.tags && t in wanted && Matches(e, t)
  {
    assert forall e: string :: |Lower(Trim(e))| == |Trim(e)|;
    assert p.vendor in [p.vendor];
    forall e, t | e in p.tags && t in wanted
      ensures Matches(e, t) <==> Normal(e) != "" && Normal(e) == Normal(t)
    {
      SameNormal(e, t);
    }
    forall t | t in wanted ensures Matches(p.vendor, t) <==> Normal(p.vendor) != "" && Normal(p.vendor) == Normal(t) {
      SameNormal(p.vendor, t);
    }
  }

  lemma SameNormal(e: string, t: string)
    ensures Matches(e, t) <==> Normal(e) != "" && Normal(e) == Normal(t)
  {
    assert |Normal(e)| == |Trim(e)|;
  }

  /** The program's own two tags are recognised in any case and between blanks. */
  lemma OwnTagsAnyCase(p: Product)
    ensures HasTag(p, HIDDEN_TAG) <==> exists e :: e in p.tags && Lower(Trim(e)) == "trademart:auto-hidden"
    ensures HasTag(p, REVIEW_TAG) <==> exists e :: e in p.tags && Lower(Trim(e)) == "trademart:needs-review"
  {
    assert Trim(HIDDEN_TAG) == HIDDEN_TAG && Trim(REVIEW_TAG) == REVIEW_TAG;
    assert Lower(HIDDEN_TAG) == "trademart:auto-hidden" && Lower(REVIEW_TAG) == "trademart:needs-review";
  }

  // ---- applying a decision ---------------------------------------------------------

  function Without(tags: seq<string>, tag: string): seq<string> {
    if tags == [] then []
    else Without(tags[..|tags| - 1], tag) + if tags[|tags| - 1] == tag then [] else [tags[|tags| - 1]]
  }

  /** The status write, then the ownership tag; a failed tag write does not undo the status. */
  function Applied(p: Product, to: DesiredStatus, tagWritten: bool): Product {
    match to
    case ToDraft => p.(status := Draft,
                       tags := if tagWritten && HIDDEN_TAG !in p.tags then p.tags + [HIDDEN_TAG] else p.tags)
    case ToActive => p.(status := Active,
                        tags := if tagWritten then Without(p.tags, HIDDEN_TAG) else p.tags)
  }

  lemma {:induction false} WithoutAbsent(tags: seq<string>, tag: string)
    requires tag !in tags
    ensures Without(tags, tag) == tags
    ensures Without(tags + [tag], tag) == tags
  {
    if tags != [] {
      var rest, last := tags[..|tags| - 1], tags[|tags| - 1];
      assert tags == rest + [last];
      assert last in tags && forall t :: t in rest ==> t in tags;
      WithoutAbsent(rest, tag);
    }
    assert (tags + [tag])[..|tags|] == tags;
  }

  /**
   * A change is settled by making it: the next decision at the same prices asks for nothing,
   * whatever the tag lists in the rules say and even when the tag write failed.
   */
  lemma ChangeSettles(p: Product, r: Rules, margin: Option<int>, tagWritten: bool)
    requires DecideWith(p, r, margin).Change?
    ensures !DecideWith(Applied(p, DecideWith(p, r, margin).to, tagWritten), r, margin).Change?
  {
  }

  /** Automation undoes only what it did itself, and never wakes an archived product. */
  lemma OnlyOwnHidesAreUndone(p: Product, r: Rules, margin: Option<int>)
    requires DecideWith(p, r, margin).Change?
    ensures p.status != Archived
    ensures DecideWith(p, r, margin).to == ToActive ==>
              p.status == Draft && HasTag(p, HIDDEN_TAG) && !HasTag(p, REVIEW_TAG)
    ensures DecideWith(p, r, margin).to == ToDraft ==> p.status != Draft
  {
  }

  /** The same product with other stock and prices. */
  predicate SameListing(p: Product, q: Product) {
    p.id == q.id && p.status == q.status && p.tags == q.tags && p.vendor == q.vendor
  }

  /**
   * A product with a reason to be hidden is a draft, and a draft automation hid that has none is
   * waiting for a reviewer or for restoring to be switched on.
   */
  predicate AtRest(p: Product, r: Rules) {
    var reasons := HideReasons(p, r, Price.LowestMargin(p.variants, r.price));
    r.visibility.enabled && p.status != Archived ==>
      && (reasons != [] ==> p.status == Draft)
      && (reasons == [] && p.status == Draft && HasTag(p, HIDDEN_TAG) && r.visibility.restoreWhenBackInStock ==>
            HasTag(p, REVIEW_TAG))
  }

  lemma ChangedIffNotAtRest(p: Product, r: Rules)
    requires !IsExempt(p, r.exemptTags)
    ensures Decide(p, r).Change? <==> !AtRest(p, r)
  {
    hide HideReasons, HasTag, IsExempt, Price.LowestMargin;
  }

  /**
   * Hide, then the cause goes away, then restore. The restore happens exactly when the ownership
   * tag was written with the hide, does not itself exempt the product, restoring is enabled and no
   * review is pending. The listing is then as it was unless the tag was written and not removed.
   */
  lemma HideThenRestore(p: Product, r: Rules, margin: Option<int>, tagAdded: bool,
                        later: Product, laterMargin: Option<int>, tagRemoved: bool)
    requires DecideWith(p, r, margin).Change? && p.status == Active
    requires !HasTag(p, HIDDEN_TAG)
    requires SameListing(later, Applied(p, ToDraft, tagAdded))
    requires HideReasons(later, r, laterMargin) == []
    ensures DecideWith(later, r, laterMargin) == Change(ToActive, [])
            <==> && tagAdded && r.visibility.restoreWhenBackInStock
                 && !HasTag(p, REVIEW_TAG) && !AnyShared([HIDDEN_TAG], r.exemptTags)
    ensures SameListing(Applied(later, ToActive, tagRemoved), p) <==> tagRemoved || !tagAdded
  {
    hide HideReasons, HasTag, AnyShared, Without;
    assert !IsExempt(p, r.exemptTags);
    if tagAdded {
      TaggedOnce(p, later);
      ExemptByOwnTag(p, later, r.exemptTags);
      assert |later.tags| == |p.tags| + 1;
    } else {
      NeverTagged(p, later);
    }
  }

  /** Adding the ownership tag and taking it off again changes no other tag. */
  lemma TaggedOnce(p: Product, later: Product)
    requires !HasTag(p, HIDDEN_TAG) && later.tags == Applied(p, ToDraft, true).tags
    ensures later.tags == p.tags + [HIDDEN_TAG] && Without(later.tags, HIDDEN_TAG) == p.tags
    ensures HasTag(later, HIDDEN_TAG)
    ensures HasTag(later, REVIEW_TAG) <==> HasTag(p, REVIEW_TAG)
  {
    assert HIDDEN_TAG !in p.tags;
    assert later.tags[|p.tags|] == HIDDEN_TAG;
    WithoutAbsent(p.tags, HIDDEN_TAG);
    CarriesTag(later, HIDDEN_TAG);
    OwnTagIsNotReview();
  }

  lemma NeverTagged(p: Product, later: Product)
    requires !HasTag(p, HIDDEN_TAG) && later.tags == p.tags
    ensures Without(later.tags, HIDDEN_TAG) == p.tags && !HasTag(later, HIDDEN_TAG)
  {
    assert HIDDEN_TAG !in p.tags;
    WithoutAbsent(p.tags, HIDDEN_TAG);
  }

  lemma ExemptByOwnTag(p: Product, later: Product, exemptTags: seq<string>)
    requires later.tags == p.tags + [HIDDEN_TAG] && !IsExempt(p, exemptTags)
    ensures IsExempt(later, exemptTags) <==> AnyShared([HIDDEN_TAG], exemptTags)
  {
    if IsExempt(later, exemptTags) {
      var entry, tag :| entry in later.tags && tag in exemptTags && Normal(entry) != "" && Normal(entry) == Normal(tag);
      assert entry !in p.tags;
      assert entry in [HIDDEN_TAG];
    }
    if AnyShared([HIDDEN_TAG], exemptTags) {
      var entry, tag :| entry in [HIDDEN_TAG] && tag in exemptTags && Normal(entry) != "" && Normal(entry) == Normal(tag);
      assert entry in later.tags;
    }
  }

  lemma CarriesTag(p: Product, tag: string)
    requires tag in p.tags
    ensures HasTag(p, tag)
  {
  }

  lemma OwnTagIsNotReview()
    ensures Normal(HIDDEN_TAG) != Normal(REVIEW_TAG)
  {
    assert Trim(HIDDEN_TAG) == HIDDEN_TAG && Trim(REVIEW_TAG) == REVIEW_TAG;
    assert |Lower(HIDDEN_TAG)| != |Lower(REVIEW_TAG)|;
  }
}
