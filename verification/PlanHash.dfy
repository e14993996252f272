/**
 * The canonical form a plan's hash is taken of: the store writes alone, sorted by a key.
 *
 * The digest itself is taken to be injective, so two hashes are equal when two canonical forms
 * are. The key order is any total order on strings.
 */
module PlanHash {
  import opened Prelude
  import opened Catalogue
  import opened Plan
  import Convergence
  import Price
  import Sorting
  import Visibility

  /** The fields that decide what is written to Shopify. */
  datatype Write =
    | PriceWrite(product: string, variant: string, from: int, to: int, currency: string)
    | StatusWrite(product: string, before: ProductStatus, status: Visibility.DesiredStatus)

  function WriteOf(a: Action): Write {
    match a
    case PriceAction(product, variant, from, to, currency, _) => PriceWrite(product, variant, from, to, currency)
    case VisibilityAction(product, before, status) => StatusWrite(product, before, status)
  }

  function Writes(actions: seq<Action>): (ws: seq<Write>)
    ensures |ws| == |actions| && forall i :: 0 <= i < |ws| ==> ws[i] == WriteOf(actions[i])
  {
    seq(|actions|, i requires 0 <= i < |actions| => WriteOf(actions[i]))
  }

  function Key(w: Write): string {
    match w
    case PriceWrite(product, variant, _, _, _) => "price" + ":" + (product + ":" + variant)
    case StatusWrite(product, _, _) => "visibility" + ":" + (product + ":" + "")
  }

  function Canonical(actions: seq<Action>, le: (string, string) -> bool): seq<Write> {
    Sorting.Sort(Writes(actions), Key, le)
  }

  /** What the hash looks at: everything that decides the write, old value included, and not whether it was clamped. */
  lemma SameWriteIff(a: Action, b: Action)
    ensures WriteOf(a) == WriteOf(b) <==>
              && a.product == b.product
              && (a.PriceAction? <==> b.PriceAction?)
              && (a.PriceAction? && b.PriceAction? ==>
                    a.variant == b.variant && a.from == b.from && a.to == b.to && a.currency == b.currency)
              && (a.VisibilityAction? && b.VisibilityAction? ==> a.before == b.before && a.status == b.status)
  {
  }

  /** Two plans hash alike exactly when they make the same writes. */
  lemma CanonicalIffSameWrites(a: seq<Action>, b: seq<Action>, le: (string, string) -> bool)
    requires Sorting.TotalOrder(le)
    requires Sorting.DistinctKeys(Writes(a), Key)
    ensures Canonical(a, le) == Canonical(b, le) <==> multiset(Writes(a)) == multiset(Writes(b))
  {
    Sorting.DistinctKeysIdentify(Writes(a), Key);
    Sorting.SortCanonical(Writes(a), Writes(b), Key, le);
  }

  // ---- keys tell writes apart --------------------------------------------------------

  /** A Shopify identifier: one colon, after the scheme. */
  predicate IsGid(id: string) {
    |id| >= 4 && id[..4] == "gid:" && ':' !in id[4..]
  }

  lemma NoEarlierColon(b: string, y: string, k: nat)
    requires ':' !in b && k < |b + ":" + y| && (b + ":" + y)[k] == ':'
    ensures k >= |b|
  {
    assert forall i :: 0 <= i < |b| ==> (b + ":" + y)[i] == b[i] != ':';
  }

  lemma FirstColon(a: string, x: string, b: string, y: string)
    requires ':' !in a && ':' !in b
    requires a + ":" + x == b + ":" + y
    ensures a == b && x == y
  {
    var s, t := a + ":" + x, b + ":" + y;
    assert s[|a|] == ':' && t[|b|] == ':';
    NoEarlierColon(a, x, |b|);
    NoEarlierColon(b, y, |a|);
    assert s[..|a|] == a && t[..|b|] == b;
    assert s[|a| + 1..] == x && t[|b| + 1..] == y;
  }

  lemma GidThenRest(p: string, x: string, q: string, y: string)
    requires IsGid(p) && IsGid(q)
    requires p + ":" + x == q + ":" + y
    ensures p == q && x == y
  {
    assert p == "gid:" + p[4..] && q == "gid:" + q[4..];
    var s, t := p + ":" + x, q + ":" + y;
    assert s[4..] == p[4..] + ":" + x && t[4..] == q[4..] + ":" + y;
    FirstColon(p[4..], x, q[4..], y);
  }

  /** What a write is aimed at. */
  predicate SameTarget(a: Action, b: Action) {
    a.product == b.product && (a.PriceAction? <==> b.PriceAction?) && (a.PriceAction? && b.PriceAction? ==> a.variant == b.variant)
  }

  /** With Shopify identifiers the key is the target and nothing else. */
  lemma KeyIsTarget(a: Action, b: Action)
    requires IsGid(a.product) && IsGid(b.product)
    ensures Key(WriteOf(a)) == Key(WriteOf(b)) <==> SameTarget(a, b)
  {
    if Key(WriteOf(a)) == Key(WriteOf(b)) {
      var s, t := Key(WriteOf(a)), Key(WriteOf(b));
      assert a.PriceAction? ==> s[0] == 'p';
      assert b.PriceAction? ==> t[0] == 'p';
      assert a.VisibilityAction? ==> s[0] == 'v';
      assert b.VisibilityAction? ==> t[0] == 'v';
      var kind := if a.PriceAction? then "price" else "visibility";
      var x := a.product + ":" + (if a.PriceAction? then a.variant else "");
      var y := b.product + ":" + (if b.PriceAction? then b.variant else "");
      FirstColon(kind, x, kind, y);
      GidThenRest(a.product, if a.PriceAction? then a.variant else "", b.product, if b.PriceAction? then b.variant else "");
    }
  }

  /**
   * The shape is needed: two targets with identifiers of another shape, which Shopify never issues,
   * can share a key, and the canonical form then depends on the input order.
   */
  lemma CollidingKeys(le: (string, string) -> bool)
    requires Sorting.TotalOrder(le)
    ensures var a := PriceAction("a:b", "c", 100, 200, "GBP", false); var b := PriceAction("a", "b:c", 100, 300, "GBP", false);
            && !SameTarget(a, b) && multiset(Writes([a, b])) == multiset(Writes([b, a]))
            && Canonical([a, b], le) != Canonical([b, a], le)
  {
    hide Sorting.Sort, Sorting.Insert;
    var a, b := PriceAction("a:b", "c", 100, 200, "GBP", false), PriceAction("a", "b:c", 100, 300, "GBP", false);
    var x, y := WriteOf(a), WriteOf(b);
    assert Key(x) == "price:a:b:c" && Key(y) == "price:a:b:c";
    assert Writes([a, b]) == [x, y] && Writes([b, a]) == [y, x];
    TiesKeepOrder(x, y, le);
    TiesKeepOrder(y, x, le);
    assert a.to != b.to;
  }

  lemma TiesKeepOrder(x: Write, y: Write, le: (string, string) -> bool)
    requires Sorting.TotalOrder(le) && Key(x) == Key(y)
    ensures Sorting.Sort([x, y], Key, le) == [x, y]
  {
    assert [x, y][1..] == [y] && [y][1..] == [];
    assert Sorting.Sort([y], Key, le) == Sorting.Insert(y, Sorting.Sort([], Key, le), Key, le) == [y];
    assert le(Key(x), Key(y)) by { assert le(Key(x), Key(x)); }
    assert Sorting.Sort([x, y], Key, le) == Sorting.Insert(x, [y], Key, le);
  }

  // ---- the keys of one plan are distinct ------------------------------------------------

  predicate DistinctTargets(actions: seq<Action>) {
    forall i, j :: 0 <= i < j < |actions| ==> !SameTarget(actions[i], actions[j])
  }

  lemma TargetsAppend(a: seq<Action>, b: seq<Action>)
    requires DistinctTargets(a) && DistinctTargets(b)
    requires forall x, y :: x in a && y in b ==> !SameTarget(x, y)
    ensures DistinctTargets(a + b)
  {
  }

  lemma {:induction false} PriceTargets(product: string, vs: seq<Variant>, r: Price.PriceRules)
    requires forall i, j :: 0 <= i < j < |vs| ==> vs[i].id != vs[j].id
    ensures DistinctTargets(PriceActions(product, vs, r))
  {
    hide Price.Decide;
    if vs != [] {
      var rest, last := vs[..|vs| - 1], vs[|vs| - 1];
      PriceTargets(product, rest, r);
      forall a, b | a in PriceActions(product, rest, r) && b in PricePart(product, last, r) ensures !SameTarget(a, b) {
        PriceActionsAre(product, rest, r, a);
        var v :| v in rest && a in PricePart(product, v, r);
      }
      TargetsAppend(PriceActions(product, rest, r), PricePart(product, last, r));
    }
  }

  lemma ProductTargets(p: Product, r: Visibility.Rules)
    requires forall i, j :: 0 <= i < j < |p.variants| ==> p.variants[i].id != p.variants[j].id
    ensures DistinctTargets(ProductActions(p, r))
  {
    hide Price.Decide, Visibility.Decide, Visibility.IsSelected, Visibility.IsExempt;
    PriceTargets(p.id, p.variants, r.price);
    forall a, b | a in VisibilityPart(p, r) && b in PriceActions(p.id, p.variants, r.price) ensures !SameTarget(a, b) {
      PriceActionsAre(p.id, p.variants, r.price, b);
    }
    TargetsAppend(VisibilityPart(p, r), PriceActions(p.id, p.variants, r.price));
  }

  lemma {:induction false} PlanTargets(ps: seq<Product>, r: Visibility.Rules)
    requires Convergence.DistinctIds(ps)
    ensures DistinctTargets(AllActions(ps, r))
  {
    hide ProductActions;
    if ps != [] {
      var rest, last := ps[..|ps| - 1], ps[|ps| - 1];
      assert forall p :: p in rest ==> p in ps;
      PlanTargets(rest, r);
      ProductTargets(last, r);
      forall a, b | a in AllActions(rest, r) && b in ProductActions(last, r) ensures !SameTarget(a, b) {
        AllActionsAre(rest, r, a);
        var p :| p in rest && a in ProductActions(p, r);
        ProductActionsAre(p, r, a);
        ProductActionsAre(last, r, b);
      }
      TargetsAppend(AllActions(rest, r), ProductActions(last, r));
    }
  }

  /** Every plan over a store with Shopify identifiers meets the condition of `CanonicalIffSameWrites`. */
  lemma PlanKeysAreDistinct(ps: seq<Product>, r: Visibility.Rules)
    requires Convergence.DistinctIds(ps)
    requires forall p :: p in ps ==> IsGid(p.id)
    ensures Sorting.DistinctKeys(Writes(AllActions(ps, r)), Key)
  {
    hide AllActions;
    var actions := AllActions(ps, r);
    PlanTargets(ps, r);
    forall i, j | 0 <= i < j < |actions| ensures Key(WriteOf(actions[i])) != Key(WriteOf(actions[j])) {
      var k := Convergence.Planned(ps, r, actions[i]);
      var l := Convergence.Planned(ps, r, actions[j]);
      KeyIsTarget(actions[i], actions[j]);
    }
  }

  // ---- the order products arrive in ------------------------------------------------------

  /** Taking one product out takes exactly its actions out. */
  lemma WithoutProduct(qs: seq<Product>, k: nat, r: Visibility.Rules)
    requires k < |qs|
    ensures multiset(AllActions(qs, r))
            == multiset(AllActions(qs[..k] + qs[k + 1..], r)) + multiset(ProductActions(qs[k], r))
  {
    hide AllActions, ProductActions;
    var before, after := qs[..k], qs[k + 1..];
    assert qs == (before + [qs[k]]) + after;
    AllActionsAppend(before + [qs[k]], after, r);
    AllActionsAppend(before, [qs[k]], r);
    AllActionsAppend(before, after, r);
    AllActionsOfOne(qs[k], r);
  }

  /** Rearranging the products rearranges the actions. */
  lemma {:induction false} ActionsRearrange(ps: seq<Product>, qs: seq<Product>, r: Visibility.Rules)
    requires multiset(ps) == multiset(qs)
    ensures multiset(AllActions(ps, r)) == multiset(AllActions(qs, r))
    decreases |ps|
  {
    hide AllActions, ProductActions;
    if ps == [] {
      assert |multiset(qs)| == 0;
      assert qs == [];
    } else {
      var last := ps[|ps| - 1];
      assert last in multiset(qs) by { assert last in multiset(ps); }
      var k :| 0 <= k < |qs| && qs[k] == last;
      Sorting.RemoveBoth(ps, qs, k);
      ActionsRearrange(ps[..|ps| - 1], qs[..k] + qs[k + 1..], r);
      WithoutProduct(qs, k, r);
      WithoutProduct(ps, |ps| - 1, r);
      assert ps[..|ps| - 1] + ps[|ps|..] == ps[..|ps| - 1];
    }
  }

  lemma {:induction false} WritesRearrange(a: seq<Action>, b: seq<Action>)
    requires multiset(a) == multiset(b)
    ensures multiset(Writes(a)) == multiset(Writes(b))
    decreases |a|
  {
    if a == [] {
      assert |multiset(b)| == 0;
    } else {
      var rest, last := a[..|a| - 1], a[|a| - 1];
      assert last in multiset(b) by { assert last in multiset(a); }
      var k :| 0 <= k < |b| && b[k] == last;
      Sorting.RemoveBoth(a, b, k);
      WritesRearrange(rest, b[..k] + b[k + 1..]);
      assert Writes(a) == Writes(rest) + [WriteOf(last)];
      assert Writes(b[..k] + b[k + 1..]) == Writes(b[..k]) + Writes(b[k + 1..]);
      assert Writes(b) == Writes(b[..k]) + [WriteOf(last)] + Writes(b[k + 1..]);
    }
  }

  /** When the cap cuts nothing, the page order of the products never changes the hash. */
  lemma ProductOrderKeepsHash(ps: seq<Product>, qs: seq<Product>, r: Visibility.Rules, le: (string, string) -> bool)
    requires Sorting.TotalOrder(le)
    requires Convergence.DistinctIds(ps) && forall p :: p in ps ==> IsGid(p.id)
    requires multiset(ps) == multiset(qs)
    requires |AllActions(ps, r)| <= r.cap
    ensures Canonical(FirstFew(AllActions(ps, r), r.cap), le) == Canonical(FirstFew(AllActions(qs, r), r.cap), le)
  {
    hide AllActions, Convergence.DistinctIds;
    var a, b := AllActions(ps, r), AllActions(qs, r);
    ActionsRearrange(ps, qs, r);
    assert |multiset(a)| == |multiset(b)|;
    assert |a| == |b|;
    ShortEnough(a, r.cap);
    ShortEnough(b, r.cap);
    PlanKeysAreDistinct(ps, r);
    WritesRearrange(a, b);
    CanonicalIffSameWrites(a, b, le);
  }

  // ---- when it does cut ------------------------------------------------------------------

  predicate HasActions(p: Product, r: Visibility.Rules) {
    ProductActions(p, r) != []
  }

  predicate AtMostOneHasActions(ps: seq<Product>, r: Visibility.Rules) {
    forall i, j :: 0 <= i < j < |ps| && HasActions(ps[i], r) ==> !HasActions(ps[j], r)
  }

  /** Whatever order the products arrive in, the hash is the same. */
  ghost predicate OrderKeepsHash(ps: seq<Product>, r: Visibility.Rules, le: (string, string) -> bool) {
    forall qs :: multiset(qs) == multiset(ps) ==>
      Canonical(FirstFew(AllActions(qs, r), r.cap), le) == Canonical(FirstFew(AllActions(ps, r), r.cap), le)
  }

  function CountFor(ws: seq<Write>, product: string): nat {
    if ws == [] then 0
    else CountFor(ws[..|ws| - 1], product) + if ws[|ws| - 1].product == product then 1 else 0
  }

  lemma {:induction false} CountForAppend(a: seq<Write>, b: seq<Write>, product: string)
    ensures CountFor(a + b, product) == CountFor(a, product) + CountFor(b, product)
  {
    if b == [] {
      assert a + b == a;
    } else {
      assert (a + b)[..|a + b| - 1] == a + b[..|b| - 1];
      CountForAppend(a, b[..|b| - 1], product);
    }
  }

  lemma CountForWithout(ws: seq<Write>, k: nat, product: string)
    requires k < |ws|
    ensures CountFor(ws, product) == CountFor(ws[..k] + ws[k + 1..], product) + CountFor([ws[k]], product)
  {
    hide CountFor;
    assert ws == (ws[..k] + [ws[k]]) + ws[k + 1..];
    CountForAppend(ws[..k] + [ws[k]], ws[k + 1..], product);
    CountForAppend(ws[..k], [ws[k]], product);
    CountForAppend(ws[..k], ws[k + 1..], product);
  }

  lemma {:induction false} CountForRearranges(a: seq<Write>, b: seq<Write>, product: string)
    requires multiset(a) == multiset(b)
    ensures CountFor(a, product) == CountFor(b, product)
    decreases |a|
  {
    hide CountFor;
    if a == [] {
      assert |multiset(b)| == 0;
      assert b == [];
    } else {
      var last := a[|a| - 1];
      assert last in multiset(b) by { assert last in multiset(a); }
      var k :| 0 <= k < |b| && b[k] == last;
      Sorting.RemoveBoth(a, b, k);
      CountForRearranges(a[..|a| - 1], b[..k] + b[k + 1..], product);
      CountForWithout(b, k, product);
      CountForWithout(a, |a| - 1, product);
      assert a[..|a| - 1] + a[|a|..] == a[..|a| - 1];
    }
  }

  lemma {:induction false} CountForAll(actions: seq<Action>, product: string)
    ensures (forall a :: a in actions ==> a.product == product) ==> CountFor(Writes(actions), product) == |actions|
    ensures (forall a :: a in actions ==> a.product != product) ==> CountFor(Writes(actions), product) == 0
  {
    if actions != [] {
      var rest, last := actions[..|actions| - 1], actions[|actions| - 1];
      CountForAll(rest, product);
      assert Writes(actions)[..|actions| - 1] == Writes(rest);
      assert last in actions && forall a :: a in rest ==> a in actions;
    }
  }

  /** Equal canonical forms write equally often to each product. */
  lemma SameCanonicalSameCounts(a: seq<Action>, b: seq<Action>, product: string, le: (string, string) -> bool)
    requires Canonical(a, le) == Canonical(b, le)
    ensures CountFor(Writes(a), product) == CountFor(Writes(b), product)
  {
    Sorting.SortPermutes(Writes(a), Key, le);
    Sorting.SortPermutes(Writes(b), Key, le);
    CountForRearranges(Writes(a), Writes(b), product);
  }

  /** How much of `mine` survives the cap, before everything else and after it. */
  lemma SurvivingCount(mine: seq<Action>, others: seq<Action>, product: string, cap: nat)
    requires forall a :: a in mine ==> a.product == product
    requires forall a :: a in others ==> a.product != product
    ensures CountFor(Writes(FirstFew(mine + others, cap)), product) == Min(cap, |mine|)
    ensures CountFor(Writes(FirstFew(others + mine, cap)), product) == Min(Max(0, cap - |others|), |mine|)
  {
    hide CountFor;
    CountSplit(mine, others, product, cap);
    CountSplit(others, mine, product, cap);
    var m, n := Min(cap, |mine|), Min(cap, |others|);
    var m', n' := Min(Max(0, cap - |others|), |mine|), Min(Max(0, cap - |mine|), |others|);
    CountForAll(mine[..m], product);
    CountForAll(mine[..m'], product);
    CountForAll(others[..n], product);
    CountForAll(others[..n'], product);
  }

  lemma CountSplit(a: seq<Action>, b: seq<Action>, product: string, cap: nat)
    ensures CountFor(Writes(FirstFew(a + b, cap)), product)
            == CountFor(Writes(a[..Min(cap, |a|)]), product)
               + CountFor(Writes(b[..Min(Max(0, cap - |a|), |b|)]), product)
  {
    hide CountFor;
    var x, y := a[..Min(cap, |a|)], b[..Min(Max(0, cap - |a|), |b|)];
    assert FirstFew(a + b, cap) == x + y;
    assert Writes(x + y) == Writes(x) + Writes(y);
    CountForAppend(Writes(x), Writes(y), product);
  }

  /** Moving a product to the other end of a list that is cut changes how often it is written to. */
  lemma CutOrderChangesHash(p: Product, rest: seq<Product>, r: Visibility.Rules, le: (string, string) -> bool)
    requires forall q :: q in rest ==> q.id != p.id
    requires r.cap >= 1 && HasActions(p, r) && AllActions(rest, r) != []
    requires |AllActions([p] + rest, r)| > r.cap
    ensures Canonical(FirstFew(AllActions([p] + rest, r), r.cap), le)
            != Canonical(FirstFew(AllActions(rest + [p], r), r.cap), le)
  {
    hide AllActions, ProductActions, CountFor, Canonical;
    AllActionsAppend([p], rest, r);
    AllActionsAppend(rest, [p], r);
    AllActionsOfOne(p, r);
    var mine, others := ProductActions(p, r), AllActions(rest, r);
    forall a | a in mine ensures a.product == p.id {
      ProductActionsAre(p, r, a);
    }
    forall a | a in others ensures a.product != p.id {
      AllActionsAre(rest, r, a);
      var q :| q in rest && a in ProductActions(q, r);
      ProductActionsAre(q, r, a);
    }
    SurvivingCount(mine, others, p.id, r.cap);
    if Canonical(FirstFew(mine + others, r.cap), le) == Canonical(FirstFew(others + mine, r.cap), le) {
      SameCanonicalSameCounts(FirstFew(mine + others, r.cap), FirstFew(others + mine, r.cap), p.id, le);
    }
  }

  lemma {:induction false} IdleProducts(ps: seq<Product>, r: Visibility.Rules)
    requires forall p :: p in ps ==> !HasActions(p, r)
    ensures AllActions(ps, r) == []
  {
    hide ProductActions;
    if ps != [] {
      assert forall p :: p in ps[..|ps| - 1] ==> p in ps;
      IdleProducts(ps[..|ps| - 1], r);
      assert ps[|ps| - 1] in ps;
    }
  }

  /** With everybody else idle, the plan is the actions of the one product, wherever it stands. */
  lemma SoleProduct(ps: seq<Product>, k: nat, r: Visibility.Rules)
    requires k < |ps| && forall p :: p in ps[..k] + ps[k + 1..] ==> !HasActions(p, r)
    ensures AllActions(ps, r) == ProductActions(ps[k], r)
  {
    hide AllActions, ProductActions;
    var before, after := ps[..k], ps[k + 1..];
    assert forall p :: p in before ==> p in before + after;
    assert forall p :: p in after ==> p in before + after;
    IdleProducts(before, r);
    IdleProducts(after, r);
    assert ps == (before + [ps[k]]) + after;
    AllActionsAppend(before + [ps[k]], after, r);
    AllActionsAppend(before, [ps[k]], r);
    AllActionsOfOne(ps[k], r);
    assert [] + ProductActions(ps[k], r) + [] == ProductActions(ps[k], r);
  }

  lemma OneActiveKeepsPlan(ps: seq<Product>, qs: seq<Product>, r: Visibility.Rules)
    requires AtMostOneHasActions(ps, r) && multiset(ps) == multiset(qs)
    ensures AllActions(ps, r) == AllActions(qs, r)
  {
    hide AllActions, HasActions;
    if i :| 0 <= i < |ps| && HasActions(ps[i], r) {
      var others := ps[..i] + ps[i + 1..];
      forall p | p in others ensures !HasActions(p, r) {
        var m :| 0 <= m < |others| && others[m] == p;
        assert p == if m < i then ps[m] else ps[m + 1];
      }
      assert ps[i] in multiset(qs) by { assert ps[i] in multiset(ps); }
      var k :| 0 <= k < |qs| && qs[k] == ps[i];
      Sorting.WithoutAt(ps, i);
      Sorting.WithoutAt(qs, k);
      forall p | p in qs[..k] + qs[k + 1..] ensures !HasActions(p, r) {
        assert p in multiset(others);
      }
      SoleProduct(ps, i, r);
      SoleProduct(qs, k, r);
    } else {
      forall p | p in qs ensures !HasActions(p, r) {
        assert p in multiset(ps);
      }
      IdleProducts(ps, r);
      IdleProducts(qs, r);
    }
  }

  lemma OthersDiffer(ps: seq<Product>, i: nat)
    requires Convergence.DistinctIds(ps) && i < |ps|
    ensures forall q :: q in ps[..i] + ps[i + 1..] ==> q.id != ps[i].id
    ensures forall j :: 0 <= j < |ps| && j != i ==> ps[j] in ps[..i] + ps[i + 1..]
  {
    var rest := ps[..i] + ps[i + 1..];
    forall q | q in rest ensures q.id != ps[i].id {
      var m :| 0 <= m < |rest| && rest[m] == q;
      assert q == if m < i then ps[m] else ps[m + 1];
    }
    forall j | 0 <= j < |ps| && j != i ensures ps[j] in rest {
      assert ps[j] == rest[if j < i then j else j - 1];
    }
  }

  lemma MovedToEnds(ps: seq<Product>, i: nat)
    requires i < |ps|
    ensures var rest := ps[..i] + ps[i + 1..];
            multiset([ps[i]] + rest) == multiset(ps) && multiset(rest + [ps[i]]) == multiset(ps)
  {
    Sorting.WithoutAt(ps, i);
    assert ps[i] in multiset(ps);
  }

  lemma ActionsOfMember(ps: seq<Product>, p: Product, r: Visibility.Rules)
    requires p in ps && HasActions(p, r)
    ensures AllActions(ps, r) != []
  {
    hide ProductActions;
    AllActionsAre(ps, r, ProductActions(p, r)[0]);
  }

  lemma TwoActiveBreakIt(ps: seq<Product>, i: nat, j: nat, r: Visibility.Rules, le: (string, string) -> bool)
    requires Convergence.DistinctIds(ps) && r.cap >= 1 && |AllActions(ps, r)| > r.cap
    requires i < |ps| && j < |ps| && i != j && HasActions(ps[i], r) && HasActions(ps[j], r)
    ensures !OrderKeepsHash(ps, r, le)
  {
    hide AllActions, HasActions, Canonical, Convergence.DistinctIds;
    var p, rest := ps[i], ps[..i] + ps[i + 1..];
    OthersDiffer(ps, i);
    MovedToEnds(ps, i);
    ActionsOfMember(rest, ps[j], r);
    ActionsRearrange([p] + rest, ps, r);
    assert |multiset(AllActions([p] + rest, r))| == |multiset(AllActions(ps, r))|;
    CutOrderChangesHash(p, rest, r, le);
  }

  /** The order of the products never changes the hash exactly when nothing is cut or there is at most one product to act on. */
  lemma OrderKeepsHashIff(ps: seq<Product>, r: Visibility.Rules, le: (string, string) -> bool)
    requires Sorting.TotalOrder(le) && r.cap >= 1
    requires Convergence.DistinctIds(ps) && forall p :: p in ps ==> IsGid(p.id)
    ensures OrderKeepsHash(ps, r, le) <==> |AllActions(ps, r)| <= r.cap || AtMostOneHasActions(ps, r)
  {
    hide AllActions, HasActions, Canonical, Convergence.DistinctIds, IsGid;
    if |AllActions(ps, r)| <= r.cap {
      forall qs | multiset(qs) == multiset(ps)
        ensures Canonical(FirstFew(AllActions(qs, r), r.cap), le) == Canonical(FirstFew(AllActions(ps, r), r.cap), le)
      {
        ProductOrderKeepsHash(ps, qs, r, le);
      }
    } else if AtMostOneHasActions(ps, r) {
      forall qs | multiset(qs) == multiset(ps) ensures AllActions(ps, r) == AllActions(qs, r) {
        OneActiveKeepsPlan(ps, qs, r);
      }
    } else {
      var i, j :| 0 <= i < j < |ps| && HasActions(ps[i], r) && HasActions(ps[j], r);
      TwoActiveBreakIt(ps, i, j, r, le);
    }
  }
}
