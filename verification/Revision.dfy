/**
 * Is the stored score still the score of these inputs?
 *
 * A revision counter moves when a normalised input moves, and a score remembers the revision
 * it was computed from. Edits read, compare and write in separate steps; so do analyses.
 */
module Revision {
  import opened Prelude
  import opened Sorting
  import opened StableJsonProofs
  import opened Text
  import StableJson

  datatype Market = Market(countryCode: string, region: Option<string>, horizonDays: int)

  datatype Commercials = Commercials(
    supplierCost: Option<real>, supplierCurrency: Option<string>,
    shippingCost: Option<real>, shippingCurrency: Option<string>, shippingDays: Option<real>,
    expectedPrice: Option<real>, expectedCurrency: Option<string>, costObservedAt: Option<string>)

  datatype Geography = Geography(countryCode: Option<string>, region: Option<string>)

  datatype Research = Research(
    searches: Option<real>, momentum: Option<real>, competition: Option<real>, competitors: Option<real>,
    season: string, peakMonths: Option<seq<int>>, geography: Geography,
    observedAt: Option<string>, sourceNote: Option<string>)

  /** What a score is computed from. */
  datatype Inputs = Inputs(
    title: string, category: Option<string>, keywords: seq<string>,
    market: Market, commercials: Commercials, research: Research)

  // ---- the normal form -----------------------------------------------------------

  function NormaliseText(value: Option<string>): Option<string> {
    match value
    case None => None
    case Some(v) => if Trim(v) == "" then None else Some(Trim(v))
  }

  function NormaliseCode(value: Option<string>): Option<string> {
    match NormaliseText(value)
    case None => None
    case Some(v) => Some(Upper(v))
  }

  function Keyword(k: string): string {
    Lower(Trim(k))
  }

  /** The distinct non-empty keywords, in order of first appearance. */
  function Distinct(keywords: seq<string>): seq<string> {
    if keywords == [] then []
    else
      var before, last := Distinct(keywords[..|keywords| - 1]), Keyword(keywords[|keywords| - 1]);
      if last == "" || last in before then before else before + [last]
  }

  function Itself<T>(x: T): T {
    x
  }

  predicate AtMost(a: int, b: int) {
    a <= b
  }

  function NormaliseKeywords(keywords: seq<string>): seq<string> {
    Sort(Distinct(keywords), Itself<string>, StableJson.Leq)
  }

  function NormaliseMonths(months: Option<seq<int>>): Option<seq<int>> {
    match months
    case None => None
    case Some(ms) => Some(Sort(ms, Itself<int>, AtMost))
  }

  function NormaliseMarket(m: Market): Market {
    Market(Upper(Trim(m.countryCode)), NormaliseText(m.region), m.horizonDays)
  }

  function NormaliseCommercials(c: Commercials): Commercials {
    c.(supplierCurrency := NormaliseCode(c.supplierCurrency),
       shippingCurrency := NormaliseCode(c.shippingCurrency),
       expectedCurrency := NormaliseCode(c.expectedCurrency))
  }

  function NormaliseResearch(r: Research): Research {
    r.(geography := Geography(NormaliseCode(r.geography.countryCode), NormaliseText(r.geography.region)),
       peakMonths := NormaliseMonths(r.peakMonths))
  }

  function ScoreInputsOf(i: Inputs): Inputs {
    Inputs(Trim(i.title), NormaliseText(i.category), NormaliseKeywords(i.keywords),
           NormaliseMarket(i.market), NormaliseCommercials(i.commercials), NormaliseResearch(i.research))
  }

  predicate ScoreInputsChanged(before: Inputs, after: Inputs) {
    ScoreInputsOf(before) != ScoreInputsOf(after)
  }

  datatype Field = Title | Category | Keywords | MarketField | CommercialsField | ResearchField

  predicate Differs(f: Field, from: Inputs, to: Inputs) {
    match f
    case Title => from.title != to.title
    case Category => from.category != to.category
    case Keywords => from.keywords != to.keywords
    case MarketField => from.market != to.market
    case CommercialsField => from.commercials != to.commercials
    case ResearchField => from.research != to.research
  }

  function Keep(fields: seq<Field>, from: Inputs, to: Inputs): seq<Field> {
    if fields == [] then []
    else (if Differs(fields[0], from, to) then [fields[0]] else []) + Keep(fields[1..], from, to)
  }

  const SCORE_AFFECTING: seq<Field> := [Title, Category, Keywords, MarketField, CommercialsField, ResearchField]

  function ChangedScoreInputs(before: Inputs, after: Inputs): seq<Field> {
    Keep(SCORE_AFFECTING, ScoreInputsOf(before), ScoreInputsOf(after))
  }

  lemma {:induction false} KeptFields(fields: seq<Field>, from: Inputs, to: Inputs)
    ensures forall f :: f in Keep(fields, from, to) <==> f in fields && Differs(f, from, to)
  {
    if fields != [] {
      KeptFields(fields[1..], from, to);
      assert fields == [fields[0]] + fields[1..];
    }
  }

  /** The field list used for the audit trail names every difference: it is empty exactly when nothing moved. */
  lemma ChangedFieldsAreComplete(before: Inputs, after: Inputs)
    ensures ChangedScoreInputs(before, after) == [] <==> !ScoreInputsChanged(before, after)
  {
    var from, to := ScoreInputsOf(before), ScoreInputsOf(after);
    var changed := ChangedScoreInputs(before, after);
    KeptFields(SCORE_AFFECTING, from, to);
    if changed == [] {
      assert Title !in changed && Category !in changed && Keywords !in changed;
      assert MarketField !in changed && CommercialsField !in changed && ResearchField !in changed;
      assert from == to;
    } else {
      assert changed[0] in changed;
    }
  }

  // ---- keywords are a set, months a bag --------------------------------------------

  function KeywordSet(keywords: seq<string>): set<string> {
    set k | k in keywords && Keyword(k) != "" :: Keyword(k)
  }

  lemma {:induction false} DistinctIsTheSet(keywords: seq<string>)
    ensures forall k :: k in Distinct(keywords) <==> k in KeywordSet(keywords)
    ensures DistinctKeys(Distinct(keywords), Itself<string>)
  {
    if keywords != [] {
      var rest, last := keywords[..|keywords| - 1], keywords[|keywords| - 1];
      DistinctIsTheSet(rest);
      assert keywords == rest + [last];
      assert KeywordSet(keywords) == KeywordSet(rest) + if Keyword(last) == "" then {} else {Keyword(last)};
    }
  }

  /** Two keyword lists have one normal form exactly when they name the same set. */
  lemma KeywordsAreASet(a: seq<string>, b: seq<string>)
    ensures NormaliseKeywords(a) == NormaliseKeywords(b) <==> KeywordSet(a) == KeywordSet(b)
  {
    hide Sort, KeywordSet, Distinct;
    var xs, ys := Distinct(a), Distinct(b);
    DistinctIsTheSet(a);
    DistinctIsTheSet(b);
    LeqIsTotalOrder();
    DistinctKeysIdentify(xs, Itself<string>);
    SortCanonical(xs, ys, Itself<string>, StableJson.Leq);
    SameElements(xs, ys, Itself<string>);
    if SameSet(xs, ys) {
      assert KeywordSet(a) == KeywordSet(b);
    }
  }

  /** Peak months compare without their order, but with their multiplicity. */
  lemma MonthsAreABag(a: seq<int>, b: seq<int>)
    ensures NormaliseMonths(Some(a)) == NormaliseMonths(Some(b)) <==> multiset(a) == multiset(b)
  {
    hide Sort;
    SortCanonical(a, b, Itself<int>, AtMost);
  }

  // ---- what the normal form forgets ----------------------------------------------------

  /** Absent, or nothing but blanks. */
  predicate Missing(value: Option<string>) {
    value == None || Trim(value.value) == ""
  }

  predicate SameText(a: Option<string>, b: Option<string>) {
    (Missing(a) && Missing(b)) || (!Missing(a) && !Missing(b) && Trim(a.value) == Trim(b.value))
  }

  predicate SameCode(a: Option<string>, b: Option<string>) {
    (Missing(a) && Missing(b)) || (!Missing(a) && !Missing(b) && Upper(Trim(a.value)) == Upper(Trim(b.value)))
  }

  predicate SameKeywords(a: seq<string>, b: seq<string>) {
    (set k | k in a && Trim(k) != "" :: Lower(Trim(k))) == (set k | k in b && Trim(k) != "" :: Lower(Trim(k)))
  }

  predicate SameMonths(a: Option<seq<int>>, b: Option<seq<int>>) {
    (a == None && b == None) || (a.Some? && b.Some? && multiset(a.value) == multiset(b.value))
  }

  predicate SameCommercials(a: Commercials, b: Commercials) {
    && a.supplierCost == b.supplierCost && a.shippingCost == b.shippingCost && a.shippingDays == b.shippingDays
    && a.expectedPrice == b.expectedPrice && a.costObservedAt == b.costObservedAt
    && SameCode(a.supplierCurrency, b.supplierCurrency) && SameCode(a.shippingCurrency, b.shippingCurrency)
    && SameCode(a.expectedCurrency, b.expectedCurrency)
  }

  predicate SameResearch(a: Research, b: Research) {
    && a.searches == b.searches && a.momentum == b.momentum && a.competition == b.competition
    && a.competitors == b.competitors && a.season == b.season
    && a.observedAt == b.observedAt && a.sourceNote == b.sourceNote
    && SameMonths(a.peakMonths, b.peakMonths)
    && SameCode(a.geography.countryCode, b.geography.countryCode) && SameText(a.geography.region, b.geography.region)
  }

  lemma SameNormalText(a: Option<string>, b: Option<string>)
    ensures NormaliseText(a) == NormaliseText(b) <==> SameText(a, b)
    ensures NormaliseCode(a) == NormaliseCode(b) <==> SameCode(a, b)
  {
    hide Trim, Upper;
  }

  lemma SameNormalKeywords(a: seq<string>, b: seq<string>)
    ensures NormaliseKeywords(a) == NormaliseKeywords(b) <==> SameKeywords(a, b)
  {
    hide Trim, NormaliseKeywords;
    KeywordsAreASet(a, b);
    forall k: string ensures Keyword(k) != "" <==> Trim(k) != "" {
      FoldingsAgree(Trim(k), "");
    }
    assert KeywordSet(a) == set k | k in a && Trim(k) != "" :: Lower(Trim(k));
    assert KeywordSet(b) == set k | k in b && Trim(k) != "" :: Lower(Trim(k));
  }

  lemma SameNormalResearch(a: Research, b: Research)
    ensures NormaliseResearch(a) == NormaliseResearch(b) <==> SameResearch(a, b)
  {
    hide NormaliseText, NormaliseCode, SameText, SameCode, NormaliseMonths;
    SameNormalText(a.geography.countryCode, b.geography.countryCode);
    SameNormalText(a.geography.region, b.geography.region);
    if a.peakMonths.Some? && b.peakMonths.Some? {
      MonthsAreABag(a.peakMonths.value, b.peakMonths.value);
    }
    assert NormaliseMonths(a.peakMonths) == NormaliseMonths(b.peakMonths) <==> SameMonths(a.peakMonths, b.peakMonths) by {
      MonthsMayBeAbsent(a.peakMonths, b.peakMonths);
    }
  }

  lemma MonthsMayBeAbsent(a: Option<seq<int>>, b: Option<seq<int>>)
    ensures NormaliseMonths(a) == NormaliseMonths(b) <==> SameMonths(a, b)
  {
    hide Sort;
    if a.Some? && b.Some? {
      MonthsAreABag(a.value, b.value);
    }
  }

  lemma SameNormalCommercials(a: Commercials, b: Commercials)
    ensures NormaliseCommercials(a) == NormaliseCommercials(b) <==> SameCommercials(a, b)
  {
    hide NormaliseText, NormaliseCode, SameText, SameCode;
    SameNormalText(a.supplierCurrency, b.supplierCurrency);
    SameNormalText(a.shippingCurrency, b.shippingCurrency);
    SameNormalText(a.expectedCurrency, b.expectedCurrency);
  }

  /**
   * Exactly what two inputs may differ in and still count as unchanged: blanks around texts, blank
   * against absent, case of codes and keywords, order and repetition of keywords, order of months.
   */
  lemma UnchangedIff(a: Inputs, b: Inputs)
    ensures !ScoreInputsChanged(a, b) <==>
              && Trim(a.title) == Trim(b.title) && SameText(a.category, b.category) && SameKeywords(a.keywords, b.keywords)
              && Upper(Trim(a.market.countryCode)) == Upper(Trim(b.market.countryCode))
              && SameText(a.market.region, b.market.region) && a.market.horizonDays == b.market.horizonDays
              && SameCommercials(a.commercials, b.commercials) && SameResearch(a.research, b.research)
  {
    hide Trim, Upper, NormaliseText, SameText, SameKeywords, SameCommercials, SameResearch, NormaliseKeywords,
      NormaliseCommercials, NormaliseResearch;
    SameNormalText(a.category, b.category);
    SameNormalText(a.market.region, b.market.region);
    SameNormalKeywords(a.keywords, b.keywords);
    SameNormalCommercials(a.commercials, b.commercials);
    SameNormalResearch(a.research, b.research);
  }

  // ---- an edit ---------------------------------------------------------------------

  datatype CommercialsPatch = CommercialsPatch(
    supplierCost: Option<Option<real>>, supplierCurrency: Option<Option<string>>,
    shippingCost: Option<Option<real>>, shippingCurrency: Option<Option<string>>, shippingDays: Option<Option<real>>,
    expectedPrice: Option<Option<real>>, expectedCurrency: Option<Option<string>>, costObservedAt: Option<Option<string>>)

  datatype ResearchPatch = ResearchPatch(
    searches: Option<Option<real>>, momentum: Option<Option<real>>, competition: Option<Option<real>>,
    competitors: Option<Option<real>>, season: Option<string>, peakMonths: Option<Option<seq<int>>>,
    geography: Option<Geography>, observedAt: Option<Option<string>>, sourceNote: Option<Option<string>>)

  /** The fields the operator's request mentions. */
  datatype Patch = Patch(
    title: Option<string>, category: Option<Option<string>>, keywords: Option<seq<string>>,
    countryCode: Option<string>, region: Option<Option<string>>, horizonDays: Option<int>,
    commercials: CommercialsPatch, research: ResearchPatch)

  function Or<T>(patch: Option<T>, existing: T): T {
    match patch
    case Some(v) => v
    case None => existing
  }

  function MergedCommercials(c: Commercials, p: CommercialsPatch): Commercials {
    Commercials(
      Or(p.supplierCost, c.supplierCost), Or(p.supplierCurrency, c.supplierCurrency),
      Or(p.shippingCost, c.shippingCost), Or(p.shippingCurrency, c.shippingCurrency),
      Or(p.shippingDays, c.shippingDays), Or(p.expectedPrice, c.expectedPrice),
      Or(p.expectedCurrency, c.expectedCurrency), Or(p.costObservedAt, c.costObservedAt))
  }

  function MergedResearch(r: Research, p: ResearchPatch): Research {
    Research(
      Or(p.searches, r.searches), Or(p.momentum, r.momentum), Or(p.competition, r.competition),
      Or(p.competitors, r.competitors), Or(p.season, r.season), Or(p.peakMonths, r.peakMonths),
      Or(p.geography, r.geography), Or(p.observedAt, r.observedAt), Or(p.sourceNote, r.sourceNote))
  }

  /** The projection the comparison runs against. */
  function After(existing: Inputs, p: Patch): Inputs {
    Inputs(
      if p.title.Some? then Trim(p.title.value) else existing.title,
      Or(p.category, existing.category),
      Or(p.keywords, existing.keywords),
      Market(Or(p.countryCode, existing.market.countryCode), Or(p.region, existing.market.region),
             Or(p.horizonDays, existing.market.horizonDays)),
      MergedCommercials(existing.commercials, p.commercials),
      MergedResearch(existing.research, p.research))
  }

  /**
   * The `$set` applied to the row as it is now. Commercials and research are written whole, as
   * merged from what the edit READ; the other fields only where the patch mentions them.
   */
  function Written(stored: Inputs, read: Inputs, p: Patch): Inputs {
    Inputs(
      if p.title.Some? then Trim(p.title.value) else stored.title,
      Or(p.category, stored.category),
      Or(p.keywords, stored.keywords),
      Market(if p.countryCode.Some? then Upper(Trim(p.countryCode.value)) else stored.market.countryCode,
             Or(p.region, stored.market.region), Or(p.horizonDays, stored.market.horizonDays)),
      MergedCommercials(read.commercials, p.commercials),
      MergedResearch(read.research, p.research))
  }

  /** The value a request gives to a field, or the one the field had where the request does not mention it. */
  predicate Takes<T(==)>(field: T, requested: Option<T>, before: T) {
    (requested.Some? ==> field == requested.value) && (requested == None ==> field == before)
  }

  predicate TakesCommercials(c: Commercials, p: CommercialsPatch, before: Commercials) {
    && Takes(c.supplierCost, p.supplierCost, before.supplierCost)
    && Takes(c.supplierCurrency, p.supplierCurrency, before.supplierCurrency)
    && Takes(c.shippingCost, p.shippingCost, before.shippingCost)
    && Takes(c.shippingCurrency, p.shippingCurrency, before.shippingCurrency)
    && Takes(c.shippingDays, p.shippingDays, before.shippingDays)
    && Takes(c.expectedPrice, p.expectedPrice, before.expectedPrice)
    && Takes(c.expectedCurrency, p.expectedCurrency, before.expectedCurrency)
    && Takes(c.costObservedAt, p.costObservedAt, before.costObservedAt)
  }

  predicate TakesResearch(r: Research, p: ResearchPatch, before: Research) {
    && Takes(r.searches, p.searches, before.searches) && Takes(r.momentum, p.momentum, before.momentum)
    && Takes(r.competition, p.competition, before.competition) && Takes(r.competitors, p.competitors, before.competitors)
    && Takes(r.season, p.season, before.season) && Takes(r.peakMonths, p.peakMonths, before.peakMonths)
    && Takes(r.geography, p.geography, before.geography)
    && Takes(r.observedAt, p.observedAt, before.observedAt) && Takes(r.sourceNote, p.sourceNote, before.sourceNote)
  }

  /**
   * Field by field: a mentioned field is written as requested. An unmentioned one keeps what the row
   * holds now, except that commercials and research go back to what the edit read.
   */
  lemma EditWritesWhatItMentions(stored: Inputs, read: Inputs, p: Patch)
    ensures var w := Written(stored, read, p);
            && (w.title == if p.title.Some? then Trim(p.title.value) else stored.title)
            && Takes(w.category, p.category, stored.category) && Takes(w.keywords, p.keywords, stored.keywords)
            && (w.market.countryCode == if p.countryCode.Some? then Upper(Trim(p.countryCode.value)) else stored.market.countryCode)
            && Takes(w.market.region, p.region, stored.market.region)
            && Takes(w.market.horizonDays, p.horizonDays, stored.market.horizonDays)
            && TakesCommercials(w.commercials, p.commercials, read.commercials)
            && TakesResearch(w.research, p.research, read.research)
  {
    hide Trim, Upper;
  }

  /** With nothing in between, what is written is what was compared, up to normalisation. */
  lemma WrittenIsWhatWasCompared(existing: Inputs, p: Patch)
    ensures ScoreInputsOf(Written(existing, existing, p)) == ScoreInputsOf(After(existing, p))
  {
    hide MergedCommercials, MergedResearch, NormaliseKeywords, Trim, Upper;
    if p.countryCode.Some? {
      CodeIsStable(p.countryCode.value);
    }
  }

  // ---- the protocol -------------------------------------------------------------------

  /** A stored score: the revision recorded with it, and the inputs it was really computed from. */
  datatype Score = Score(revision: Option<nat>, computedFrom: Inputs)

  datatype Row = Row(inputs: Inputs, revision: nat, score: Option<Score>)

  datatype Draft = Draft(read: Inputs, patch: Patch)

  /** Analyses prepared and edits begun, not yet written; `normal` remembers the inputs of each past revision. */
  datatype State = State(row: Row, prepared: seq<(Inputs, nat)>, drafts: seq<Draft>, normal: seq<Inputs>)

  datatype Action = Prepare | Persist(k: nat) | BeginEdit(patch: Patch) | FinishEdit(k: nat)

  predicate ScoreIsStale(row: Row) {
    match row.score
    case None => false
    case Some(score) => score.revision != Some(row.revision)
  }

  function Finished(row: Row, d: Draft): Row {
    row.(inputs := Written(row.inputs, d.read, d.patch),
         revision := if ChangedScoreInputs(d.read, After(d.read, d.patch)) != [] then row.revision + 1 else row.revision)
  }

  function Step(s: State, a: Action): Option<State> {
    match a
    case Prepare => Some(s.(prepared := s.prepared + [(s.row.inputs, s.row.revision)]))
    case Persist(k) =>
      if k >= |s.prepared| then None
      else Some(s.(row := s.row.(score := Some(Score(Some(s.prepared[k].1), s.prepared[k].0)))))
    case BeginEdit(patch) => Some(s.(drafts := s.drafts + [Draft(s.row.inputs, patch)]))
    case FinishEdit(k) =>
      if k >= |s.drafts| then None
      else
        var row := Finished(s.row, s.drafts[k]);
        Some(s.(row := row,
                normal := if row.revision > s.row.revision then s.normal + [ScoreInputsOf(row.inputs)] else s.normal))
  }

  /** The request changes an input, as the edit read them. */
  predicate MovesInput(d: Draft) {
    ScoreInputsChanged(d.read, After(d.read, d.patch))
  }

  /** This input has not moved between the edit's read and the row as it is now. */
  predicate SameNow(read: Inputs, row: Inputs, f: Field) {
    !Differs(f, ScoreInputsOf(read), ScoreInputsOf(row))
  }

  predicate SameMarketNow(read: Market, row: Market, p: Patch) {
    var r, s := NormaliseMarket(read), NormaliseMarket(row);
    && (p.countryCode.Some? ==> r.countryCode == s.countryCode)
    && (p.region.Some? ==> r.region == s.region)
    && (p.horizonDays.Some? ==> r.horizonDays == s.horizonDays)
  }

  /**
   * Nothing this edit is about to overwrite has moved since it read it. Commercials and research
   * are always overwritten; the other inputs only where the request mentions them.
   */
  predicate OvertakesNothing(row: Inputs, d: Draft) {
    && SameNow(d.read, row, CommercialsField) && SameNow(d.read, row, ResearchField)
    && (d.patch.title.Some? ==> SameNow(d.read, row, Title))
    && (d.patch.category.Some? ==> SameNow(d.read, row, Category))
    && (d.patch.keywords.Some? ==> SameNow(d.read, row, Keywords))
    && SameMarketNow(d.read.market, row.market, d.patch)
  }

  /** What can be checked before the write: from the request, from what was read and from the row now. */
  predicate Honest(row: Row, d: Draft) {
    MovesInput(d) || OvertakesNothing(row.inputs, d)
  }

  /** The write moved the counter, or left the normalised inputs as they were. */
  predicate Accounted(row: Row, d: Draft) {
    Finished(row, d).revision == row.revision ==> !ScoreInputsChanged(row.inputs, Finished(row, d).inputs)
  }

  /** With a request that moves nothing, what is written is what was read, field by field. */
  lemma IdleRequestRestores(row: Inputs, d: Draft)
    requires !MovesInput(d)
    ensures var now, end, read := ScoreInputsOf(row), ScoreInputsOf(Written(row, d.read, d.patch)), ScoreInputsOf(d.read);
            && end.commercials == read.commercials && end.research == read.research
            && end.title == (if d.patch.title.Some? then read.title else now.title)
            && end.category == (if d.patch.category.Some? then read.category else now.category)
            && end.keywords == (if d.patch.keywords.Some? then read.keywords else now.keywords)
            && end.market.countryCode == (if d.patch.countryCode.Some? then read.market.countryCode else now.market.countryCode)
            && end.market.region == (if d.patch.region.Some? then read.market.region else now.market.region)
            && end.market.horizonDays == (if d.patch.horizonDays.Some? then read.market.horizonDays else now.market.horizonDays)
  {
    hide MergedCommercials, MergedResearch, NormaliseCommercials, NormaliseResearch, NormaliseKeywords, NormaliseText,
      Trim, Upper;
    if d.patch.countryCode.Some? {
      CodeIsStable(d.patch.countryCode.value);
    }
  }

  lemma HonestIffAccounted(row: Row, d: Draft)
    ensures Honest(row, d) <==> Accounted(row, d)
  {
    hide After, Written, ChangedScoreInputs, NormaliseCommercials, NormaliseResearch, NormaliseKeywords, NormaliseText,
      Trim, Upper;
    ChangedFieldsAreComplete(d.read, After(d.read, d.patch));
    if !MovesInput(d) {
      IdleRequestRestores(row.inputs, d);
    }
  }

  /** Nothing changed the inputs between this edit's read and its write. */
  predicate Undisturbed(row: Row, d: Draft) {
    d.read == row.inputs
  }

  lemma UndisturbedIsHonest(row: Row, d: Draft)
    requires Undisturbed(row, d)
    ensures Honest(row, d)
  {
  }

  predicate Init(s: State) {
    s.row.score == None && s.row.revision == 1 && s.prepared == [] && s.drafts == []
    && s.normal == [ScoreInputsOf(s.row.inputs)]
  }

  predicate Consistent(s: State, inputs: Inputs, revision: nat) {
    1 <= revision <= |s.normal| && ScoreInputsOf(inputs) == s.normal[revision - 1]
  }

  predicate Inv(s: State) {
    && |s.normal| == s.row.revision
    && Consistent(s, s.row.inputs, s.row.revision)
    && (forall k :: 0 <= k < |s.prepared| ==> Consistent(s, s.prepared[k].0, s.prepared[k].1))
    && (s.row.score.Some? && s.row.score.value.revision.Some? ==>
          Consistent(s, s.row.score.value.computedFrom, s.row.score.value.revision.value))
  }

  function Run(s: State, actions: seq<Action>): Option<State>
    decreases |actions|
  {
    if actions == [] then Some(s)
    else
      match Run(s, actions[..|actions| - 1])
      case None => None
      case Some(mid) => Step(mid, actions[|actions| - 1])
  }

  /** Every edit written in this run was honest at the moment it was written. */
  predicate HonestRun(s: State, actions: seq<Action>) {
    forall k :: 0 <= k < |actions| && actions[k].FinishEdit? ==>
      Run(s, actions[..k]).Some? &&
      var mid := Run(s, actions[..k]).value;
      actions[k].k < |mid.drafts| && Honest(mid.row, mid.drafts[actions[k].k])
  }

  lemma StepKeepsInv(s: State, a: Action)
    requires Inv(s) && Step(s, a).Some?
    requires a.FinishEdit? ==> Honest(s.row, s.drafts[a.k])
    ensures Inv(Step(s, a).value)
  {
    hide ScoreInputsOf, After, Written, ChangedScoreInputs, Honest;
    if a.FinishEdit? {
      HonestIffAccounted(s.row, s.drafts[a.k]);
    }
  }

  lemma {:induction false} RunKeepsInv(s: State, actions: seq<Action>)
    requires Init(s) && Run(s, actions).Some? && HonestRun(s, actions)
    ensures Inv(Run(s, actions).value)
    decreases |actions|
  {
    hide ScoreInputsOf, After, Written, ChangedScoreInputs, Honest, Step, Inv;
    if actions == [] {
      StartsConsistent(s);
    } else {
      var shorter := actions[..|actions| - 1];
      forall k | 0 <= k < |shorter| && shorter[k].FinishEdit?
        ensures Run(s, shorter[..k]).Some? &&
                var mid := Run(s, shorter[..k]).value;
                shorter[k].k < |mid.drafts| && Honest(mid.row, mid.drafts[shorter[k].k])
      {
        assert shorter[..k] == actions[..k] && shorter[k] == actions[k];
      }
      RunKeepsInv(s, shorter);
      StepKeepsInv(Run(s, shorter).value, actions[|actions| - 1]);
    }
  }

  lemma StartsConsistent(s: State)
    requires Init(s)
    ensures Inv(s)
  {
  }

  /** A score reported current was computed from the current inputs, provided every edit was honest. */
  lemma CurrentMeansCurrent(s: State, actions: seq<Action>)
    requires Init(s) && Run(s, actions).Some? && HonestRun(s, actions)
    ensures var row := Run(s, actions).value.row;
            row.score.Some? && !ScoreIsStale(row) ==> !ScoreInputsChanged(row.score.value.computedFrom, row.inputs)
  {
    hide ScoreInputsOf, Step, HonestRun;
    RunKeepsInv(s, actions);
  }

  /** A score computed and persisted with no edit in between reads as current, and was computed from the row as it is. */
  lemma FreshAnalysisIsCurrent(s: State, actions: seq<Action>)
    requires Run(s, actions).Some?
    ensures var mid := Run(s, actions).value;
            var end := Run(s, actions + [Prepare] + [Persist(|mid.prepared|)]);
            && end.Some?
            && end.value.row.score.Some? && !ScoreIsStale(end.value.row)
            && end.value.row.score.value.computedFrom == mid.row.inputs == end.value.row.inputs
            && end.value.row.revision == mid.row.revision
  {
    var mid := Run(s, actions).value;
    RunOneMore(s, actions, Prepare);
    RunOneMore(s, actions + [Prepare], Persist(|mid.prepared|));
  }

  /**
   * What one edit does to a current score: it reads as stale afterwards exactly when the request moves
   * an input as the edit read them. Without a recorded revision a score always reads as stale.
   */
  lemma EditMakesStaleIff(s: State, k: nat)
    requires k < |s.drafts| && s.row.score.Some?
    ensures var row := Step(s, FinishEdit(k)).value.row;
            && row.score == s.row.score && row.revision >= s.row.revision
            && (!ScoreIsStale(s.row) ==> (ScoreIsStale(row) <==> MovesInput(s.drafts[k])))
            && (s.row.score.value.revision == None ==> ScoreIsStale(row))
  {
    hide ScoreInputsOf, Written, After, ChangedScoreInputs;
    ChangedFieldsAreComplete(s.drafts[k].read, After(s.drafts[k].read, s.drafts[k].patch));
  }

  /** Every edit was written to the very inputs it had read. */
  predicate AtomicRun(s: State, actions: seq<Action>) {
    forall k :: 0 <= k < |actions| && actions[k].FinishEdit? ==>
      Run(s, actions[..k]).Some? &&
      var mid := Run(s, actions[..k]).value;
      actions[k].k < |mid.drafts| && Undisturbed(mid.row, mid.drafts[actions[k].k])
  }

  /** In particular when each edit's read, comparison and write were one step; analyses may interleave as they like. */
  lemma AtomicEditsStayFresh(s: State, actions: seq<Action>)
    requires Init(s) && Run(s, actions).Some? && AtomicRun(s, actions)
    ensures var row := Run(s, actions).value.row;
            row.score.Some? && !ScoreIsStale(row) ==> !ScoreInputsChanged(row.score.value.computedFrom, row.inputs)
  {
    hide ScoreInputsOf, Step, Honest;
    forall k | 0 <= k < |actions| && actions[k].FinishEdit?
      ensures Run(s, actions[..k]).Some? &&
              var mid := Run(s, actions[..k]).value;
              actions[k].k < |mid.drafts| && Honest(mid.row, mid.drafts[actions[k].k])
    {
      var mid := Run(s, actions[..k]).value;
      UndisturbedIsHonest(mid.row, mid.drafts[actions[k].k]);
    }
    CurrentMeansCurrent(s, actions);
  }

  /**
   * For the write of any edit, however long ago it read: a current score stays a true one exactly
   * when the request moves an input or nothing it overwrites has moved since.
   */
  lemma HonestyIsExact(s: State, k: nat)
    requires Inv(s) && k < |s.drafts|
    requires s.row.score.Some? && !ScoreIsStale(s.row)
    ensures var row := Step(s, FinishEdit(k)).value.row;
            (!ScoreIsStale(row) ==> !ScoreInputsChanged(row.score.value.computedFrom, row.inputs))
            <==> MovesInput(s.drafts[k]) || OvertakesNothing(s.row.inputs, s.drafts[k])
  {
    hide ScoreInputsOf, After, Written, ChangedScoreInputs, MovesInput, OvertakesNothing;
    HonestIffAccounted(s.row, s.drafts[k]);
  }

  // ---- the code's own edits are not atomic ----------------------------------------------

  const NO_COMMERCIALS: CommercialsPatch := CommercialsPatch(None, None, None, None, None, None, None, None)
  const NO_RESEARCH: ResearchPatch := ResearchPatch(None, None, None, None, None, None, None, None, None)
  const NO_PATCH: Patch := Patch(None, None, None, None, None, None, NO_COMMERCIALS, NO_RESEARCH)

  /**
   * An edit that changes nothing it read still writes the whole commercials back. Begun before
   * another edit's cost change and finished after the candidate was scored on that change, it
   * restores the old cost without moving the counter: the score then reads as current and is not.
   */
  lemma StaleWriteHidesAChange(s: State, cost: real)
    requires Init(s) && s.row.inputs.commercials.supplierCost != Some(cost)
    ensures var raise := NO_PATCH.(commercials := NO_COMMERCIALS.(supplierCost := Some(Some(cost))));
            var end := Run(s, [BeginEdit(NO_PATCH), BeginEdit(raise), FinishEdit(1), Prepare, Persist(0), FinishEdit(0)]);
            && end.Some? && end.value.row.score.Some?
            && !ScoreIsStale(end.value.row)
            && ScoreInputsChanged(end.value.row.score.value.computedFrom, end.value.row.inputs)
  {
    var i := s.row.inputs;
    var raise := NO_PATCH.(commercials := NO_COMMERCIALS.(supplierCost := Some(Some(cost))));
    var s5 := ScoredOnAChange(s, cost);
    assert !MovesInput(s5.drafts[0]) by { assert After(i, NO_PATCH) == i; }
    assert !SameNow(i, s5.row.inputs, CommercialsField);
    assert !OvertakesNothing(s5.row.inputs, s5.drafts[0]);
    HonestyIsExact(s5, 0);
    RunOneMore(s, [BeginEdit(NO_PATCH), BeginEdit(raise), FinishEdit(1), Prepare, Persist(0)], FinishEdit(0));
    assert [BeginEdit(NO_PATCH), BeginEdit(raise), FinishEdit(1), Prepare, Persist(0)] + [FinishEdit(0)]
           == [BeginEdit(NO_PATCH), BeginEdit(raise), FinishEdit(1), Prepare, Persist(0), FinishEdit(0)];
  }

  /** The five steps before the stale write: two edits begun, the second finished, its result scored. */
  lemma ScoredOnAChange(s: State, cost: real) returns (s5: State)
    requires Init(s) && s.row.inputs.commercials.supplierCost != Some(cost)
    ensures var raise := NO_PATCH.(commercials := NO_COMMERCIALS.(supplierCost := Some(Some(cost))));
            Run(s, [BeginEdit(NO_PATCH), BeginEdit(raise), FinishEdit(1), Prepare, Persist(0)]) == Some(s5)
    ensures Inv(s5) && s5.row.score.Some? && !ScoreIsStale(s5.row)
    ensures |s5.drafts| == 2 && s5.drafts[0] == Draft(s.row.inputs, NO_PATCH)
    ensures s5.row.inputs == s.row.inputs.(commercials := s.row.inputs.commercials.(supplierCost := Some(cost)))
  {
    hide ScoreInputsOf, Run, Inv, Honest, ChangedScoreInputs;
    var i := s.row.inputs;
    var raise := NO_PATCH.(commercials := NO_COMMERCIALS.(supplierCost := Some(Some(cost))));
    assert Written(i, i, raise) == i.(commercials := i.commercials.(supplierCost := Some(cost)));
    StartsConsistent(s);
    var s1 := Step(s, BeginEdit(NO_PATCH)).value;
    StepKeepsInv(s, BeginEdit(NO_PATCH));
    var s2 := Step(s1, BeginEdit(raise)).value;
    StepKeepsInv(s1, BeginEdit(raise));
    assert s2.drafts == [Draft(i, NO_PATCH), Draft(i, raise)];
    UndisturbedIsHonest(s2.row, s2.drafts[1]);
    var s3 := Step(s2, FinishEdit(1)).value;
    StepKeepsInv(s2, FinishEdit(1));
    var s4 := Step(s3, Prepare).value;
    StepKeepsInv(s3, Prepare);
    s5 := Step(s4, Persist(0)).value;
    StepKeepsInv(s4, Persist(0));
    FiveSteps(s, BeginEdit(NO_PATCH), BeginEdit(raise), FinishEdit(1), Prepare, Persist(0));
  }

  lemma RunOneMore(s: State, actions: seq<Action>, a: Action)
    requires Run(s, actions).Some?
    ensures Run(s, actions + [a]) == Step(Run(s, actions).value, a)
  {
    assert (actions + [a])[..|actions|] == actions;
  }

  lemma FiveSteps(s: State, a: Action, b: Action, c: Action, d: Action, e: Action)
    requires Step(s, a).Some? && Step(Step(s, a).value, b).Some?
    requires Step(Step(Step(s, a).value, b).value, c).Some?
    requires Step(Step(Step(Step(s, a).value, b).value, c).value, d).Some?
    ensures Run(s, [a, b, c, d, e]) == Step(Step(Step(Step(Step(s, a).value, b).value, c).value, d).value, e)
  {
    hide Step;
    RunOneMore(s, [], a);
    assert [] + [a] == [a] && [a] + [b] == [a, b] && [a, b] + [c] == [a, b, c];
    assert [a, b, c] + [d] == [a, b, c, d] && [a, b, c, d] + [e] == [a, b, c, d, e];
    RunOneMore(s, [a], b);
    RunOneMore(s, [a, b], c);
    RunOneMore(s, [a, b, c], d);
    RunOneMore(s, [a, b, c, d], e);
  }
}
