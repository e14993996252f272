/**
 * What every reachable state of the push protocol satisfies, under the environment
 * assumptions: creates take effect within the renewed lease, and two live runs never share an
 * operation id.
 */
module PushSafety {
  import opened Prelude
  import opened CandidateRow
  import opened PushProtocol

  /** The lease this run renewed has not run out. */
  predicate Timely(s: State, r: Run) {
    s.now < r.stamp + s.cfg.leaseMs
  }

  /** The row is exactly as this run's renewal left it, apart from the status. */
  predicate Undisturbed(s: State, r: Run) {
    && Owned(s.row, r.op)
    && s.row.claimedAt == Some(r.stamp)
    && s.row.intent == Some(r.intent)
    && s.row.productId == None
  }

  /** Where a run stands relative to the row and the products, by its program counter. */
  predicate Position(s: State, r: Run) {
    && r.startedAt <= s.now
    && match r.pc
       case Analysing => Owned(s.row, r.op) ==> s.products == []
       case ReadingClock => Owned(s.row, r.op) ==> s.products == []
       case Recording => r.stamp <= s.now && (Owned(s.row, r.op) ==> s.products == [])
       case SecondLookup => r.stamp <= s.now && (Timely(s, r) && s.products == [] ==> Undisturbed(s, r))
       case Creating => r.stamp <= s.now && (Timely(s, r) ==> s.products == [] && Undisturbed(s, r))
       case InFlight => r.stamp <= s.now && (Timely(s, r) ==> s.products == [] && Undisturbed(s, r))
       case Landed => s.products != []
       case _ => true
  }

  /** This run has seen the one product, and either adopted or created it. */
  predicate Settled(s: State, r: Run) {
    && r.captured == Some(0) && s.products != []
    && r.creates == (if r.adopted then 0 else 1)
  }

  predicate Recovered(s: State, r: Run) {
    && Settled(s, r)
    && (r.adopted ==> r.recovered == Some(Some(s.products[0].listing)))
  }

  /** This run has seen no product. */
  predicate Unsettled(r: Run) {
    r.captured == None && !r.adopted && !r.marked
  }

  /** What a run has done and may report, by its program counter. */
  predicate Account(s: State, r: Run) {
    match r.pc
    case Checking => Unsettled(r) && r.creates == 0 && !r.holding
    case Claiming => Unsettled(r) && r.creates == 0 && !r.holding
    case FirstLookup => Unsettled(r) && r.creates == 0
    case Analysing => Unsettled(r) && r.creates == 0
    case ReadingClock => Unsettled(r) && r.creates == 0
    case Recording => Unsettled(r) && r.creates == 0
    case SecondLookup => Unsettled(r) && r.creates == 0
    case Creating => Unsettled(r) && r.creates == 0
    case InFlight => Unsettled(r) && r.creates == 1
    case Landed => Unsettled(r) && r.creates == 1
    case LoadingIntent => Settled(s, r) && r.adopted && !r.marked
    case Enforcing => Recovered(s, r) && !r.marked
    case Marking => Recovered(s, r) && !r.marked && (!r.incident ==> Hidden(r.observed))
    case Returning => Recovered(s, r) && r.marked && Hidden(r.observed) && s.row.productId == r.captured
    case Done => Recovered(s, r) && r.marked && Hidden(r.observed) && s.row.productId == r.captured
    case Releasing => Unsettled(r) && r.creates <= 1
    case Refused => Unsettled(r) && r.creates == 0 && !r.holding
    case Released => Unsettled(r) && r.creates <= 1 && !r.holding
    case Kept => Settled(s, r)
    case Aborted => r.creates <= 1
  }

  /** Whatever a reconciliation loaded is the decision the existing product was created from. */
  predicate Faithful(s: State, r: Run) {
    r.recovered.Some? ==>
      s.products != [] && r.captured == Some(0) && r.recovered.value == Some(s.products[0].listing)
  }

  /** A run refused by a gate never called createProduct, and only gives its claim back after that. */
  predicate NeverCreated(r: Run) {
    r.gated ==> r.creates == 0 && (r.pc == Releasing || r.pc == Released || r.pc == Aborted)
  }

  predicate RunInv(s: State, r: Run) {
    Position(s, r) && Account(s, r) && Faithful(s, r) && NeverCreated(r)
  }

  predicate DistinctLiveIds(s: State) {
    forall i, j :: 0 <= i < j < |s.runs| && Live(s.runs[i]) && Live(s.runs[j]) ==> s.runs[i].op != s.runs[j].op
  }

  predicate RowInv(s: State) {
    && WellFormed(s.row)
    && |s.products| <= 1
    && (s.products != [] ==> s.row.intent == Some(s.products[0].listing))
    && (s.row.productId.Some? ==> s.products != [] && s.row.productId.value == 0)
    && (s.row.pushState == InProgress ==>
          && s.holder < |s.runs|
          && s.row.operationId == Some(s.runs[s.holder].op)
          && s.runs[s.holder].holding)
  }

  predicate Inv(s: State) {
    && s.cfg.createsAreTimely && s.cfg.liveIdsDistinct
    && RowInv(s)
    && DistinctLiveIds(s)
    && (forall i :: 0 <= i < |s.runs| ==> RunInv(s, s.runs[i]))
  }

  /** The state right after an effect, before the run itself is written back. */
  function Landscape(s: State, e: Effect): State {
    s.(row := e.row, products := e.products)
  }

  lemma ActKeepsRow(s: State, i: nat, a: Action)
    requires Inv(s) && i < |s.runs| && Act(s, s.runs[i], a).Some?
    ensures var e := Act(s, s.runs[i], a).value;
            && WellFormed(e.row)
            && |e.products| <= 1
            && (e.products != [] ==> e.row.intent == Some(e.products[0].listing))
            && (e.row.productId.Some? ==> e.products != [] && e.row.productId.value == 0)
  {
    var r := s.runs[i];
    assert RunInv(s, r);
    OnlyLiveRunsAct(s, r, a);
    LiveStanding(s, r);
    ActTouches(s, r, a);
  }

  // An actor's own step leaves it where its program counter says it should stand, phase by phase.

  lemma BeforeKeeps(s: State, r: Run, a: Action)
    requires s.cfg.createsAreTimely && RowInv(s) && RunInv(s, r) && ActBefore(s, r, a).Some?
    ensures RunInv(Landscape(s, ActBefore(s, r, a).value), ActBefore(s, r, a).value.run)
  {
  }

  lemma GatesKeeps(s: State, r: Run, a: Action)
    requires s.cfg.createsAreTimely && RowInv(s) && RunInv(s, r) && ActGates(s, r, a).Some?
    ensures RunInv(Landscape(s, ActGates(s, r, a).value), ActGates(s, r, a).value.run)
  {
    var e := ActGates(s, r, a).value;
    if a.Lookup? {
      LookupKeeps(s, r, if r.pc == FirstLookup then Analysing else Creating);
    } else if a.Record? {
      assert e.products == s.products;
    }
  }

  lemma LookupKeeps(s: State, r: Run, next: Pc)
    requires RowInv(s) && RunInv(s, r)
    requires (r.pc == FirstLookup && next == Analysing) || (r.pc == SecondLookup && next == Creating)
    ensures ActLookup(s, r, next).Some?
    ensures RunInv(Landscape(s, ActLookup(s, r, next).value), ActLookup(s, r, next).value.run)
  {
  }

  lemma CreateKeeps(s: State, r: Run, a: Action)
    requires s.cfg.createsAreTimely && RowInv(s) && RunInv(s, r) && ActCreate(s, r, a).Some?
    ensures RunInv(Landscape(s, ActCreate(s, r, a).value), ActCreate(s, r, a).value.run)
  {
  }

  lemma FinishKeeps(s: State, r: Run, a: Action)
    requires s.cfg.createsAreTimely && RowInv(s) && RunInv(s, r) && ActFinish(s, r, a).Some?
    ensures RunInv(Landscape(s, ActFinish(s, r, a).value), ActFinish(s, r, a).value.run)
  {
    var e := ActFinish(s, r, a).value;
    match r.pc
    case LoadingIntent =>
      assert e.run == r.(pc := Enforcing, recovered := Some(s.row.intent));
    case Enforcing =>
      RepairKeeps(s, r, if a.Enforce? then a.repaired else None);
    case Marking =>
      assert e.products == s.products && (e.run.pc == Kept || e.run.pc == Returning);
    case Returning =>
      assert e.run == r.(pc := Done);
  }

  lemma RepairKeeps(s: State, r: Run, repaired: Option<Visibility>)
    requires RowInv(s) && RunInv(s, r) && r.pc == Enforcing && ActRepair(s, r, repaired).Some?
    ensures RunInv(Landscape(s, ActRepair(s, r, repaired).value), ActRepair(s, r, repaired).value.run)
  {
  }

  lemma ReleaseKeeps(s: State, r: Run, a: Action)
    requires RowInv(s) && RunInv(s, r) && a.Release? && ActFail(s, r, a).Some?
    ensures RunInv(Landscape(s, ActFail(s, r, a).value), ActFail(s, r, a).value.run)
  {
    assert r.pc == Releasing;
  }

  /** At every point a live run has either seen no product or settled on the one there is. */
  lemma LiveStanding(s: State, r: Run)
    requires RunInv(s, r) && Live(r)
    ensures if r.captured == None then Unsettled(r) && r.creates <= 1 else Settled(s, r)
    ensures r.pc == Checking || r.pc == Claiming ==> r.creates == 0 && !r.holding
    ensures r.pc == Checking || r.pc == Claiming || r.pc == Releasing ==> r.captured == None
    ensures r.gated ==> r.creates == 0 && r.pc == Releasing
  {
  }

  lemma FailKeeps(s: State, r: Run, a: Action)
    requires RowInv(s) && RunInv(s, r) && !a.Release? && ActFail(s, r, a).Some?
    ensures RunInv(Landscape(s, ActFail(s, r, a).value), ActFail(s, r, a).value.run)
  {
    LiveStanding(s, r);
    var e := ActFail(s, r, a).value;
    FailedStands(s, r, e.run);
    assert Landscape(s, e) == s;
  }

  lemma FailedStands(s: State, r: Run, failed: Run)
    requires r.startedAt <= s.now && r.creates <= 1
    requires failed == r.(pc := failed.pc)
    requires failed.pc == Refused || failed.pc == Releasing || failed.pc == Kept || failed.pc == Aborted
    requires failed.pc == Refused ==> Unsettled(r) && r.creates == 0 && !r.holding
    requires failed.pc == Releasing ==> Unsettled(r)
    requires failed.pc == Kept ==> Settled(s, r)
    requires r.gated ==> r.creates == 0 && failed.pc == Aborted
    requires Faithful(s, r)
    ensures RunInv(s, failed)
  {
  }

  /** All a run's step can do to the row. */
  predicate TouchesRow(s: State, r: Run, row: Row) {
    || row == s.row
    || (ClaimMatches(s.row, r.op, r.startedAt, s.cfg.leaseMs) && row == ClaimSet(s.row, r.op, r.startedAt))
    || (Owned(s.row, r.op) &&
        (|| (r.pc == Recording && row == RecordSet(s.row, r.stamp, r.intent))
         || row == ReleaseSet(s.row)
         || (r.captured.Some? && row == SucceededSet(s.row, r.captured.value))))
    || (r.captured.Some? && row == IncidentSet(s.row, r.op, r.captured.value))
  }

  /** All a run's step can do to the products: change how one is shown, or add one in time. */
  predicate TouchesProducts(s: State, r: Run, products: seq<Product>) {
    || (|products| == |s.products| && forall k :: 0 <= k < |products| ==> products[k].listing == s.products[k].listing)
    || (&& r.pc == InFlight && Timely(s, r)
        && |products| == |s.products| + 1 && products[|s.products|].listing == r.intent)
  }

  lemma ActTouches(s: State, r: Run, a: Action)
    requires s.cfg.createsAreTimely && Act(s, r, a).Some?
    ensures TouchesRow(s, r, Act(s, r, a).value.row)
    ensures TouchesProducts(s, r, Act(s, r, a).value.products)
  {
  }

  /** The heart of the argument: no step of one run can spoil what another relies on. */
  lemma OthersStand(s: State, r: Run, e: Effect, other: Run)
    requires RowInv(s) && RunInv(s, r) && RunInv(s, other) && Live(r)
    requires TouchesRow(s, r, e.row) && TouchesProducts(s, r, e.products)
    requires Live(other) ==> other.op != r.op
    ensures Position(Landscape(s, e), other)
  {
    LiveStanding(s, r);
  }

  lemma OthersAccount(s: State, r: Run, e: Effect, other: Run)
    requires RowInv(s) && RunInv(s, r) && RunInv(s, other) && Live(r)
    requires TouchesRow(s, r, e.row) && TouchesProducts(s, r, e.products)
    ensures Account(Landscape(s, e), other) && Faithful(Landscape(s, e), other)
  {
    LiveStanding(s, r);
    assert s.products != [] ==> e.products != [] && e.products[0].listing == s.products[0].listing;
    assert s.row.productId.Some? ==> e.row.productId == s.row.productId;
  }

  lemma ActKeepsOthers(s: State, r: Run, a: Action, other: Run)
    requires s.cfg.createsAreTimely && RowInv(s)
    requires RunInv(s, r) && RunInv(s, other) && Act(s, r, a).Some?
    requires Live(other) ==> other.op != r.op
    ensures RunInv(Landscape(s, Act(s, r, a).value), other)
  {
    OnlyLiveRunsAct(s, r, a);
    ActTouches(s, r, a);
    OthersStand(s, r, Act(s, r, a).value, other);
    OthersAccount(s, r, Act(s, r, a).value, other);
  }

  /** A run keeps its operation id and stops acting once it is finished. */
  lemma OnlyLiveRunsAct(s: State, r: Run, a: Action)
    requires Act(s, r, a).Some?
    ensures Live(r) && Act(s, r, a).value.run.op == r.op
  {
    hide Live, Act, ActFail;
    ActIs(s, r, a);
    if ActFail(s, r, a).Some? {
      FailActsLive(s, r, a);
    } else {
      WorkIsLive(s, r, a);
    }
  }

  lemma ActIs(s: State, r: Run, a: Action)
    ensures Act(s, r, a) == ActBefore(s, r, a) || Act(s, r, a) == ActGates(s, r, a) || Act(s, r, a) == ActCreate(s, r, a)
            || Act(s, r, a) == ActFinish(s, r, a) || Act(s, r, a) == ActFail(s, r, a)
    ensures ActFail(s, r, a).Some? ==> Act(s, r, a) == ActFail(s, r, a)
  {
    hide ActBefore, ActGates, ActCreate, ActFinish;
  }

  lemma FailActsLive(s: State, r: Run, a: Action)
    requires ActFail(s, r, a).Some?
    ensures Live(r) && ActFail(s, r, a).value.run.op == r.op
  {
  }

  lemma WorkIsLive(s: State, r: Run, a: Action)
    requires ActFail(s, r, a) == None && Act(s, r, a).Some?
    ensures Live(r) && Act(s, r, a).value.run.op == r.op
  {
    hide ActFail;
  }

  /** Only a claim puts a row in progress, and only a release stops its taker from holding it. */
  predicate HoldingKept(s: State, r: Run, a: Action, e: Effect) {
    e.row.pushState == InProgress ==>
      if a.Claim? && e.run.holding then e.row.operationId == Some(r.op)
      else
        && s.row.pushState == InProgress
        && e.row.operationId == s.row.operationId
        && (Owned(e.row, r.op) ==> e.run.holding == r.holding)
  }

  lemma BeforeKeepsHolding(s: State, r: Run, a: Action)
    requires RowInv(s) && RunInv(s, r) && (a.Check? || a.Claim?) && ActBefore(s, r, a).Some?
    ensures HoldingKept(s, r, a, ActBefore(s, r, a).value)
  {
    hide Position, Faithful, NeverCreated;
  }

  lemma LaterKeepsHolding(s: State, r: Run, a: Action)
    requires !a.Check? && !a.Claim? && Act(s, r, a).Some?
    ensures HoldingKept(s, r, a, Act(s, r, a).value)
  {
  }

  lemma ActKeepsHolding(s: State, r: Run, a: Action)
    requires RowInv(s) && RunInv(s, r) && Act(s, r, a).Some?
    ensures HoldingKept(s, r, a, Act(s, r, a).value)
  {
    hide HoldingKept, ActBefore, RunInv, RowInv;
    if a.Check? || a.Claim? {
      BeforeKeepsHolding(s, r, a);
    } else {
      LaterKeepsHolding(s, r, a);
    }
  }

  lemma ActorKeepsRowInv(s: State, i: nat, a: Action)
    requires Inv(s) && Actor(a) == Some(i) && Step(s, a).Some?
    ensures RowInv(Step(s, a).value)
  {
    var s' := Step(s, a).value;
    var r := s.runs[i];
    assert RunInv(s, r);
    ActKeepsRow(s, i, a);
    OnlyLiveRunsAct(s, r, a);
    var e := Act(s, r, a).value;
    assert s'.runs[i] == e.run && s'.row == e.row && s'.products == e.products;
    if e.row.pushState == InProgress {
      ActKeepsHolding(s, r, a);
    }
  }

  lemma ActorKeepsIds(s: State, i: nat, a: Action)
    requires Inv(s) && Actor(a) == Some(i) && Step(s, a).Some?
    ensures DistinctLiveIds(Step(s, a).value)
  {
    OnlyLiveRunsAct(s, s.runs[i], a);
    var s' := Step(s, a).value;
    assert forall j :: 0 <= j < |s'.runs| ==> s'.runs[j].op == s.runs[j].op && (Live(s'.runs[j]) ==> Live(s.runs[j]));
  }

  lemma ActorKeepsRuns(s: State, i: nat, a: Action, j: nat)
    requires Inv(s) && Actor(a) == Some(i) && Step(s, a).Some? && j < |s.runs|
    ensures j < |Step(s, a).value.runs| && RunInv(Step(s, a).value, Step(s, a).value.runs[j])
  {
    var r := s.runs[i];
    assert RunInv(s, r) && RunInv(s, s.runs[j]);
    ActKeepsItself(s, r, a);
    OnlyLiveRunsAct(s, r, a);
    var e := Act(s, r, a).value;
    if j != i {
      ActKeepsOthers(s, r, a, s.runs[j]);
      SameGround(Landscape(s, e), Step(s, a).value, s.runs[j]);
    } else {
      SameGround(Landscape(s, e), Step(s, a).value, e.run);
    }
  }

  /** A run's standing depends on the clock, the row and the products only. */
  lemma SameGround(s: State, s': State, r: Run)
    requires s.cfg == s'.cfg && s.now == s'.now && s.row == s'.row && s.products == s'.products
    ensures RunInv(s, r) == RunInv(s', r)
  {
  }

  lemma ActKeepsItself(s: State, r: Run, a: Action)
    requires s.cfg.createsAreTimely && RowInv(s) && RunInv(s, r) && Act(s, r, a).Some?
    ensures RunInv(Landscape(s, Act(s, r, a).value), Act(s, r, a).value.run)
  {
    if a.Check? || a.Claim? {
      BeforeKeeps(s, r, a);
    } else if a.Lookup? || a.Analyse? || a.ReadClock? || a.Record? {
      GatesKeeps(s, r, a);
    } else if a.CallCreate? || a.CreateLands? || a.CreateReturns? {
      CreateKeeps(s, r, a);
    } else if a.LoadIntent? || a.Enforce? || a.Mark? || a.Return? {
      FinishKeeps(s, r, a);
    } else if a.Release? {
      ReleaseKeeps(s, r, a);
    } else {
      FailKeeps(s, r, a);
    }
  }

  /** Time passing, status changes and visibility changes leave every run where it stands. */
  lemma SurroundingsKeepRun(s: State, a: Action, r: Run)
    requires Inv(s) && RunInv(s, r) && Surroundings(s, a).Some?
    ensures RunInv(Surroundings(s, a).value, r)
  {
  }

  lemma StartKeepsInv(s: State, op: OperationId)
    requires Inv(s) && Surroundings(s, Start(op)).Some?
    ensures Inv(Surroundings(s, Start(op)).value)
  {
    var s' := Surroundings(s, Start(op)).value;
    forall j | 0 <= j < |s'.runs| ensures RunInv(s', s'.runs[j]) {
      if j < |s.runs| {
        assert RunInv(s, s.runs[j]);
        SurroundingsKeepRun(s, Start(op), s.runs[j]);
      }
    }
    forall j, k | 0 <= j < k < |s'.runs| && Live(s'.runs[j]) && Live(s'.runs[k])
      ensures s'.runs[j].op != s'.runs[k].op
    {
      assert s'.runs[j] in s.runs;
    }
  }

  lemma SurroundingsKeepInv(s: State, a: Action)
    requires Inv(s) && Surroundings(s, a).Some? && !a.Start?
    ensures Inv(Surroundings(s, a).value)
  {
    var s' := Surroundings(s, a).value;
    assert s'.runs == s.runs && s'.holder == s.holder;
    forall j | 0 <= j < |s'.runs| ensures RunInv(s', s'.runs[j]) {
      SurroundingsKeepRun(s, a, s.runs[j]);
    }
  }

  lemma StepKeepsInv(s: State, a: Action)
    requires Inv(s) && Step(s, a).Some?
    ensures Inv(Step(s, a).value)
  {
    match Actor(a)
    case None =>
      if a.Start? { StartKeepsInv(s, a.op); } else { SurroundingsKeepInv(s, a); }
    case Some(i) =>
      ActorKeepsRowInv(s, i, a);
      ActorKeepsIds(s, i, a);
      var s' := Step(s, a).value;
      forall j | 0 <= j < |s'.runs| ensures RunInv(s', s'.runs[j]) {
        ActorKeepsRuns(s, i, a, j);
      }
  }

  lemma {:induction false} RunsKeepInv(s: State, actions: seq<Action>)
    requires Inv(s) && After(s, actions).Some?
    ensures Inv(After(s, actions).value)
    decreases |actions|
  {
    if actions != [] {
      RunsKeepInv(s, actions[..|actions| - 1]);
      StepKeepsInv(After(s, actions[..|actions| - 1]).value, actions[|actions| - 1]);
    }
  }
}
