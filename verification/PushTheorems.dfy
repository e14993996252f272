/** The push protocol's promises, over every run the environment assumptions allow. */
module PushTheorems {
  import opened Prelude
  import opened CandidateRow
  import opened PushProtocol
  import opened PushSafety

  /** `s` is reached from an untouched candidate by `actions`, under both assumptions. */
  predicate Reached(s: State, start: State, actions: seq<Action>) {
    && Init(start) && start.cfg.createsAreTimely && start.cfg.liveIdsDistinct
    && After(start, actions) == Some(s)
  }

  lemma ReachedInv(s: State, start: State, actions: seq<Action>)
    requires Reached(s, start, actions)
    ensures Inv(s)
  {
    RunsKeepInv(start, actions);
  }

  /** No interleaving, crash, retry or takeover creates a second product for the candidate. */
  lemma AtMostOneProduct(s: State, start: State, actions: seq<Action>)
    requires Reached(s, start, actions)
    ensures |s.products| <= 1
    ensures forall r :: r in s.runs ==> r.creates <= 1
  {
    ReachedInv(s, start, actions);
    forall r | r in s.runs ensures r.creates <= 1 {
      assert RunInv(s, r);
    }
  }

  /** A reconciliation always finds an intent, and it is the one the product was created from. */
  lemma RecoveredIntentIsTheOriginal(s: State, start: State, actions: seq<Action>, i: nat)
    requires Reached(s, start, actions)
    requires i < |s.runs| && s.runs[i].recovered.Some?
    ensures |s.products| == 1 && s.runs[i].recovered == Some(Some(s.products[0].listing))
    ensures s.runs[i].captured == Some(0)
  {
    ReachedInv(s, start, actions);
    assert RunInv(s, s.runs[i]);
  }

  /** A push that returned made its own transition to SUCCEEDED and last saw the product hidden. */
  lemma ReturnedPush(s: State, start: State, actions: seq<Action>, i: nat)
    requires Reached(s, start, actions)
    requires i < |s.runs| && s.runs[i].pc == Done
    ensures var r := s.runs[i];
            && r.marked && Hidden(r.observed)
            && r.captured == Some(0) && s.row.productId == Some(0) && |s.products| == 1
            && r.creates == (if r.adopted then 0 else 1)
  {
    ReachedInv(s, start, actions);
    assert RunInv(s, s.runs[i]);
  }

  /**
   * A push that failed without seeing a product asked for at most one create, and no longer
   * holds the claim: if the row is in progress under its operation id, a later run with the
   * same id took it.
   */
  lemma FailedPush(s: State, start: State, actions: seq<Action>, i: nat)
    requires Reached(s, start, actions)
    requires i < |s.runs| && (s.runs[i].pc == Refused || s.runs[i].pc == Released)
    ensures s.runs[i].captured == None && !s.runs[i].marked
    ensures s.runs[i].pc == Refused ==> s.runs[i].creates == 0
    ensures Owned(s.row, s.runs[i].op)
            ==> s.holder < |s.runs| && s.holder != i && s.runs[s.holder].op == s.runs[i].op
  {
    ReachedInv(s, start, actions);
    assert RunInv(s, s.runs[i]);
  }

  /** In every interleaving, a push that a gate refused and that has given its claim back never called createProduct. */
  lemma GateRefusalNeverCreated(s: State, start: State, actions: seq<Action>, i: nat)
    requires Reached(s, start, actions)
    requires i < |s.runs| && s.runs[i].pc == Released && s.runs[i].gated
    ensures s.runs[i].creates == 0 && s.runs[i].captured == None && !s.runs[i].holding
    ensures Owned(s.row, s.runs[i].op)
            ==> s.holder < |s.runs| && s.holder != i && s.runs[s.holder].op == s.runs[i].op
  {
    ReachedInv(s, start, actions);
    assert RunInv(s, s.runs[i]);
  }

  /** A refusal in steps 4 to 8 leads to the release with createProduct never called. */
  lemma RefusedBeforeCreate(s: State, start: State, actions: seq<Action>, i: nat, a: Action)
    requires Reached(s, start, actions) && i < |s.runs| && Actor(a) == Some(i)
    requires s.runs[i].pc != InFlight && s.runs[i].pc != Landed && s.runs[i].pc != Releasing
    requires Step(s, a).Some? && Step(s, a).value.runs[i].pc == Releasing
    ensures var s' := Step(s, a).value;
            && s'.runs[i].creates == 0
            && Step(s', Release(i)).Some?
            && !Owned(Step(s', Release(i)).value.row, s.runs[i].op)
            && Step(s', Release(i)).value.products == s.products
  {
    ReachedInv(s, start, actions);
    var r := s.runs[i];
    assert RunInv(s, r);
    GateRefuses(s, r, a);
    ReleaseGivesBack(Step(s, a).value, i);
  }

  lemma ReleaseGivesBack(s: State, i: nat)
    requires i < |s.runs| && s.runs[i].pc == Releasing
    ensures Step(s, Release(i)).Some?
    ensures var s' := Step(s, Release(i)).value; !Owned(s'.row, s.runs[i].op) && s'.products == s.products
  {
  }

  lemma GateRefuses(s: State, r: Run, a: Action)
    requires RunInv(s, r) && Act(s, r, a).Some?
    requires r.pc != InFlight && r.pc != Landed && r.pc != Releasing
    requires Act(s, r, a).value.run.pc == Releasing
    ensures var e := Act(s, r, a).value;
            e.run.creates == 0 && e.run.op == r.op && e.row == s.row && e.products == s.products
  {
    OnlyLiveRunsAct(s, r, a);
    LiveStanding(s, r);
  }

  /**
   * The product id is stored exactly in the two final states, is the id of the one product, is
   * never cleared or changed, and blocks every later claim. The status is not what protects it.
   */
  lemma ProductIdIsAbsorbing(s: State, start: State, actions: seq<Action>, a: Action, op: OperationId, now: int)
    requires Reached(s, start, actions) && Step(s, a).Some?
    ensures s.row.productId.Some? <==> s.row.pushState == Succeeded || s.row.pushState == SafetyIncident
    ensures s.row.productId.Some? ==>
              && s.row.productId == Some(0) && |s.products| == 1
              && Step(s, a).value.row.productId == s.row.productId
              && Step(s, a).value.row.intent == s.row.intent
              && !PreCheck(s.row, op, now, s.cfg.leaseMs)
              && !ClaimMatches(s.row, op, now, s.cfg.leaseMs)
  {
    ReachedInv(s, start, actions);
    StepKeepsInv(s, a);
    if s.row.productId.Some? && Actor(a).Some? {
      var r := s.runs[Actor(a).value];
      assert RunInv(s, r);
      ActPastTheId(s, r, a);
    }
  }

  lemma ActPastTheId(s: State, r: Run, a: Action)
    requires RowInv(s) && RunInv(s, r) && Act(s, r, a).Some? && s.row.productId.Some?
    ensures Act(s, r, a).value.row.productId == s.row.productId
    ensures Act(s, r, a).value.row.intent == s.row.intent
  {
  }

  // ---- what each write leaves behind ---------------------------------------

  /** A claim is stamped with the moment the operation started, and touches nothing else. */
  lemma ClaimLeaves(s: State, i: nat, reread: bool)
    requires i < |s.runs| && Step(s, Claim(i, reread)).Some? && Step(s, Claim(i, reread)).value.runs[i].pc != Refused
    ensures var r := s.runs[i]; var row := Step(s, Claim(i, reread)).value.row;
            && row.pushState == InProgress && row.operationId == Some(r.op) && row.claimedAt == Some(r.startedAt)
            && row.status == s.row.status && row.intent == s.row.intent && row.productId == None
  {
  }

  /** The renewal is stamped with the later clock read, and freezes what the gates approved. */
  lemma RenewalLeaves(s: State, i: nat)
    requires i < |s.runs| && s.runs[i].pc == ReadingClock
    ensures var r := s.runs[i]; var read := Step(s, ReadClock(i)).value;
            && Step(read, Record(i)).Some?
            && var end := Step(read, Record(i)).value;
               end.runs[i].pc == SecondLookup ==>
                 && end.row.claimedAt == Some(s.now) && end.row.intent.Some?
                 && end.row.intent.value.operationId == r.op
                 && end.row.intent.value.listedPrice == r.decision.price
                 && end.row.intent.value.decisionHash == r.decision.hash
                 && end.row.intent.value.supplierCost == r.decision.cost
                 && end.row.intent.value.createdAt == s.now
                 && end.row.status == s.row.status && end.row.productId == None
                 && end.row.pushState == InProgress && end.row.operationId == Some(r.op)
  {
  }

  /** A release by the owner leaves an idle, unclaimed row; anybody else's leaves the row alone. */
  lemma ReleaseLeaves(s: State, i: nat)
    requires i < |s.runs| && s.runs[i].pc == Releasing
    ensures var owns := s.row.pushState == InProgress && s.row.operationId == Some(s.runs[i].op);
            var row := Step(s, Release(i)).value.row;
            && (owns ==> row.pushState == Idle && row.operationId == None && row.claimedAt == None
                         && row.status == s.row.status && row.intent == s.row.intent && row.productId == s.row.productId)
            && (!owns ==> row == s.row)
  {
  }

  /** An operation that could not verify its product as hidden leaves a safety incident, whoever owns the row. */
  lemma IncidentLeaves(s: State, start: State, actions: seq<Action>, i: nat)
    requires Reached(s, start, actions)
    requires i < |s.runs| && s.runs[i].pc == Marking && s.runs[i].incident
    ensures Step(s, Mark(i)).Some?
    ensures var row := Step(s, Mark(i)).value.row;
            && row.pushState == SafetyIncident && row.status == PushedToShopify
            && row.operationId == Some(s.runs[i].op) && row.claimedAt == None
            && s.runs[i].captured.Some? && row.productId == s.runs[i].captured
            && row.intent == s.row.intent
  {
    ReachedInv(s, start, actions);
    assert RunInv(s, s.runs[i]);
  }

  /** An operation that could, and still owns the row, records its product as pushed. */
  lemma SuccessLeaves(s: State, start: State, actions: seq<Action>, i: nat)
    requires Reached(s, start, actions)
    requires i < |s.runs| && s.runs[i].pc == Marking && !s.runs[i].incident
    requires s.row.pushState == InProgress && s.row.operationId == Some(s.runs[i].op)
    ensures Step(s, Mark(i)).Some?
    ensures var row := Step(s, Mark(i)).value.row;
            && row.pushState == Succeeded && row.status == PushedToShopify
            && row.operationId == s.row.operationId && row.claimedAt == None
            && s.runs[i].captured.Some? && row.productId == s.runs[i].captured
            && row.intent == s.row.intent
  {
    ReachedInv(s, start, actions);
    assert RunInv(s, s.runs[i]);
  }

  /**
   * The eligibility step, on any row: an open candidate may go on, and so may one being pushed by this
   * operation or under a claim one lease old by the operation's start; any unlabelled amount refuses.
   */
  lemma CheckDecides(s: State, i: nat, labelled: bool)
    requires i < |s.runs| && s.runs[i].pc == Checking
    ensures var row, r := s.row, s.runs[i];
            var open := row.status == New || row.status == Analyzed || row.status == Watching || row.status == Selected;
            var next := Step(s, Check(i, labelled));
            && next.Some? && next.value == s.(runs := s.runs[i := r.(pc := next.value.runs[i].pc)])
            && (next.value.runs[i].pc == Claiming || next.value.runs[i].pc == Refused)
            && (next.value.runs[i].pc == Claiming
                <==> && labelled && row.productId == None
                     && (|| ((row.pushState == Idle || row.pushState == Succeeded) && open)
                         || (row.pushState == InProgress
                             && (|| row.operationId == Some(r.op) || row.claimedAt == None
                                 || r.startedAt - row.claimedAt.value >= s.cfg.leaseMs))))
  {
  }

  /**
   * What a run acts on is what Shopify reports: a call that returns has captured the newest product,
   * a lookup that finds one has captured that, and either has seen its visibility as it is.
   */
  lemma CapturesWhatIsThere(s: State, i: nat, a: Action)
    requires i < |s.runs| && (a == CreateReturns(i) || a == Lookup(i)) && Step(s, a).Some?
    requires a.Lookup? ==> s.products != []
    ensures var r := Step(s, a).value.runs[i]; var k := if a.Lookup? then 0 else |s.products| - 1;
            && 0 <= k < |s.products| && r.captured == Some(k) && r.observed == s.products[k].visibility
            && r.pc == (if a.Lookup? then LoadingIntent else Enforcing)
            && (a.Lookup? ==> r.adopted)
            && Step(s, a).value.row == s.row && Step(s, a).value.products == s.products
  {
  }

  /** A repair that is not confirmed, or does not return, is an incident; a confirmed one is not. */
  lemma RepairDecides(s: State, start: State, actions: seq<Action>, i: nat, repaired: Option<Visibility>)
    requires Reached(s, start, actions) && i < |s.runs| && s.runs[i].pc == Enforcing && !s.runs[i].incident
    ensures var seen := s.runs[i].observed;
            var hidden := !seen.published && !seen.visibleToCustomers;
            && Step(s, Enforce(i, repaired)).Some?
            && Step(s, Enforce(i, repaired)).value.runs[i].pc == Marking
            && (Step(s, Enforce(i, repaired)).value.runs[i].incident
                <==> !hidden && (repaired == None || repaired.value.published || repaired.value.visibleToCustomers))
  {
    ReachedInv(s, start, actions);
    assert RunInv(s, s.runs[i]);
  }

  /** A repair sets the one captured product as Shopify then reports it, and that is what the run has seen. */
  lemma RepairTouchesOneProduct(s: State, start: State, actions: seq<Action>, i: nat, repaired: Option<Visibility>)
    requires Reached(s, start, actions) && i < |s.runs| && s.runs[i].pc == Enforcing
    ensures Step(s, Enforce(i, repaired)).Some?
    ensures var products := Step(s, Enforce(i, repaired)).value.products;
            var acted := repaired.Some? && (s.runs[i].observed.published || s.runs[i].observed.visibleToCustomers);
            && (!acted ==> products == s.products)
            && (acted ==>
                  && s.runs[i].captured.Some? && s.runs[i].captured.value < |s.products| == |products|
                  && Step(s, Enforce(i, repaired)).value.runs[i].observed == repaired.value
                  && forall k :: 0 <= k < |products| ==>
                       && products[k].listing == s.products[k].listing
                       && products[k].visibility
                          == if k == s.runs[i].captured.value then repaired.value else s.products[k].visibility)
  {
    ReachedInv(s, start, actions);
    assert RunInv(s, s.runs[i]);
  }

  /** This run made the transition to SUCCEEDED, with this product, having last seen it hidden. */
  predicate Vouches(r: Run, product: Option<ProductId>) {
    r.marked && r.captured == product && !r.observed.published && !r.observed.visibleToCustomers
  }

  predicate SomeoneVouches(s: State) {
    s.row.pushState == Succeeded ==> exists i :: 0 <= i < |s.runs| && Vouches(s.runs[i], s.row.productId)
  }

  /** A run that vouched goes on vouching. */
  lemma StillVouches(s: State, r: Run, a: Action)
    requires RunInv(s, r) && Act(s, r, a).Some? && r.marked
    ensures var e := Act(s, r, a).value; e.run.marked && e.run.captured == r.captured && e.run.observed == r.observed
    ensures Act(s, r, a).value.row == s.row
  {
    hide Position, Faithful, NeverCreated;
    OnlyLiveRunsAct(s, r, a);
    assert r.pc == Returning;
  }

  /** Only an owner's own mark turns a row to SUCCEEDED, and then that owner vouches for it. */
  lemma BecomesSucceeded(s: State, r: Run, a: Action)
    requires RowInv(s) && RunInv(s, r) && Act(s, r, a).Some?
    requires Act(s, r, a).value.row.pushState == Succeeded
    ensures var e := Act(s, r, a).value;
            || (s.row.pushState == Succeeded && e.row.productId == s.row.productId)
            || Vouches(e.run, e.row.productId)
  {
    hide Position, Faithful, NeverCreated;
  }

  lemma StepKeepsVouched(s: State, a: Action)
    requires Inv(s) && SomeoneVouches(s) && Step(s, a).Some?
    ensures SomeoneVouches(Step(s, a).value)
  {
    hide Act, RunInv;
    var s' := Step(s, a).value;
    match Actor(a)
    case None =>
      if s'.row.pushState == Succeeded {
        var j :| 0 <= j < |s.runs| && Vouches(s.runs[j], s.row.productId);
        assert s'.runs[j] == s.runs[j];
      }
    case Some(i) =>
      var r := s.runs[i];
      assert RunInv(s, r);
      if s'.row.pushState == Succeeded {
        BecomesSucceeded(s, r, a);
        if !Vouches(s'.runs[i], s'.row.productId) {
          var j :| 0 <= j < |s.runs| && Vouches(s.runs[j], s.row.productId);
          if j == i {
            StillVouches(s, r, a);
          }
          assert Vouches(s'.runs[j], s'.row.productId);
        }
      }
  }

  lemma {:induction false} RunKeepsVouched(start: State, actions: seq<Action>)
    requires Init(start) && start.cfg.createsAreTimely && start.cfg.liveIdsDistinct && After(start, actions).Some?
    ensures SomeoneVouches(After(start, actions).value)
    decreases |actions|
  {
    hide Step;
    if actions != [] {
      var shorter := actions[..|actions| - 1];
      RunKeepsVouched(start, shorter);
      RunsKeepInv(start, shorter);
      StepKeepsVouched(After(start, shorter).value, actions[|actions| - 1]);
    }
  }

  /** A row says SUCCEEDED only over a product that some operation created or adopted and last saw hidden. */
  lemma SucceededWasSeenHidden(s: State, start: State, actions: seq<Action>)
    requires Reached(s, start, actions) && s.row.pushState == Succeeded
    ensures exists i :: 0 <= i < |s.runs| && s.runs[i].marked && s.runs[i].captured == s.row.productId
              && !s.runs[i].observed.published && !s.runs[i].observed.visibleToCustomers
  {
    RunKeepsVouched(start, actions);
    var i :| 0 <= i < |s.runs| && Vouches(s.runs[i], s.row.productId);
  }

  /** Merchant and clock act at any time: a product's visibility becomes what the merchant sets, and nothing else moves. */
  lemma MerchantActsAtWill(s: State, product: ProductId, visibility: Visibility, ms: nat)
    requires product < |s.products|
    ensures var next := Step(s, MerchantSets(product, visibility));
            && next.Some?
            && next.value == s.(products := next.value.products)
            && |next.value.products| == |s.products|
            && forall k :: 0 <= k < |s.products| ==>
                 && next.value.products[k].listing == s.products[k].listing
                 && next.value.products[k].visibility == if k == product then visibility else s.products[k].visibility
    ensures Step(s, Tick(ms)) == Some(s.(now := s.now + ms))
  {
  }

  /** Which research decisions are legal: none from a closed status, and never one that claims or reopens. */
  lemma DecisionsAreLegal(s: State, to: Status)
    ensures Step(s, SetStatus(to)).Some?
            <==> && s.row.status != PushedToShopify && s.row.status != Rejected
                 && (|| to == Watching || to == Rejected
                     || (to == Selected && s.row.status != Selected)
                     || (to == Analyzed && s.row.status == New))
    ensures Step(s, SetStatus(to)).Some? ==> Step(s, SetStatus(to)).value == s.(row := s.row.(status := to))
  {
  }

  /**
   * On every reachable row the read-side check and the claim filter agree, except that the
   * filter does not look at the status of an unclaimed row.
   */
  lemma PreCheckAgreesWithClaim(s: State, start: State, actions: seq<Action>, op: OperationId, now: int)
    requires Reached(s, start, actions)
    ensures PreCheck(s.row, op, now, s.cfg.leaseMs)
            <==> ClaimMatches(s.row, op, now, s.cfg.leaseMs)
                 && (s.row.pushState == Idle ==> Pushable(s.row.status))
  {
    ReachedInv(s, start, actions);
    PreCheckVersusClaim(s.row, op, now, s.cfg.leaseMs);
  }

  /** A claim in progress passes to another operation exactly when its lease has run out. */
  lemma TakeoverNeedsAnExpiredLease(s: State, start: State, actions: seq<Action>, op: OperationId, now: int)
    requires Reached(s, start, actions)
    requires s.row.pushState == InProgress && s.row.operationId != Some(op)
    ensures s.row.claimedAt.Some?
    ensures PreCheck(s.row, op, now, s.cfg.leaseMs) <==> now >= s.row.claimedAt.value + s.cfg.leaseMs
    ensures ClaimMatches(s.row, op, now, s.cfg.leaseMs) <==> now >= s.row.claimedAt.value + s.cfg.leaseMs
  {
    ReachedInv(s, start, actions);
  }

  // ---- recovery is always possible ----------------------------------------

  lemma AfterOneMore(s: State, actions: seq<Action>, a: Action)
    ensures After(s, actions + [a])
            == match After(s, actions) case None => None case Some(mid) => Step(mid, a)
  {
    assert (actions + [a])[..|actions|] == actions;
  }

  /** `s'` follows from `s` by some actions. */
  ghost predicate Leads(s: State, s': State) {
    exists actions :: After(s, actions) == Some(s')
  }

  lemma LeadsNowhere(s: State)
    ensures Leads(s, s)
  {
    assert After(s, []) == Some(s);
  }

  lemma LeadsStep(s: State, mid: State, a: Action)
    requires Leads(s, mid) && Step(mid, a).Some?
    ensures Leads(s, Step(mid, a).value)
  {
    var actions :| After(s, actions) == Some(mid);
    AfterOneMore(s, actions, a);
  }

  /** Plays one step of run `i`, whose effect is known. */
  lemma Play(origin: State, s: State, i: nat, a: Action, e: Effect) returns (s': State)
    requires Leads(origin, s) && i < |s.runs| && Actor(a) == Some(i)
    requires Act(s, s.runs[i], a) == Some(e)
    ensures Leads(origin, s')
    ensures s' == State(s.cfg, s.now, e.row, e.products, s.runs[i := e.run],
                        if a.Claim? && e.run.holding then i else s.holder)
  {
    hide Leads, Act;
    s' := Step(s, a).value;
    LeadsStep(origin, s, a);
  }

  /** A new run under `op` may start now. */
  predicate MayStart(s: State, op: OperationId) {
    s.cfg.liveIdsDistinct ==> forall r :: r in s.runs && Live(r) ==> r.op != op
  }

  predicate MayClaim(s: State, op: OperationId) {
    PreCheck(s.row, op, s.now, s.cfg.leaseMs) && ClaimMatches(s.row, op, s.now, s.cfg.leaseMs)
  }

  /** `s'` is `s` with one more run, `r`, and whatever that run did to the row. */
  predicate OneMoreRun(s: State, s': State, r: Run) {
    && s'.cfg == s.cfg && s'.now == s.now
    && s'.runs == s.runs + [r]
    && Owned(s'.row, r.op)
    && s'.row.productId == None
    && r.captured == None && !r.incident
  }

  lemma NewRunClaims(origin: State, s: State, op: OperationId) returns (s': State)
    requires Leads(origin, s) && MayStart(s, op) && MayClaim(s, op)
    ensures Leads(origin, s')
    ensures |s'.runs| == |s.runs| + 1 && var r := s'.runs[|s.runs|]; r.pc == FirstLookup && r.op == op && OneMoreRun(s, s', r)
    ensures s'.products == s.products && s'.row.intent == s.row.intent
    ensures s'.row.claimedAt == Some(s.now)
  {
    hide Leads;
    var i := |s.runs|;
    var r := NewRun(op, s.now);
    var s1 := Step(s, Start(op)).value;
    LeadsStep(origin, s, Start(op));
    var r2 := r.(pc := Claiming);
    var s2 := Play(origin, s1, i, Check(i, true), Effect(r2, s.row, s.products));
    var r3 := r2.(pc := FirstLookup, holding := true);
    s' := Play(origin, s2, i, Claim(i, true), Effect(r3, ClaimSet(s.row, op, s.now), s.products));
  }

  /** A run that finds no product passes the gates and renews its claim. */
  lemma RunRenews(origin: State, s: State, i: nat, d: Decision) returns (s': State)
    requires Leads(origin, s) && i < |s.runs| && s.runs[i].pc == FirstLookup
    requires s.products == [] && RecordMatches(s.row, s.runs[i].op)
    ensures Leads(origin, s')
    ensures var r := s.runs[i];
            var renewed := r.(pc := SecondLookup, decision := d, stamp := s.now, intent := BuildIntent(r.op, d, s.now));
            s' == State(s.cfg, s.now, RecordSet(s.row, s.now, renewed.intent), [], s.runs[i := renewed], s.holder)
  {
    hide Leads;
    var r := s.runs[i];
    var r1 := r.(pc := Analysing);
    var s1 := Play(origin, s, i, Lookup(i), Effect(r1, s.row, []));
    var r2 := r1.(pc := ReadingClock, decision := d);
    var s2 := Play(origin, s1, i, Analyse(i, Some(d)), Effect(r2, s.row, []));
    var r3 := r2.(pc := Recording, stamp := s.now, intent := BuildIntent(r.op, d, s.now));
    var s3 := Play(origin, s2, i, ReadClock(i), Effect(r3, s.row, []));
    var r4 := r3.(pc := SecondLookup);
    s' := Play(origin, s3, i, Record(i), Effect(r4, RecordSet(s.row, s.now, r4.intent), []));
    assert s.runs[i := r1][i := r2][i := r3][i := r4] == s.runs[i := r4];
  }

  /** The second lookup finds nothing either, and createProduct is called. */
  lemma RunCalls(origin: State, s: State, i: nat) returns (s': State)
    requires Leads(origin, s) && i < |s.runs| && s.runs[i].pc == SecondLookup && s.products == []
    ensures Leads(origin, s')
    ensures s' == s.(runs := s.runs[i := s.runs[i].(pc := InFlight, creates := s.runs[i].creates + 1)])
  {
    hide Leads;
    var r := s.runs[i];
    var s1 := Play(origin, s, i, Lookup(i), Effect(r.(pc := Creating), s.row, []));
    s' := Play(origin, s1, i, CallCreate(i), Effect(r.(pc := InFlight, creates := r.creates + 1), s.row, []));
    assert s1.runs[i := s'.runs[i]] == s.runs[i := s'.runs[i]];
  }

  /** A whole run up to the moment createProduct has been called. */
  lemma NewRunCalls(origin: State, s: State, op: OperationId, d: Decision) returns (s': State)
    requires Leads(origin, s) && MayStart(s, op) && MayClaim(s, op) && s.products == []
    ensures Leads(origin, s')
    ensures |s'.runs| == |s.runs| + 1 && var r := s'.runs[|s.runs|];
            r.pc == InFlight && r.op == op && r.stamp == s.now && r.intent.listedPrice == d.price && OneMoreRun(s, s', r)
    ensures s'.products == [] && s'.row.claimedAt == Some(s.now)
  {
    hide Leads;
    var i := |s.runs|;
    var s1 := NewRunClaims(origin, s, op);
    var s2 := RunRenews(origin, s1, i, d);
    s' := RunCalls(origin, s2, i);
  }

  lemma EnforceHides(s: State, r: Run, i: nat, repaired: Visibility) returns (e: Effect)
    requires r.pc == Enforcing && r.captured == Some(0) && |s.products| == 1 && !r.incident && Hidden(repaired)
    ensures Act(s, r, Enforce(i, Some(repaired))) == Some(e)
    ensures e.run == r.(pc := Marking, observed := e.run.observed) && e.row == s.row
    ensures |e.products| == 1 && e.products[0].listing == s.products[0].listing
  {
    e := Act(s, r, Enforce(i, Some(repaired))).value;
  }

  /** From a verified-hidden observation an owner records success and returns. */
  lemma OwnerFinishes(origin: State, s: State, i: nat, repaired: Visibility) returns (s': State)
    requires Leads(origin, s) && i < |s.runs| && s.runs[i].pc == Enforcing
    requires s.runs[i].captured == Some(0) && |s.products| == 1 && !s.runs[i].incident
    requires Owned(s.row, s.runs[i].op) && Hidden(repaired)
    ensures Leads(origin, s')
    ensures s'.row.pushState == Succeeded && s'.row.productId == Some(0)
    ensures |s'.products| == 1 && s'.products[0].listing == s.products[0].listing
    ensures |s'.runs| == |s.runs| && s'.runs[i].pc == Done && s'.runs[i].recovered == s.runs[i].recovered
  {
    hide Leads;
    var r := s.runs[i];
    var e := EnforceHides(s, r, i, repaired);
    var s1 := Play(origin, s, i, Enforce(i, Some(repaired)), e);
    s' := OwnerRecords(origin, s1, i);
  }

  lemma OwnerRecords(origin: State, s: State, i: nat) returns (s': State)
    requires Leads(origin, s) && i < |s.runs| && s.runs[i].pc == Marking && !s.runs[i].incident
    requires s.runs[i].captured == Some(0) && Owned(s.row, s.runs[i].op)
    ensures Leads(origin, s')
    ensures s'.row == SucceededSet(s.row, 0) && s'.products == s.products
    ensures |s'.runs| == |s.runs| && s'.runs[i].pc == Done && s'.runs[i].recovered == s.runs[i].recovered
  {
    hide Leads;
    var r := s.runs[i].(pc := Returning, marked := true);
    var s1 := Play(origin, s, i, Mark(i), Effect(r, SucceededSet(s.row, 0), s.products));
    s' := Play(origin, s1, i, Return(i), Effect(r.(pc := Done), s1.row, s.products));
  }

  /** Once the lease of a claim in progress has run out, a fresh operation may take it. */
  lemma WaitForLease(s: State, op: OperationId) returns (s': State)
    requires Inv(s) && s.row.pushState == InProgress
    requires forall r :: r in s.runs && Live(r) ==> r.op != op
    ensures Leads(s, s') && MayStart(s', op) && MayClaim(s', op)
    ensures s' == s.(now := s'.now)
  {
    hide Leads;
    LeadsNowhere(s);
    var wait := Max(0, s.row.claimedAt.value + s.cfg.leaseMs - s.now);
    s' := Step(s, Tick(wait)).value;
    LeadsStep(s, s, Tick(wait));
  }

  /**
   * No candidate is wedged. From any reachable row left in progress over an existing product,
   * an operation started once the lease has run out can finish the bookkeeping: same product,
   * recorded with the decision it was created from, and nothing new in Shopify.
   */
  lemma RecoveryReconciles(s: State, start: State, actions: seq<Action>, op: OperationId)
    requires Reached(s, start, actions)
    requires s.row.pushState == InProgress && s.products != []
    requires forall r :: r in s.runs && Live(r) ==> r.op != op
    ensures exists s' :: Leads(s, s') && s'.row.pushState == Succeeded && s'.row.productId == Some(0)
              && |s'.products| == 1 && s'.products[0].listing == s.products[0].listing
              && |s'.runs| == |s.runs| + 1 && s'.runs[|s.runs|].pc == Done
              && s'.runs[|s.runs|].recovered == Some(Some(s.products[0].listing))
  {
    hide Leads;
    ReachedInv(s, start, actions);
    var i := |s.runs|;
    var s1 := WaitForLease(s, op);
    var s2 := NewRunClaims(s, s1, op);
    var r := s2.runs[i];
    var r3 := r.(pc := LoadingIntent, captured := Some(0), adopted := true, observed := s2.products[0].visibility);
    var s3 := Play(s, s2, i, Lookup(i), Effect(r3, s2.row, s2.products));
    var r4 := r3.(pc := Enforcing, recovered := Some(s2.row.intent));
    var s4 := Play(s, s3, i, LoadIntent(i), Effect(r4, s2.row, s2.products));
    var s5 := OwnerFinishes(s, s4, i, Visibility(false, false));
  }

  /** And when the dead owner never created anything, such an operation can create the product. */
  lemma RecoveryCreates(s: State, start: State, actions: seq<Action>, op: OperationId, d: Decision)
    requires Reached(s, start, actions)
    requires s.row.pushState == InProgress && s.products == [] && s.cfg.leaseMs > 0
    requires forall r :: r in s.runs && Live(r) ==> r.op != op
    ensures exists s' :: Leads(s, s') && s'.row.pushState == Succeeded && s'.row.productId == Some(0)
              && |s'.products| == 1 && s'.products[0].listing.listedPrice == d.price
              && |s'.runs| == |s.runs| + 1 && s'.runs[|s.runs|].pc == Done
  {
    hide Leads;
    ReachedInv(s, start, actions);
    var i := |s.runs|;
    var s1 := WaitForLease(s, op);
    var s2 := NewRunCalls(s, s1, op, d);
    var hidden := Visibility(false, false);
    var r := s2.runs[i];
    var made := [Product(r.intent, hidden)];
    assert s2.products + made == made;
    var s3 := Play(s, s2, i, CreateLands(i, hidden), Effect(r.(pc := Landed), s2.row, made));
    var r4 := r.(pc := Enforcing, captured := Some(0), observed := hidden);
    var s4 := Play(s, s3, i, CreateReturns(i), Effect(r4, s2.row, made));
    var s5 := OwnerFinishes(s, s4, i, hidden);
  }

  // ---- each environment assumption is needed -------------------------------

  function Untouched(cfg: Config): State {
    State(cfg, 0, FRESH, [], [], 0)
  }

  lemma BothLand(origin: State, s: State, v: Visibility)
    requires Leads(origin, s) && |s.runs| == 2 && s.products == []
    requires s.runs[0].pc == InFlight && s.runs[1].pc == InFlight
    requires s.cfg.createsAreTimely ==>
               s.now < s.runs[0].stamp + s.cfg.leaseMs && s.now < s.runs[1].stamp + s.cfg.leaseMs
    ensures exists s' :: Leads(origin, s') && |s'.products| == 2
  {
    hide Leads;
    var first := [Product(s.runs[1].intent, v)];
    assert s.products + first == first;
    var s1 := Play(origin, s, 1, CreateLands(1, v), Effect(s.runs[1].(pc := Landed), s.row, first));
    var second := first + [Product(s.runs[0].intent, v)];
    var s2 := Play(origin, s1, 0, CreateLands(0, v), Effect(s.runs[0].(pc := Landed), s.row, second));
  }

  /** A create that takes effect after its renewed lease ran out can be the second one. */
  lemma LateCreateDuplicates(d: Decision)
    ensures exists s' :: Leads(Untouched(Config(10, false, true)), s') && |s'.products| == 2
  {
    hide Leads;
    var origin := Untouched(Config(10, false, true));
    LeadsNowhere(origin);
    var s1 := NewRunCalls(origin, origin, 0, d);
    var s2 := Step(s1, Tick(10)).value;
    LeadsStep(origin, s1, Tick(10));
    assert s2.runs == s1.runs && s2.runs == [s1.runs[0]];
    var s3 := NewRunCalls(origin, s2, 1, d);
    BothLand(origin, s3, Visibility(false, false));
  }

  /** Two live runs under one operation id can both create. */
  lemma SharedOperationIdDuplicates(d: Decision)
    ensures exists s' :: Leads(Untouched(Config(10, true, false)), s') && |s'.products| == 2
  {
    hide Leads;
    var origin := Untouched(Config(10, true, false));
    LeadsNowhere(origin);
    var s1 := NewRunCalls(origin, origin, 0, d);
    assert s1.runs == [s1.runs[0]];
    var s2 := NewRunCalls(origin, s1, 0, d);
    assert s2.runs[0] == s1.runs[0];
    BothLand(origin, s2, Visibility(false, false));
  }

  // ---- the status is not what protects the candidate -----------------------

  /**
   * A candidate rejected between the eligibility read and the claim is claimed all the same:
   * the claim filter never looks at the status.
   */
  lemma RejectionDoesNotStopAClaim(cfg: Config)
    ensures exists s' :: Leads(Untouched(cfg), s') && s'.row.status == Rejected
              && s'.runs != [] && s'.runs[0].pc == FirstLookup && Owned(s'.row, s'.runs[0].op)
  {
    hide Leads, Step, Act;
    var origin := Untouched(cfg);
    var s1 := StartsFirstRun(cfg);
    var s2 := PassesCheck(origin, s1);
    var s3 := IsRejected(origin, s2);
    var s4 := ClaimsAnyway(origin, s3, s2.runs[0]);
  }

  lemma StartsFirstRun(cfg: Config) returns (s: State)
    ensures Leads(Untouched(cfg), s) && s == Untouched(cfg).(runs := [NewRun(0, 0)])
  {
    hide Leads;
    var origin := Untouched(cfg);
    LeadsNowhere(origin);
    s := Step(origin, Start(0)).value;
    LeadsStep(origin, origin, Start(0));
  }

  lemma PassesCheck(origin: State, s: State) returns (s': State)
    requires Leads(origin, s) && s.runs == [NewRun(0, 0)] && s.row == FRESH
    ensures Leads(origin, s') && s' == s.(runs := [NewRun(0, 0).(pc := Claiming)])
  {
    hide Leads;
    s' := Play(origin, s, 0, Check(0, true), Effect(NewRun(0, 0).(pc := Claiming), s.row, s.products));
  }

  lemma IsRejected(origin: State, s: State) returns (s': State)
    requires Leads(origin, s) && s.row == FRESH
    ensures Leads(origin, s') && s' == s.(row := FRESH.(status := Rejected))
  {
    hide Leads;
    s' := Step(s, SetStatus(Rejected)).value;
    LeadsStep(origin, s, SetStatus(Rejected));
  }

  lemma ClaimsAnyway(origin: State, s: State, r: Run) returns (s': State)
    requires Leads(origin, s) && s.runs == [r] && r.pc == Claiming
    requires s.row.productId == None && s.row.pushState == Idle
    ensures Leads(origin, s') && s'.row.status == s.row.status
    ensures s'.runs == [r.(pc := FirstLookup, holding := true)] && Owned(s'.row, r.op)
  {
    hide Leads;
    var claimed := r.(pc := FirstLookup, holding := true);
    s' := Play(origin, s, 0, Claim(0, true), Effect(claimed, ClaimSet(s.row, r.op, r.startedAt), s.products));
  }

  /** PUSHED_TO_SHOPIFY is not absorbing, yet a pushed candidate stays unclaimable without it. */
  lemma StatusIsNotAbsorbing(s: State, start: State, actions: seq<Action>, op: OperationId, now: int)
    requires Reached(s, start, actions) && s.row.pushState == Succeeded
    ensures var s' := Step(s, PersistAnalysis).value;
            && s'.row.status == Analyzed
            && !CanPushCandidate(s'.row) && !ClaimMatches(s'.row, op, now, s'.cfg.leaseMs)
  {
    ReachedInv(s, start, actions);
  }
}
