/**
 * The push-as-draft protocol as a step relation.
 *
 * Any number of push runs work on one candidate row and on the Shopify products carrying the
 * candidate's identity tag. Every database write and every port call is one atomic step. A run
 * can fail at any port call, or its process can die at any point.
 *
 * Nondeterminism is resolved by the action, so `Step` is a function and a run of the whole
 * system is a sequence of actions.
 */
module PushProtocol {
  import opened Prelude
  import opened CandidateRow

  /** What Shopify reports about a product. */
  datatype Visibility = Visibility(published: bool, visibleToCustomers: bool)

  predicate Hidden(v: Visibility) {
    !v.published && !v.visibleToCustomers
  }

  /** A product carrying the candidate's tag. `listing` is the decision it was created from. */
  datatype Product = Product(listing: Intent, visibility: Visibility)

  datatype Pc =
    // before the claim
    | Checking | Claiming
    // inside the claim
    | FirstLookup | Analysing | ReadingClock | Recording | SecondLookup | Creating
    | InFlight            // createProduct called, no effect yet
    | Landed              // the product exists, the call has not returned
    | LoadingIntent | Enforcing | Marking | Returning | Releasing
    // finished
    | Refused             // before or at the claim, nothing held
    | Released            // failed inside the claim with no product seen, claim given back
    | Kept                // failed with a product seen: the claim is deliberately kept
    | Aborted             // the process died, or a port outside the error handler threw
    | Done

  /** The decision an analysis arrives at when every gate passes. */
  datatype Decision = Decision(price: int, hash: string, cost: Option<int>)

  const NO_DECISION: Decision := Decision(0, "", None)

  datatype Run = Run(
    op: OperationId,
    startedAt: int,
    pc: Pc,
    stamp: int,                        // the clock read used for the renewal
    decision: Decision,                // what the gates approved
    intent: Intent,                    // what it freezes
    captured: Option<ProductId>,       // shopifyProductId in the outer function
    adopted: bool,                     // reconciled rather than created
    recovered: Option<Option<Intent>>, // what a reconciliation loaded
    observed: Visibility,
    incident: bool,
    creates: nat,                      // createProduct calls issued
    holding: bool,                     // took the claim and has not released it
    marked: bool,                      // its own SUCCEEDED write matched
    gated: bool)                       // a gate, or the renewal, refused it

  /** The lease, and the environment assumptions that can be switched off. */
  datatype Config = Config(leaseMs: nat, createsAreTimely: bool, liveIdsDistinct: bool)

  datatype State = State(
    cfg: Config,
    now: int,
    row: Row,
    products: seq<Product>,  // every product ever created with the tag; the id is the position
    runs: seq<Run>,
    holder: nat)             // the run that took the claim last

  datatype Action =
    | Tick(ms: nat)
    | Start(op: OperationId)
    | Check(i: nat, labelled: bool)
    | Claim(i: nat, reread: bool)
    | Lookup(i: nat)
    | Analyse(i: nat, decision: Option<Decision>)
    | ReadClock(i: nat)
    | Record(i: nat)
    | CallCreate(i: nat)
    | CreateLands(i: nat, visibility: Visibility)
    | CreateReturns(i: nat)
    | LoadIntent(i: nat)
    | Enforce(i: nat, repaired: Option<Visibility>)
    | Mark(i: nat)
    | Return(i: nat)
    | Release(i: nat)
    | PortFails(i: nat)
    | Crash(i: nat)
    // the row's and the product's other writers
    | SetStatus(to: Status)
    | PersistAnalysis
    | MerchantSets(product: ProductId, visibility: Visibility)

  // ---- steps ---------------------------------------------------------------

  predicate Finished(pc: Pc) {
    pc.Refused? || pc.Released? || pc.Kept? || pc.Aborted? || pc.Done?
  }

  predicate Live(r: Run) {
    !Finished(r.pc)
  }

  /** What one step of a run does: to itself, to the row and to the products. */
  datatype Effect = Effect(run: Run, row: Row, products: seq<Product>)

  function Quietly(s: State, r: Run): Option<Effect> {
    Some(Effect(r, s.row, s.products))
  }

  function NewRun(op: OperationId, now: int): Run {
    Run(op, now, Checking, 0, NO_DECISION, BuildIntent(op, NO_DECISION, now), None, false, None,
        Visibility(false, false), false, 0, false, false, false)
  }

  function BuildIntent(op: OperationId, d: Decision, now: int): Intent {
    Intent(op, d.price, d.hash, d.cost, now)
  }

  /** Research decisions legal from each status. */
  predicate CanTransition(from: Status, to: Status) {
    match from
    case New => to == Analyzed || to == Watching || to == Selected || to == Rejected
    case Analyzed => to == Watching || to == Selected || to == Rejected
    case Watching => to == Watching || to == Selected || to == Rejected
    case Selected => to == Watching || to == Rejected
    case PushedToShopify => false
    case Rejected => false
  }

  /** Steps 1 to 3: eligibility from a plain read, then the atomic claim. */
  function ActBefore(s: State, r: Run, a: Action): Option<Effect> {
    match (a, r.pc)
    case (Check(_, labelled), Checking) =>
      var passes := PreCheck(s.row, r.op, r.startedAt, s.cfg.leaseMs) && labelled;
      Quietly(s, r.(pc := if passes then Claiming else Refused))
    case (Claim(_, reread), Claiming) =>
      if ClaimMatches(s.row, r.op, r.startedAt, s.cfg.leaseMs) then
        // Stamped with the operation's start. Re-reading the row afterwards happens outside
        // the error handler, so a failure there leaves the claim taken.
        Some(Effect(r.(pc := if reread then FirstLookup else Aborted, holding := true),
                    ClaimSet(s.row, r.op, r.startedAt), s.products))
      else Quietly(s, r.(pc := Refused))
    case _ => None
  }

  /** Steps 4 to 8c: lookup, analysis and gates, the renewal, the second lookup. */
  function ActGates(s: State, r: Run, a: Action): Option<Effect> {
    match (a, r.pc)
    case (Lookup(_), FirstLookup) => ActLookup(s, r, Analysing)
    case (Lookup(_), SecondLookup) => ActLookup(s, r, Creating)
    case (Analyse(_, None), Analysing) => Quietly(s, r.(pc := Releasing, gated := true))
    case (Analyse(_, Some(d)), Analysing) => Quietly(s, r.(pc := ReadingClock, decision := d))
    case (ReadClock(_), ReadingClock) =>
      Quietly(s, r.(pc := Recording, stamp := s.now, intent := BuildIntent(r.op, r.decision, s.now)))
    case (Record(_), Recording) =>
      if RecordMatches(s.row, r.op) then
        Some(Effect(r.(pc := SecondLookup), RecordSet(s.row, r.stamp, r.intent), s.products))
      else Quietly(s, r.(pc := Releasing, gated := true))
    case _ => None
  }

  function ActLookup(s: State, r: Run, next: Pc): Option<Effect> {
    if s.products == [] then Quietly(s, r.(pc := next))
    else Quietly(s, r.(pc := LoadingIntent, captured := Some(0), adopted := true,
                       observed := s.products[0].visibility))
  }

  /** Step 9: the one call that creates. */
  function ActCreate(s: State, r: Run, a: Action): Option<Effect> {
    match (a, r.pc)
    case (CallCreate(_), Creating) => Quietly(s, r.(pc := InFlight, creates := r.creates + 1))
    case (CreateLands(_, visibility), InFlight) =>
      if s.cfg.createsAreTimely && s.now >= r.stamp + s.cfg.leaseMs then None
      else Some(Effect(r.(pc := Landed), s.row, s.products + [Product(r.intent, visibility)]))
    case (CreateReturns(_), Landed) =>
      if s.products == [] then None
      else
        var made := |s.products| - 1;
        Quietly(s, r.(pc := Enforcing, captured := Some(made), observed := s.products[made].visibility))
    case _ => None
  }

  /** Steps 10 and 11: load what a crashed run froze, verify hidden, record the outcome. */
  function ActFinish(s: State, r: Run, a: Action): Option<Effect> {
    match (a, r.pc)
    case (LoadIntent(_), LoadingIntent) => Quietly(s, r.(pc := Enforcing, recovered := Some(s.row.intent)))
    case (Enforce(_, repaired), Enforcing) =>
      if Hidden(r.observed) then Quietly(s, r.(pc := Marking))
      else ActRepair(s, r, repaired)
    case (Mark(_), Marking) =>
      if r.captured == None then None
      else if r.incident then
        Some(Effect(r.(pc := Kept), IncidentSet(s.row, r.op, r.captured.value), s.products))
      else if Owned(s.row, r.op) then
        Some(Effect(r.(pc := Returning, marked := true), SucceededSet(s.row, r.captured.value), s.products))
      else Quietly(s, r.(pc := Kept))
    case (Return(_), Returning) => Quietly(s, r.(pc := Done))
    case _ => None
  }

  /** forceHidden: repair, then read the truth back; `None` when the call throws. */
  function ActRepair(s: State, r: Run, repaired: Option<Visibility>): Option<Effect> {
    match repaired
    case None => Quietly(s, r.(pc := Marking, incident := true))
    case Some(v) =>
      if r.captured == None || r.captured.value >= |s.products| then None
      else
        var k := r.captured.value;
        Some(Effect(r.(pc := Marking, observed := v, incident := !Hidden(v)), s.row,
                    s.products[k := s.products[k].(visibility := v)]))
  }

  /** The error handler, and death. */
  function ActFail(s: State, r: Run, a: Action): Option<Effect> {
    match a
    case Release(_) =>
      if r.pc != Releasing then None
      else Some(Effect(r.(pc := Released, holding := false),
                       if Owned(s.row, r.op) then ReleaseSet(s.row) else s.row, s.products))
    case PortFails(_) =>
      if !Live(r) then None
      else if r.pc == Checking || r.pc == Claiming then Quietly(s, r.(pc := Refused))
      else if r.pc == Releasing then Quietly(s, r.(pc := Aborted))
      else Quietly(s, r.(pc := if r.captured == None then Releasing else Kept))
    case Crash(_) => if Live(r) then Quietly(s, r.(pc := Aborted)) else None
    case _ => None
  }

  /** The run an action belongs to, if any. */
  function Actor(a: Action): Option<nat> {
    match a
    case Check(i, _) => Some(i)
    case Claim(i, _) => Some(i)
    case Lookup(i) => Some(i)
    case Analyse(i, _) => Some(i)
    case ReadClock(i) => Some(i)
    case Record(i) => Some(i)
    case CallCreate(i) => Some(i)
    case CreateLands(i, _) => Some(i)
    case CreateReturns(i) => Some(i)
    case LoadIntent(i) => Some(i)
    case Enforce(i, _) => Some(i)
    case Mark(i) => Some(i)
    case Return(i) => Some(i)
    case Release(i) => Some(i)
    case PortFails(i) => Some(i)
    case Crash(i) => Some(i)
    case _ => None
  }

  /** One step of a run, by the phase its action belongs to. */
  function Act(s: State, r: Run, a: Action): Option<Effect> {
    if a.Check? || a.Claim? then ActBefore(s, r, a)
    else if a.Lookup? || a.Analyse? || a.ReadClock? || a.Record? then ActGates(s, r, a)
    else if a.CallCreate? || a.CreateLands? || a.CreateReturns? then ActCreate(s, r, a)
    else if a.LoadIntent? || a.Enforce? || a.Mark? || a.Return? then ActFinish(s, r, a)
    else ActFail(s, r, a)
  }

  /** The row's and the product's other writers, the clock, and new runs. */
  function Surroundings(s: State, a: Action): Option<State> {
    match a
    case Tick(ms) => Some(s.(now := s.now + ms))
    case Start(op) =>
      if s.cfg.liveIdsDistinct && (exists r :: r in s.runs && Live(r) && r.op == op) then None
      else Some(s.(runs := s.runs + [NewRun(op, s.now)]))
    case SetStatus(to) =>
      if CanTransition(s.row.status, to) then Some(s.(row := s.row.(status := to))) else None
    case PersistAnalysis =>
      // An analysis prepared while the candidate was NEW may be persisted at any later moment,
      // with no filter on the status. A push's own persist has the same effect on the row.
      Some(s.(row := s.row.(status := Analyzed)))
    case MerchantSets(product, visibility) =>
      if product >= |s.products| then None
      else Some(s.(products := s.products[product := s.products[product].(visibility := visibility)]))
    case _ => None
  }

  /** One step of the whole system; `None` when the action is not enabled. */
  function Step(s: State, a: Action): Option<State> {
    match Actor(a)
    case None => Surroundings(s, a)
    case Some(i) =>
      if i >= |s.runs| then None
      else
        match Act(s, s.runs[i], a)
        case None => None
        case Some(e) =>
          Some(State(s.cfg, s.now, e.row, e.products, s.runs[i := e.run],
                     if a.Claim? && e.run.holding then i else s.holder))
  }

  predicate Init(s: State) {
    s.row == FRESH && s.products == [] && s.runs == []
  }

  /** The state after a sequence of actions, `None` if one of them was not enabled. */
  function After(s: State, actions: seq<Action>): Option<State>
    decreases |actions|
  {
    if actions == [] then Some(s)
    else
      match After(s, actions[..|actions| - 1])
      case None => None
      case Some(mid) => Step(mid, actions[|actions| - 1])
  }
}
