/** The single-use preview store and the apply lock: module-level state, changed in place. */
module PreviewStore {
  import opened Prelude
  import PlanHash
  import Text

  const PREVIEW_TTL_MS: nat := 600000

  type PreviewId = string

  /** The two hashes are taken to be injective, so a record holds what was hashed. */
  datatype Record = Record(rules: string, writes: seq<PlanHash.Write>, store: string, expiresAt: int, applied: bool)

  datatype Refusal = Required | NotFound | AlreadyApplied | Expired | Stale

  type Previews = map<PreviewId, Record>

  predicate Kept(record: Record, now: int) {
    record.expiresAt > now && !record.applied
  }

  function Pruned(m: Previews, now: int): Previews {
    map id | id in m && Kept(m[id], now) :: m[id]
  }

  function Recorded(m: Previews, id: PreviewId, rules: string, writes: seq<PlanHash.Write>, store: string, now: int): Previews {
    Pruned(m, now)[id := Record(rules, writes, store, now + PREVIEW_TTL_MS, false)]
  }

  predicate IsBlankId(id: PreviewId) {
    Text.Trim(id) == ""
  }

  function Find(m: Previews, id: Option<PreviewId>, store: string, now: int): Result<Record, Refusal> {
    if id == None || IsBlankId(id.value) then Err(Required)
    else if id.value !in m then Err(NotFound)
    else
      var record := m[id.value];
      if record.applied then Err(AlreadyApplied)
      else if record.expiresAt <= now then Err(Expired)
      else if record.store != store then Err(Stale)
      else Ok(record)
  }

  /** An expired record is deleted by the attempt to use it. */
  function AfterFind(m: Previews, id: Option<PreviewId>, store: string, now: int): Previews {
    if Find(m, id, store, now) == Err(Expired) then m - {id.value} else m
  }

  function Consume(m: Previews, id: PreviewId, rules: string, writes: seq<PlanHash.Write>): Result<Record, Refusal> {
    if id !in m || m[id].applied then Err(NotFound)
    else if m[id].rules != rules || m[id].writes != writes then Err(Stale)
    else Ok(m[id].(applied := true))
  }

  function AfterConsume(m: Previews, id: PreviewId, rules: string, writes: seq<PlanHash.Write>): Previews {
    match Consume(m, id, rules, writes)
    case Ok(record) => m[id := record]
    case Err(_) => m
  }

  class Store {
    var previews: Previews

    constructor ()
      ensures previews == map[]
    {
      previews := map[];
    }

    /** Drops expired and used records. */
    method Prune(now: int)
      modifies this
      ensures previews == Pruned(old(previews), now)
      ensures forall id :: id in previews <==>
                id in old(previews) && old(previews)[id].expiresAt > now && !old(previews)[id].applied
      ensures forall id :: id in previews ==> previews[id] == old(previews)[id]
    {
      var todo := previews.Keys;
      while todo != {}
        invariant todo <= old(previews).Keys
        invariant previews == map id | id in old(previews) && (id in todo || Kept(old(previews)[id], now)) :: old(previews)[id]
        decreases |todo|
      {
        var id :| id in todo;
        if previews[id].expiresAt <= now || previews[id].applied {
          previews := previews - {id};
        }
        todo := todo - {id};
      }
    }

    method RecordPreview(id: PreviewId, rules: string, writes: seq<PlanHash.Write>, store: string, now: int)
      modifies this
      ensures previews == Recorded(old(previews), id, rules, writes, store, now)
    {
      Prune(now);
      previews := previews[id := Record(rules, writes, store, now + PREVIEW_TTL_MS, false)];
    }

    method FindApplicable(id: Option<PreviewId>, store: string, now: int) returns (r: Result<Record, Refusal>)
      modifies this
      ensures r == Find(old(previews), id, store, now)
      ensures previews == AfterFind(old(previews), id, store, now)
    {
      if id == None || IsBlankId(id.value) { return Err(Required); }
      if id.value !in previews { return Err(NotFound); }
      var record := previews[id.value];
      if record.applied { return Err(AlreadyApplied); }
      if record.expiresAt <= now {
        previews := previews - {id.value};
        return Err(Expired);
      }
      if record.store != store { return Err(Stale); }
      r := Ok(record);
    }

    method ConsumePreview(id: PreviewId, rules: string, writes: seq<PlanHash.Write>) returns (r: Result<Record, Refusal>)
      modifies this
      ensures r == Consume(old(previews), id, rules, writes)
      ensures previews == AfterConsume(old(previews), id, rules, writes)
      ensures r.Ok? ==> Consume(previews, id, rules, writes) == Err(NotFound)
      ensures r == Err(NotFound) <==> id !in old(previews) || old(previews)[id].applied
      ensures r.Err? ==> previews == old(previews)
    {
      if id !in previews || previews[id].applied { return Err(NotFound); }
      if previews[id].rules != rules { return Err(Stale); }
      if previews[id].writes != writes { return Err(Stale); }
      previews := previews[id := previews[id].(applied := true)];
      r := Ok(previews[id]);
    }
  }

  class Lock {
    var active: Option<nat>

    constructor ()
      ensures active == None
    {
      active := None;
    }

    method Acquire(run: nat) returns (ok: bool)
      modifies this
      ensures ok == (old(active) == None)
      ensures active == if ok then Some(run) else old(active)
    {
      ok := active == None;
      if ok { active := Some(run); }
    }

    method Release()
      modifies this
      ensures active == None
    {
      active := None;
    }
  }
}

/**
 * Preview, apply and webhook requests interleaved at their await points.
 *
 * Finding a preview is one step; the plan is then re-prepared, which may take any time and give
 * any result; consuming the preview and taking the lock happen together when it arrives.
 */
module PreviewProtocol {
  import opened Prelude
  import opened PreviewStore
  import PlanHash
  import Plan
  import Sorting
  import StableJson
  import StableJsonProofs
  import Text

  datatype Prepared = Prepared(rules: string, actions: seq<Plan.Action>)

  function Writes(p: Prepared): seq<PlanHash.Write> {
    PlanHash.Canonical(p.actions, StableJson.Leq)
  }

  datatype Pc = Preparing | Executing | Finished | Refused

  /** An apply in progress; `preview` is absent for a webhook-triggered run. The store is the one it was started for. */
  datatype Request = Request(pc: Pc, preview: Option<PreviewId>, store: string, foundAt: int, executed: Option<Prepared>)

  /** What was shown, when, and for which store. */
  datatype Shown = Shown(prepared: Prepared, at: int, store: string)

  datatype State = State(
    now: int,
    previews: Previews,
    issued: map<PreviewId, Shown>,    // every preview ever shown
    active: Option<nat>,
    requests: seq<Request>,
    // what has happened so far, read by no step
    shownAt: Option<int>,             // when a preview was last shown
    triedAt: map<PreviewId, int>,     // when an apply last named this preview
    spent: set<PreviewId>)            // previews that were consumed

  datatype Action =
    | Tick(ms: nat)
    | ShowPreview(id: PreviewId, prepared: Prepared, store: string)
    | StartApply(requested: Option<PreviewId>, store: string)
    | StartWebhook(store: string)
    | Arrive(i: nat, outcome: Option<Prepared>, writesAllowed: bool)
    | Complete(i: nat)

  function WithRequest(s: State, r: Request): State {
    s.(requests := s.requests + [r])
  }

  /** executePreparedPlan up to its first await: refuse, or take the lock and begin. */
  function Begin(s: State, i: nat, prepared: Prepared, writesAllowed: bool): State
    requires i < |s.requests|
  {
    if !writesAllowed || s.active.Some? then s.(requests := s.requests[i := s.requests[i].(pc := Refused)])
    else s.(active := Some(i), requests := s.requests[i := s.requests[i].(pc := Executing, executed := Some(prepared))])
  }

  function Consumed(s: State, id: PreviewId, p: Prepared): State {
    s.(previews := AfterConsume(s.previews, id, p.rules, Writes(p)), spent := s.spent + {id})
  }

  function ArriveStep(s: State, i: nat, prepared: Option<Prepared>, writesAllowed: bool): State
    requires i < |s.requests|
  {
    match prepared
    case None => s.(requests := s.requests[i := s.requests[i].(pc := Refused)])
    case Some(p) =>
      match s.requests[i].preview
      case None => Begin(s, i, p, writesAllowed)
      case Some(id) =>
        if Consume(s.previews, id, p.rules, Writes(p)).Err? then s.(requests := s.requests[i := s.requests[i].(pc := Refused)])
        else Begin(Consumed(s, id, p), i, p, writesAllowed)
  }

  function Step(s: State, a: Action): Option<State> {
    match a
    case Tick(ms) => Some(s.(now := s.now + ms))
    case ShowPreview(id, prepared, store) =>
      // Identifiers are random: never blank and never repeated.
      if id in s.issued || IsBlankId(id) then None
      else Some(s.(previews := Recorded(s.previews, id, prepared.rules, Writes(prepared), store, s.now),
                   issued := s.issued[id := Shown(prepared, s.now, store)], shownAt := Some(s.now)))
    case StartApply(id, store) =>
      var after := s.(previews := AfterFind(s.previews, id, store, s.now),
                      triedAt := if id == None then s.triedAt else s.triedAt[id.value := s.now]);
      Some(WithRequest(after, Request(if Find(s.previews, id, store, s.now).Ok? then Preparing else Refused, id, store, s.now, None)))
    case StartWebhook(store) => Some(WithRequest(s, Request(Preparing, None, store, s.now, None)))
    case Arrive(i, prepared, writesAllowed) =>
      if i >= |s.requests| || s.requests[i].pc != Preparing then None else Some(ArriveStep(s, i, prepared, writesAllowed))
    case Complete(i) =>
      if i >= |s.requests| || s.requests[i].pc != Executing then None
      else Some(s.(active := None, requests := s.requests[i := s.requests[i].(pc := Finished)]))
  }

  predicate Init(s: State) {
    && s.previews == map[] && s.issued == map[] && s.active == None && s.requests == []
    && s.shownAt == None && s.triedAt == map[] && s.spent == {}
  }

  function Run(s: State, actions: seq<Action>): Option<State>
    decreases |actions|
  {
    if actions == [] then Some(s)
    else
      match Run(s, actions[..|actions| - 1])
      case None => None
      case Some(mid) => Step(mid, actions[|actions| - 1])
  }

  // ---- what every reachable state satisfies ------------------------------------------

  /** A manual apply that got as far as executing. */
  predicate AppliedFrom(r: Request, id: PreviewId) {
    r.preview == Some(id) && r.executed.Some?
  }

  /** A preview still usable has been used by nobody and says what was shown. */
  predicate RecordSound(s: State, id: PreviewId) {
    id in s.previews ==>
      && id in s.issued
      && s.previews[id].rules == s.issued[id].prepared.rules
      && s.previews[id].writes == Writes(s.issued[id].prepared)
      && s.previews[id].store == s.issued[id].store
      && s.previews[id].expiresAt == s.issued[id].at + PREVIEW_TTL_MS
      && (!s.previews[id].applied ==> forall i :: 0 <= i < |s.requests| ==> !AppliedFrom(s.requests[i], id))
  }

  predicate RequestSound(s: State, i: nat)
    requires i < |s.requests|
  {
    var r := s.requests[i];
    && (r.pc == Executing <==> s.active == Some(i))
    && (r.pc == Preparing || r.pc == Refused ==> r.executed == None)
    && (r.preview.Some? && (r.pc == Preparing || r.executed.Some?) ==>
          && r.preview.value in s.issued
          && r.store == s.issued[r.preview.value].store
          && r.foundAt < s.issued[r.preview.value].at + PREVIEW_TTL_MS)
    && (r.preview.Some? && r.executed.Some? ==>
          && r.executed.value.rules == s.issued[r.preview.value].prepared.rules
          && Writes(r.executed.value) == Writes(s.issued[r.preview.value].prepared))
  }

  ghost predicate OneApplyEach(s: State) {
    forall i, j, id :: 0 <= i < j < |s.requests| && AppliedFrom(s.requests[i], id) ==> !AppliedFrom(s.requests[j], id)
  }

  ghost predicate Inv(s: State) {
    && (s.active.Some? ==> s.active.value < |s.requests|)
    && (forall id :: RecordSound(s, id))
    && (forall i :: 0 <= i < |s.requests| ==> RequestSound(s, i))
    && OneApplyEach(s)
  }

  lemma ShowKeepsInv(s: State, id: PreviewId, prepared: Prepared, store: string)
    requires Inv(s) && id !in s.issued && !IsBlankId(id)
    ensures Inv(Step(s, ShowPreview(id, prepared, store)).value)
  {
    hide Writes;
    var s' := Step(s, ShowPreview(id, prepared, store)).value;
    forall k ensures RecordSound(s', k) {
      assert RecordSound(s, k);
      forall i | 0 <= i < |s.requests| ensures k == id ==> !AppliedFrom(s.requests[i], k) {
        assert RequestSound(s, i);
      }
    }
    forall i | 0 <= i < |s'.requests| ensures RequestSound(s', i) {
      assert RequestSound(s, i);
    }
  }

  /** Growing the list by a request that has executed nothing. */
  lemma NewRequestKeepsInv(s: State, previews: Previews, triedAt: map<PreviewId, int>, r: Request)
    requires Inv(s) && r.executed == None && (r.pc == Preparing || r.pc == Refused)
    requires forall id :: id in previews ==> id in s.previews && previews[id] == s.previews[id]
    requires r.preview.Some? && r.pc == Preparing ==>
               && r.preview.value in s.previews && r.foundAt < s.previews[r.preview.value].expiresAt
               && r.store == s.previews[r.preview.value].store
    ensures Inv(WithRequest(s.(previews := previews, triedAt := triedAt), r))
  {
    hide Writes;
    var s' := WithRequest(s.(previews := previews, triedAt := triedAt), r);
    forall id ensures RecordSound(s', id) {
      assert RecordSound(s, id);
    }
    forall i | 0 <= i < |s'.requests| ensures RequestSound(s', i) {
      if i < |s.requests| {
        assert RequestSound(s, i);
      } else if r.preview.Some? {
        assert RecordSound(s, r.preview.value);
      }
    }
  }

  /** Giving up, or finishing, releases at most one's own lock and changes no record. */
  lemma StopKeepsInv(s: State, i: nat, stopped: Request)
    requires Inv(s) && i < |s.requests|
    requires stopped == s.requests[i].(pc := stopped.pc)
    requires (s.requests[i].pc == Preparing && stopped.pc == Refused) || (s.requests[i].pc == Executing && stopped.pc == Finished)
    ensures Inv(s.(active := if s.requests[i].pc == Executing then None else s.active, requests := s.requests[i := stopped]))
  {
    hide Writes;
    var s' := s.(active := if s.requests[i].pc == Executing then None else s.active, requests := s.requests[i := stopped]);
    assert RequestSound(s, i);
    forall id ensures RecordSound(s', id) {
      assert RecordSound(s, id);
    }
    forall k | 0 <= k < |s'.requests| ensures RequestSound(s', k) {
      assert RequestSound(s, k);
    }
  }

  /** Marking a preview used keeps every record honest even when nothing is executed afterwards. */
  lemma ConsumeKeepsInv(s: State, id: PreviewId, p: Prepared)
    requires Inv(s) && Consume(s.previews, id, p.rules, Writes(p)).Ok?
    ensures Inv(Consumed(s, id, p))
  {
    hide Writes;
    var s' := Consumed(s, id, p);
    forall k ensures RecordSound(s', k) {
      assert RecordSound(s, k);
    }
    forall i | 0 <= i < |s'.requests| ensures RequestSound(s', i) {
      assert RequestSound(s, i);
    }
  }

  lemma ExecuteKeepsInv(s: State, i: nat, p: Prepared)
    requires Inv(s) && i < |s.requests| && s.requests[i].pc == Preparing && s.active == None
    requires s.requests[i].preview.Some? ==>
               var id := s.requests[i].preview.value;
               && id in s.issued
               && p.rules == s.issued[id].prepared.rules && Writes(p) == Writes(s.issued[id].prepared)
               && (id in s.previews ==> s.previews[id].applied)
               && forall k :: 0 <= k < |s.requests| ==> !AppliedFrom(s.requests[k], id)
    ensures Inv(s.(active := Some(i), requests := s.requests[i := s.requests[i].(pc := Executing, executed := Some(p))]))
  {
    hide Writes;
    var s' := s.(active := Some(i), requests := s.requests[i := s.requests[i].(pc := Executing, executed := Some(p))]);
    assert RequestSound(s, i);
    forall id ensures RecordSound(s', id) {
      assert RecordSound(s, id);
    }
    forall k | 0 <= k < |s'.requests| ensures RequestSound(s', k) {
      assert RequestSound(s, k);
    }
  }

  lemma BeginKeepsInv(s: State, i: nat, p: Prepared, writesAllowed: bool)
    requires Inv(s) && i < |s.requests| && s.requests[i].pc == Preparing
    requires s.requests[i].preview.Some? ==>
               var id := s.requests[i].preview.value;
               && id in s.issued
               && p.rules == s.issued[id].prepared.rules && Writes(p) == Writes(s.issued[id].prepared)
               && (id in s.previews ==> s.previews[id].applied)
               && forall k :: 0 <= k < |s.requests| ==> !AppliedFrom(s.requests[k], id)
    ensures Inv(Begin(s, i, p, writesAllowed))
  {
    hide Writes, Inv;
    if !writesAllowed || s.active.Some? {
      StopKeepsInv(s, i, s.requests[i].(pc := Refused));
    } else {
      ExecuteKeepsInv(s, i, p);
    }
  }

  lemma ArriveKeepsInv(s: State, i: nat, prepared: Option<Prepared>, writesAllowed: bool)
    requires Inv(s) && i < |s.requests| && s.requests[i].pc == Preparing
    ensures Inv(ArriveStep(s, i, prepared, writesAllowed))
  {
    hide Writes, Begin;
    StopKeepsInv(s, i, s.requests[i].(pc := Refused));
    if prepared.Some? {
      var p := prepared.value;
      match s.requests[i].preview {
        case None => BeginKeepsInv(s, i, p, writesAllowed);
        case Some(id) =>
          if Consume(s.previews, id, p.rules, Writes(p)).Ok? {
            assert RecordSound(s, id);
            ConsumeKeepsInv(s, id, p);
            BeginKeepsInv(Consumed(s, id, p), i, p, writesAllowed);
          }
      }
    }
  }

  lemma StepKeepsInv(s: State, a: Action)
    requires Inv(s) && Step(s, a).Some?
    ensures Inv(Step(s, a).value)
  {
    hide Writes, ArriveStep;
    match a
    case Tick(ms) =>
      var s' := Step(s, a).value;
      forall id ensures RecordSound(s', id) { assert RecordSound(s, id); }
      forall i | 0 <= i < |s'.requests| ensures RequestSound(s', i) { assert RequestSound(s, i); }
    case ShowPreview(id, prepared, store) => ShowKeepsInv(s, id, prepared, store);
    case StartApply(id, store) =>
      NewRequestKeepsInv(s, AfterFind(s.previews, id, store, s.now),
                         if id == None then s.triedAt else s.triedAt[id.value := s.now],
                         Request(if Find(s.previews, id, store, s.now).Ok? then Preparing else Refused, id, store, s.now, None));
    case StartWebhook(store) =>
      NewRequestKeepsInv(s, s.previews, s.triedAt, Request(Preparing, None, store, s.now, None));
    case Arrive(i, prepared, writesAllowed) => ArriveKeepsInv(s, i, prepared, writesAllowed);
    case Complete(i) => StopKeepsInv(s, i, s.requests[i].(pc := Finished));
  }

  lemma {:induction false} RunKeepsInv(s: State, actions: seq<Action>)
    requires Init(s) && Run(s, actions).Some?
    ensures Inv(Run(s, actions).value)
    decreases |actions|
  {
    hide Step;
    if actions != [] {
      RunKeepsInv(s, actions[..|actions| - 1]);
      StepKeepsInv(Run(s, actions[..|actions| - 1]).value, actions[|actions| - 1]);
    }
  }

  // ---- the promises ----------------------------------------------------------------------

  /** Each preview authorises at most one apply. */
  lemma PreviewIsSingleUse(s: State, actions: seq<Action>, i: nat, j: nat, id: PreviewId)
    requires Init(s) && Run(s, actions).Some?
    requires i < |Run(s, actions).value.requests| && j < |Run(s, actions).value.requests|
    requires AppliedFrom(Run(s, actions).value.requests[i], id) && AppliedFrom(Run(s, actions).value.requests[j], id)
    ensures i == j
  {
    RunKeepsInv(s, actions);
    assert !(i < j) && !(j < i);
  }

  /** No two applies ever overlap, whether started by hand or by a webhook. */
  lemma AppliesNeverOverlap(s: State, actions: seq<Action>, i: nat, j: nat)
    requires Init(s) && Run(s, actions).Some?
    requires i < |Run(s, actions).value.requests| && j < |Run(s, actions).value.requests|
    requires Run(s, actions).value.requests[i].pc == Executing && Run(s, actions).value.requests[j].pc == Executing
    ensures i == j
  {
    RunKeepsInv(s, actions);
    assert RequestSound(Run(s, actions).value, i) && RequestSound(Run(s, actions).value, j);
  }

  /** What a manual apply executes makes exactly the writes the operator reviewed, for the store and under the rules shown. */
  lemma AppliesWhatWasReviewed(s: State, actions: seq<Action>, i: nat)
    requires Init(s) && Run(s, actions).Some?
    requires i < |Run(s, actions).value.requests|
    requires Run(s, actions).value.requests[i].preview.Some? && Run(s, actions).value.requests[i].executed.Some?
    ensures var end := Run(s, actions).value; var r := end.requests[i];
            && r.preview.value in end.issued
            && r.store == end.issued[r.preview.value].store
            && var shown := end.issued[r.preview.value].prepared;
               && r.executed.value.rules == shown.rules
               && (Sorting.DistinctKeys(PlanHash.Writes(shown.actions), PlanHash.Key) ==>
                     multiset(PlanHash.Writes(r.executed.value.actions)) == multiset(PlanHash.Writes(shown.actions)))
  {
    RunKeepsInv(s, actions);
    var end := Run(s, actions).value;
    assert RequestSound(end, i);
    var shown, done := end.issued[end.requests[i].preview.value].prepared, end.requests[i].executed.value;
    if Sorting.DistinctKeys(PlanHash.Writes(shown.actions), PlanHash.Key) {
      StableJsonProofs.LeqIsTotalOrder();
      PlanHash.CanonicalIffSameWrites(shown.actions, done.actions, StableJson.Leq);
    }
  }

  /** The preview of an apply was not expired when the request found it. */
  lemma FoundBeforeExpiry(s: State, actions: seq<Action>, i: nat)
    requires Init(s) && Run(s, actions).Some?
    requires i < |Run(s, actions).value.requests|
    requires Run(s, actions).value.requests[i].preview.Some? && Run(s, actions).value.requests[i].executed.Some?
    ensures var end := Run(s, actions).value; var r := end.requests[i];
            r.preview.value in end.issued && r.foundAt < end.issued[r.preview.value].at + PREVIEW_TTL_MS
  {
    RunKeepsInv(s, actions);
    assert RequestSound(Run(s, actions).value, i);
  }

  // ---- when a prepared apply executes ---------------------------------------------------------

  function ExpiryOf(s: State, id: PreviewId): int
    requires id in s.issued
  {
    s.issued[id].at + PREVIEW_TTL_MS
  }

  predicate LatestBefore(s: State, id: PreviewId, time: int) {
    (s.shownAt.Some? ==> s.shownAt.value < time) && (id in s.triedAt ==> s.triedAt[id] < time)
  }

  /** Since it expired no preview was shown and no apply named it, so nothing has deleted it. */
  predicate Unswept(s: State, id: PreviewId)
    requires id in s.issued
  {
    LatestBefore(s, id, ExpiryOf(s, id))
  }

  predicate Usable(s: State, id: PreviewId) {
    id in s.previews && !s.previews[id].applied
  }

  /** An issued preview is still usable exactly when it was not consumed and not swept away. */
  predicate UsableMeans(s: State, id: PreviewId) {
    && (id in s.previews ==> id in s.issued && s.previews[id].expiresAt == ExpiryOf(s, id))
    && (id in s.previews && s.previews[id].applied ==> id in s.spent)
    && (id in s.spent ==> id in s.issued)
    && (id in s.issued ==> !IsBlankId(id) && (Usable(s, id) <==> id !in s.spent && Unswept(s, id)))
    && (id in s.triedAt ==> s.triedAt[id] <= s.now)
  }

  ghost predicate HistoryInv(s: State) {
    (s.shownAt.Some? ==> s.shownAt.value <= s.now) && forall id :: UsableMeans(s, id)
  }

  lemma ArriveKeepsHistory(s: State, i: nat, prepared: Option<Prepared>, writesAllowed: bool)
    requires HistoryInv(s) && i < |s.requests|
    ensures HistoryInv(ArriveStep(s, i, prepared, writesAllowed))
  {
    hide Writes;
    var s' := ArriveStep(s, i, prepared, writesAllowed);
    forall id ensures UsableMeans(s', id) {
      assert UsableMeans(s, id);
    }
  }

  lemma StepKeepsHistory(s: State, a: Action)
    requires HistoryInv(s) && Step(s, a).Some?
    ensures HistoryInv(Step(s, a).value)
  {
    hide Writes, ArriveStep;
    if a.Arrive? {
      ArriveKeepsHistory(s, a.i, a.outcome, a.writesAllowed);
    } else {
      var s' := Step(s, a).value;
      forall id ensures UsableMeans(s', id) {
        assert UsableMeans(s, id);
      }
    }
  }

  lemma {:induction false} RunKeepsHistory(s: State, actions: seq<Action>)
    requires Init(s) && Run(s, actions).Some?
    ensures HistoryInv(Run(s, actions).value)
    decreases |actions|
  {
    hide Step;
    if actions != [] {
      RunKeepsHistory(s, actions[..|actions| - 1]);
      StepKeepsHistory(Run(s, actions[..|actions| - 1]).value, actions[|actions| - 1]);
    }
  }

  /** A step that would delete this preview's record if it had expired. */
  predicate Sweeps(a: Action, id: PreviewId) {
    a.ShowPreview? || (a.StartApply? && a.requested == Some(id))
  }

  /** Every such step of the run was taken before this time. */
  predicate SweptOnlyBefore(s: State, actions: seq<Action>, id: PreviewId, time: int) {
    forall k :: 0 <= k < |actions| && Sweeps(actions[k], id) ==>
      Run(s, actions[..k]).Some? && Run(s, actions[..k]).value.now < time
  }

  lemma StepMovesLatest(s: State, a: Action, id: PreviewId, time: int)
    requires HistoryInv(s) && Step(s, a).Some?
    ensures LatestBefore(Step(s, a).value, id, time) <==> LatestBefore(s, id, time) && (Sweeps(a, id) ==> s.now < time)
  {
    hide Writes, ArriveStep;
    assert UsableMeans(s, id);
    if a.Arrive? {
      ArriveKeepsTimes(s, a.i, a.outcome, a.writesAllowed);
    }
  }

  lemma ArriveKeepsTimes(s: State, i: nat, prepared: Option<Prepared>, writesAllowed: bool)
    requires i < |s.requests|
    ensures ArriveStep(s, i, prepared, writesAllowed).shownAt == s.shownAt
    ensures ArriveStep(s, i, prepared, writesAllowed).triedAt == s.triedAt
  {
    hide Writes;
  }

  /** The recorded times say when the last such step was. */
  lemma {:induction false} LatestMeans(s: State, actions: seq<Action>, id: PreviewId, time: int)
    requires Init(s) && Run(s, actions).Some?
    ensures LatestBefore(Run(s, actions).value, id, time) <==> SweptOnlyBefore(s, actions, id, time)
    decreases |actions|
  {
    hide Step, LatestBefore, Sweeps, HistoryInv;
    if actions == [] {
      assert LatestBefore(s, id, time) by { NothingLatest(s, id, time); }
    } else {
      var n := |actions| - 1;
      var shorter := actions[..n];
      LatestMeans(s, shorter, id, time);
      RunKeepsHistory(s, shorter);
      StepMovesLatest(Run(s, shorter).value, actions[n], id, time);
      assert forall k :: 0 <= k < n ==> shorter[k] == actions[k] && shorter[..k] == actions[..k];
    }
  }

  lemma NothingLatest(s: State, id: PreviewId, time: int)
    requires Init(s)
    ensures LatestBefore(s, id, time)
  {
  }

  /**
   * Over every run, for an apply whose plan arrives: it executes exactly when writes are allowed, its
   * preview was not consumed before, rules and writes are the reviewed ones, the lock is free, and
   * since the expiry no preview was shown and no apply named this one.
   */
  lemma ArrivalExecutesIff(s: State, actions: seq<Action>, i: nat, p: Prepared, writesAllowed: bool)
    requires Init(s) && Run(s, actions).Some?
    requires i < |Run(s, actions).value.requests|
    requires Run(s, actions).value.requests[i].pc == Preparing && Run(s, actions).value.requests[i].preview.Some?
    ensures var end := Run(s, actions).value; var id := end.requests[i].preview.value;
            && id in end.issued
            && (Step(end, Arrive(i, Some(p), writesAllowed)).value.requests[i].pc == Executing
                <==> && writesAllowed && id !in end.spent && end.active == None
                     && SweptOnlyBefore(s, actions, id, ExpiryOf(end, id))
                     && p.rules == end.issued[id].prepared.rules && Writes(p) == Writes(end.issued[id].prepared))
  {
    hide Step, Writes, OneApplyEach, SweptOnlyBefore;
    var end := Run(s, actions).value;
    var id := end.requests[i].preview.value;
    RunKeepsInv(s, actions);
    RunKeepsHistory(s, actions);
    assert RequestSound(end, i) && RecordSound(end, id) && UsableMeans(end, id);
    LatestMeans(s, actions, id, ExpiryOf(end, id));
    ArriveIs(end, i, p, id, writesAllowed);
  }

  lemma ArriveIs(s: State, i: nat, p: Prepared, id: PreviewId, writesAllowed: bool)
    requires i < |s.requests| && s.requests[i].pc == Preparing && s.requests[i].preview == Some(id)
    ensures Step(s, Arrive(i, Some(p), writesAllowed)).Some?
    ensures Step(s, Arrive(i, Some(p), writesAllowed)).value.requests[i].pc == Executing
            <==> Consume(s.previews, id, p.rules, Writes(p)).Ok? && s.active == None && writesAllowed
  {
    hide Writes;
  }

  /**
   * Whatever the request: a plan that arrives either is executed as it arrived, with the lock taken, or
   * is refused for good; a webhook's is executed exactly when writes are allowed and the lock is free.
   */
  lemma ArrivalExecutesOrRefuses(s: State, i: nat, outcome: Option<Prepared>, writesAllowed: bool)
    requires i < |s.requests| && s.requests[i].pc == Preparing && s.requests[i].executed == None
    ensures var next := Step(s, Arrive(i, outcome, writesAllowed));
            && next.Some?
            && var r := next.value.requests[i];
               && (r.pc == Executing || r.pc == Refused)
               && (r.pc == Executing ==> outcome.Some? && r.executed == outcome && s.active == None && next.value.active == Some(i))
               && (r.pc == Refused ==> r.executed == None && next.value.active == s.active)
               && (s.requests[i].preview == None ==> (r.pc == Executing <==> outcome.Some? && writesAllowed && s.active == None))
               && next.value.requests == s.requests[i := s.requests[i].(pc := r.pc, executed := r.executed)]
    ensures outcome == None ==> Step(s, Arrive(i, outcome, writesAllowed)).value.previews == s.previews
  {
    hide Writes, Consume;
  }

  /**
   * Over every run: an apply finds its preview exactly when it names one that was shown for this
   * store, is not yet as old as its time to live and was not consumed; a refusal names its fact, and no
   * earlier one in the order of the checks.
   */
  lemma ApplyFindsIff(s: State, actions: seq<Action>, requested: Option<PreviewId>, store: string)
    requires Init(s) && Run(s, actions).Some?
    ensures var end := Run(s, actions).value;
            var next := Step(end, StartApply(requested, store)).value;
            && |next.requests| == |end.requests| + 1
            && (next.requests[|end.requests|].pc == Preparing <==>
                  && requested.Some? && requested.value in end.issued
                  && end.issued[requested.value].store == store
                  && end.now < end.issued[requested.value].at + 600000
                  && requested.value !in end.spent)
    ensures var end := Run(s, actions).value;
            match Find(end.previews, requested, store, end.now)
            case Ok(record) => record == end.previews[requested.value]
            case Err(Required) => requested == None || IsBlankId(requested.value)
            case Err(AlreadyApplied) => requested.value in end.spent
            case Err(Expired) =>
              && requested.value in end.issued && requested.value !in end.spent
              && end.issued[requested.value].at + 600000 <= end.now
            case Err(Stale) =>
              && requested.value in end.issued && requested.value !in end.spent
              && end.now < end.issued[requested.value].at + 600000
              && end.issued[requested.value].store != store
            case Err(NotFound) =>
              && Text.Trim(requested.value) != ""
              && (requested.value !in end.issued || requested.value in end.spent
                  || end.issued[requested.value].at + 600000 <= end.now)
  {
    hide Run, Writes, OneApplyEach, Text.Trim;
    var end := Run(s, actions).value;
    RunKeepsInv(s, actions);
    RunKeepsHistory(s, actions);
    if requested.Some? {
      assert RecordSound(end, requested.value) && UsableMeans(end, requested.value);
    }
  }

  lemma RunOneMore(s: State, actions: seq<Action>, a: Action)
    requires Run(s, actions).Some?
    ensures Run(s, actions + [a]) == Step(Run(s, actions).value, a)
  {
    assert (actions + [a])[..|actions|] == actions;
  }

  lemma RunFour(s: State, a: Action, b: Action, c: Action, d: Action)
    requires Step(s, a).Some? && Step(Step(s, a).value, b).Some?
    requires Step(Step(Step(s, a).value, b).value, c).Some?
    ensures Run(s, [a, b, c, d]) == Step(Step(Step(Step(s, a).value, b).value, c).value, d)
  {
    hide Step;
    assert [] + [a] == [a] && [a] + [b] == [a, b] && [a, b] + [c] == [a, b, c] && [a, b, c] + [d] == [a, b, c, d];
    RunOneMore(s, [], a);
    RunOneMore(s, [a], b);
    RunOneMore(s, [a, b], c);
    RunOneMore(s, [a, b, c], d);
  }

  /** Expiry is not looked at again: a re-preparation that outlives the preview still applies it. */
  lemma ExpiryIsCheckedOnlyAtFind(s: State, id: PreviewId, p: Prepared, store: string)
    requires Init(s) && !IsBlankId(id)
    ensures var actions := [ShowPreview(id, p, store), StartApply(Some(id), store), Tick(PREVIEW_TTL_MS), Arrive(0, Some(p), true)];
            var end := Run(s, actions);
            && end.Some? && |end.value.requests| == 1 && end.value.requests[0].pc == Executing
            && id in end.value.issued
            && end.value.now >= end.value.issued[id].at + PREVIEW_TTL_MS
  {
    hide Writes, Run, IsBlankId;
    var a, b, c, d := ShowPreview(id, p, store), StartApply(Some(id), store), Tick(PREVIEW_TTL_MS), Arrive(0, Some(p), true);
    var s1 := Step(s, a).value;
    assert Find(s1.previews, Some(id), store, s1.now).Ok?;
    var s2 := Step(s1, b).value;
    assert s2.requests == [Request(Preparing, Some(id), store, s.now, None)];
    var s3 := Step(s2, c).value;
    assert Consume(s3.previews, id, p.rules, Writes(p)).Ok?;
    RunFour(s, a, b, c, d);
  }
}
