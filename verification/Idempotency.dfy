/**
 * The Idempotency-Key protocol as interleaved database steps.
 *
 * A claim is one unique-index insert; a duplicate reads the record in a second step; the owner
 * writes its outcome in a third, after the response has gone out.
 */
module Idempotency {
  import opened Prelude

  /** A key together with the operation it was used on. */
  type Slot = (string, string)

  datatype Response = Response(status: int, body: string)

  /** The stored record; `owner` is the request that inserted it. */
  datatype Record = Record(hash: string, stored: Option<Response>, owner: nat, expiresAt: int)

  datatype Pc =
    | Reading                       // the insert found a record
    | Running                       // claimed: the handler is at work
    | Responded(response: Response) // claimed: the response is out, the record not yet written
    | Ended(stored: Option<Response>)
    | Crashed
    | Conflict | InProgress
    | Replayed(answer: Response)
    | PassedThrough                 // the record vanished between insert and read

  datatype Request = Request(slot: Slot, hash: string, pc: Pc)

  datatype State = State(now: int, ttlMs: nat, records: map<Slot, Record>, requests: seq<Request>)

  datatype Action =
    | Tick(ms: nat)
    | Arrive(slot: Slot, hash: string)
    | Read(i: nat)
    | Respond(i: nat, response: Response)
    | Finalise(i: nat, written: bool)
    | Crash(i: nat)
    | Expire(expired: Slot)

  /** Failures a client is right to retry: they give the key back instead of being stored. */
  predicate Releases(r: Response) {
    r.status >= 500 || r.status == 429
  }

  /** Holds the claim: its handler, or the write of its outcome, is still to come. */
  predicate Holding(r: Request) {
    r.pc.Running? || r.pc.Responded?
  }

  function Moved(s: State, i: nat, pc: Pc): State
    requires i < |s.requests|
  {
    s.(requests := s.requests[i := s.requests[i].(pc := pc)])
  }

  function Duplicate(record: Record, hash: string): Pc {
    if record.hash != hash then Conflict
    else
      match record.stored
      case None => InProgress
      case Some(response) => Replayed(response)
  }

  /** The delete looks at the record's state; the update looks at nothing but the slot. */
  function Finalised(records: map<Slot, Record>, slot: Slot, response: Response): map<Slot, Record> {
    if slot !in records then records
    else if Releases(response) then (if records[slot].stored == None then records - {slot} else records)
    else records[slot := records[slot].(stored := Some(response))]
  }

  function Step(s: State, a: Action): Option<State> {
    match a
    case Tick(ms) => Some(s.(now := s.now + ms))
    case Arrive(slot, hash) =>
      if slot in s.records then Some(s.(requests := s.requests + [Request(slot, hash, Reading)]))
      else Some(s.(requests := s.requests + [Request(slot, hash, Running)],
                   records := s.records[slot := Record(hash, None, |s.requests|, s.now + s.ttlMs)]))
    case Read(i) =>
      if i >= |s.requests| || s.requests[i].pc != Reading then None
      else
        var r := s.requests[i];
        Some(Moved(s, i, if r.slot in s.records then Duplicate(s.records[r.slot], r.hash) else PassedThrough))
    case Respond(i, response) =>
      if i >= |s.requests| || s.requests[i].pc != Running then None else Some(Moved(s, i, Responded(response)))
    case Finalise(i, written) =>
      if i >= |s.requests| || !s.requests[i].pc.Responded? then None
      else
        var r := s.requests[i];
        var response := r.pc.response;
        if !written then Some(Moved(s, i, Ended(None)))
        else
          Some(Moved(s, i, Ended(if Releases(response) || r.slot !in s.records then None else Some(response)))
               .(records := Finalised(s.records, r.slot, response)))
    case Crash(i) =>
      if i >= |s.requests| || !Holding(s.requests[i]) then None else Some(Moved(s, i, Crashed))
    case Expire(slot) =>
      if slot !in s.records || s.records[slot].expiresAt > s.now then None else Some(s.(records := s.records - {slot}))
  }

  predicate Init(s: State) {
    s.records == map[] && s.requests == []
  }

  function Run(s: State, actions: seq<Action>): Option<State>
    decreases |actions|
  {
    if actions == [] then Some(s)
    else
      match Run(s, actions[..|actions| - 1])
      case None => None
      case Some(mid) => Step(mid, actions[|actions| - 1])
  }

  predicate SomeoneHolds(s: State, slot: Slot) {
    exists r :: r in s.requests && r.slot == slot && Holding(r)
  }

  /** This key's record never runs out of time under a handler that is still at work. */
  predicate OutlivesHandlers(s: State, actions: seq<Action>, slot: Slot) {
    forall k :: 0 <= k < |actions| && actions[k] == Expire(slot) ==>
      Run(s, actions[..k]).Some? && !SomeoneHolds(Run(s, actions[..k]).value, slot)
  }

  // ---- the invariant -----------------------------------------------------------------

  /** Whoever holds a claim owns the slot's record, and nothing is stored in it yet. */
  predicate HolderOwns(s: State, i: nat)
    requires i < |s.requests|
  {
    var r := s.requests[i];
    Holding(r) ==> r.slot in s.records && s.records[r.slot].owner == i && s.records[r.slot].stored == None
  }

  /** A stored response answers the very request hash it was computed for. */
  predicate RecordOwned(s: State, slot: Slot)
    requires slot in s.records
  {
    var record := s.records[slot];
    && record.owner < |s.requests|
    && s.requests[record.owner].slot == slot && s.requests[record.owner].hash == record.hash
    && (record.stored.Some? ==> s.requests[record.owner].pc == Ended(record.stored) && !Releases(record.stored.value))
  }

  predicate Inv(s: State, slot: Slot) {
    && (forall i :: 0 <= i < |s.requests| && s.requests[i].slot == slot ==> HolderOwns(s, i))
    && (slot in s.records ==> RecordOwned(s, slot))
  }

  lemma HoldersKeep(s: State, a: Action, slot: Slot)
    requires Inv(s, slot) && Step(s, a).Some?
    requires a == Expire(slot) ==> !SomeoneHolds(s, slot)
    ensures var s' := Step(s, a).value;
            forall i :: 0 <= i < |s'.requests| && s'.requests[i].slot == slot ==> HolderOwns(s', i)
  {
    hide RecordOwned;
    var s' := Step(s, a).value;
    forall i | 0 <= i < |s'.requests| && s'.requests[i].slot == slot ensures HolderOwns(s', i) {
      if i < |s.requests| {
        assert HolderOwns(s, i);
        assert s.requests[i] in s.requests;
      }
      if a.Finalise? && s.requests[a.i].slot == slot {
        assert HolderOwns(s, a.i);
      }
    }
  }

  lemma RecordKeeps(s: State, a: Action, slot: Slot)
    requires Inv(s, slot) && Step(s, a).Some?
    ensures slot in Step(s, a).value.records ==> RecordOwned(Step(s, a).value, slot)
  {
    var s' := Step(s, a).value;
    if slot in s'.records {
      assert slot in s.records ==> RecordOwned(s, slot);
      if (a.Finalise? || a.Respond? || a.Crash? || a.Read?) && s.requests[a.i].slot == slot {
        assert HolderOwns(s, a.i);
      }
    }
  }

  lemma StepKeepsInv(s: State, a: Action, slot: Slot)
    requires Inv(s, slot) && Step(s, a).Some?
    requires a == Expire(slot) ==> !SomeoneHolds(s, slot)
    ensures Inv(Step(s, a).value, slot)
  {
    hide Step, HolderOwns, RecordOwned;
    HoldersKeep(s, a, slot);
    RecordKeeps(s, a, slot);
  }

  lemma {:induction false} RunKeepsInv(s: State, actions: seq<Action>, slot: Slot)
    requires Init(s) && Run(s, actions).Some? && OutlivesHandlers(s, actions, slot)
    ensures Inv(Run(s, actions).value, slot)
    decreases |actions|
  {
    hide Step, Inv, SomeoneHolds, OutlivesHandlers;
    if actions == [] {
      NothingYet(s, slot);
    } else {
      PrefixOutlives(s, actions, slot);
      RunKeepsInv(s, actions[..|actions| - 1], slot);
      StepKeepsInv(Run(s, actions[..|actions| - 1]).value, actions[|actions| - 1], slot);
    }
  }

  lemma NothingYet(s: State, slot: Slot)
    requires Init(s)
    ensures Inv(s, slot)
  {
  }

  lemma PrefixOutlives(s: State, actions: seq<Action>, slot: Slot)
    requires actions != [] && OutlivesHandlers(s, actions, slot)
    ensures OutlivesHandlers(s, actions[..|actions| - 1], slot)
    ensures var mid := Run(s, actions[..|actions| - 1]);
            actions[|actions| - 1] == Expire(slot) ==> mid.Some? && !SomeoneHolds(mid.value, slot)
  {
    hide Step, SomeoneHolds;
    var shorter := actions[..|actions| - 1];
    forall k | 0 <= k < |shorter| && shorter[k] == Expire(slot)
      ensures Run(s, shorter[..k]).Some? && !SomeoneHolds(Run(s, shorter[..k]).value, slot)
    {
      assert shorter[..k] == actions[..k] && shorter[k] == actions[k];
    }
  }

  // ---- the promises, key by key ------------------------------------------------------------

  /** Two handler runs under one key never overlap. */
  lemma ClaimsNeverOverlap(s: State, actions: seq<Action>, i: nat, j: nat)
    requires Init(s) && Run(s, actions).Some?
    requires i < |Run(s, actions).value.requests| && j < |Run(s, actions).value.requests|
    requires Run(s, actions).value.requests[i].slot == Run(s, actions).value.requests[j].slot
    requires OutlivesHandlers(s, actions, Run(s, actions).value.requests[i].slot)
    requires Holding(Run(s, actions).value.requests[i]) && Holding(Run(s, actions).value.requests[j])
    ensures i == j
  {
    hide Step, OutlivesHandlers;
    RunKeepsInv(s, actions, Run(s, actions).value.requests[i].slot);
    assert HolderOwns(Run(s, actions).value, i) && HolderOwns(Run(s, actions).value, j);
  }

  predicate Stored(s: State, slot: Slot, response: Response) {
    slot in s.records && s.records[slot].stored == Some(response)
  }

  /** A step that does not expire the slot's record keeps what is stored there, hash and all. */
  lemma StoredStays(s: State, a: Action, slot: Slot, response: Response)
    requires Inv(s, slot) && Stored(s, slot, response) && Step(s, a).Some?
    requires a != Expire(slot)
    ensures Stored(Step(s, a).value, slot, response)
    ensures Step(s, a).value.records[slot].hash == s.records[slot].hash
    ensures !SomeoneHolds(Step(s, a).value, slot)
  {
    StoredMeansFree(s, slot, response);
    assert forall i :: 0 <= i < |s.requests| ==> s.requests[i] in s.requests;
  }

  /** Once a response is stored, nobody claims the key again for as long as the record lives. */
  lemma {:induction false} StoredIsFinal(s: State, first: seq<Action>, rest: seq<Action>, slot: Slot, response: Response)
    requires Init(s) && Run(s, first + rest).Some? && OutlivesHandlers(s, first, slot)
    requires Run(s, first).Some? && Stored(Run(s, first).value, slot, response)
    requires Expire(slot) !in rest
    ensures var end := Run(s, first + rest).value;
            && Inv(end, slot) && Stored(end, slot, response)
            && end.records[slot].hash == Run(s, first).value.records[slot].hash
            && !SomeoneHolds(end, slot)
    decreases |rest|
  {
    hide Step, SomeoneHolds, Inv, OutlivesHandlers;
    if rest == [] {
      assert first + rest == first;
      RunKeepsInv(s, first, slot);
      StoredMeansFree(Run(s, first).value, slot, response);
    } else {
      var shorter, last := rest[..|rest| - 1], rest[|rest| - 1];
      var all := first + rest;
      assert all[..|all| - 1] == first + shorter && all[|all| - 1] == last;
      assert last in rest && forall a :: a in shorter ==> a in rest;
      StoredIsFinal(s, first, shorter, slot, response);
      StepKeepsInv(Run(s, first + shorter).value, last, slot);
      StoredStays(Run(s, first + shorter).value, last, slot, response);
    }
  }

  lemma StoredMeansFree(s: State, slot: Slot, response: Response)
    requires Inv(s, slot) && Stored(s, slot, response)
    ensures !SomeoneHolds(s, slot)
  {
    forall i | 0 <= i < |s.requests| && s.requests[i].slot == slot ensures !Holding(s.requests[i]) {
      assert HolderOwns(s, i);
    }
  }

  /** A later request under the key replays that response if it is the same request, and is refused if not. */
  lemma LaterRequestsReplay(s: State, slot: Slot, response: Response, hash: string)
    requires Stored(s, slot, response)
    ensures var arrived := Step(s, Arrive(slot, hash)).value; var i := |s.requests|;
            && arrived.requests[i].pc == Reading
            && Step(arrived, Read(i)).Some?
            && Step(arrived, Read(i)).value.requests[i].pc
               == (if s.records[slot].hash == hash then Replayed(response) else Conflict)
            && Step(arrived, Read(i)).value.records == s.records
  {
  }

  /**
   * What a duplicate is told, read off the record it finds: it goes through when there is none any
   * more, conflicts when the record is of another request, waits while nothing is stored, and is
   * given the stored response otherwise.
   */
  lemma ReadAnswers(s: State, i: nat, answer: Response)
    requires i < |s.requests| && s.requests[i].pc == Reading
    ensures var r := s.requests[i];
            var next := Step(s, Read(i));
            && next.Some?
            && next.value == s.(requests := next.value.requests)
            && next.value.requests == s.requests[i := r.(pc := next.value.requests[i].pc)]
            && var pc := next.value.requests[i].pc;
               && (pc == PassedThrough <==> r.slot !in s.records)
               && (pc == Conflict <==> r.slot in s.records && s.records[r.slot].hash != r.hash)
               && (pc == InProgress <==> r.slot in s.records && s.records[r.slot].hash == r.hash && s.records[r.slot].stored == None)
               && (pc == Replayed(answer)
                   <==> r.slot in s.records && s.records[r.slot].hash == r.hash && s.records[r.slot].stored == Some(answer))
  {
    hide Run;
  }

  /**
   * Over every run: while a handler is at work, or its outcome is still to be written, no duplicate
   * goes through. The same request is told to wait, a different one under the key conflicts.
   */
  lemma HeldKeyNeverPassesThrough(s: State, actions: seq<Action>, holder: nat, i: nat)
    requires Init(s) && Run(s, actions).Some?
    requires holder < |Run(s, actions).value.requests| && Holding(Run(s, actions).value.requests[holder])
    requires OutlivesHandlers(s, actions, Run(s, actions).value.requests[holder].slot)
    requires i < |Run(s, actions).value.requests| && Run(s, actions).value.requests[i].pc == Reading
    requires Run(s, actions).value.requests[i].slot == Run(s, actions).value.requests[holder].slot
    ensures var end := Run(s, actions).value;
            var next := Step(end, Read(i));
            && next.Some?
            && next.value.requests[i].pc
               == if end.requests[i].hash == end.requests[holder].hash then InProgress else Conflict
  {
    hide Run, Step, OutlivesHandlers;
    var end := Run(s, actions).value;
    RunKeepsInv(s, actions, end.requests[holder].slot);
    assert HolderOwns(end, holder) && RecordOwned(end, end.requests[holder].slot);
    ReadAnswers(end, i, Response(0, ""));
  }

  /** A claim is taken exactly when there is no record, and its record may expire exactly from its time to live on. */
  lemma ArrivalClaimsIff(s: State, slot: Slot, hash: string, ms: nat)
    ensures var arrived := Step(s, Arrive(slot, hash)).value; var i := |s.requests|;
            && |arrived.requests| == i + 1 && arrived.requests[..i] == s.requests
            && (arrived.requests[i].pc == Running <==> slot !in s.records)
            && (slot in s.records ==> arrived.requests[i].pc == Reading && arrived.records == s.records)
            && (slot !in s.records ==>
                  && arrived.records.Keys == s.records.Keys + {slot}
                  && (forall other :: other in s.records ==> arrived.records[other] == s.records[other])
                  && (Step(Step(arrived, Tick(ms)).value, Expire(slot)).Some? <==> ms >= s.ttlMs))
  {
    hide Run;
  }

  /** A retryable failure frees the key for the next attempt; any other outcome settles it. */
  lemma OutcomeDecidesTheKey(s: State, i: nat, hash: string)
    requires i < |s.requests| && s.requests[i].pc.Responded? && Inv(s, s.requests[i].slot)
    ensures var status := s.requests[i].pc.response.status;
            var ended := Step(s, Finalise(i, true)).value;
            var next := Step(ended, Arrive(s.requests[i].slot, hash)).value;
            next.requests[|s.requests|].pc == Running <==> status >= 500 || status == 429
  {
    assert HolderOwns(s, i);
  }

  /**
   * Once the outcome of a claim is written, the same request is given that very response unless it
   * was retryable; if the write is lost or the process dies, the same request is told to wait.
   */
  lemma OutcomeIsReplayed(s: State, i: nat, written: bool)
    requires i < |s.requests| && s.requests[i].pc.Responded? && Inv(s, s.requests[i].slot)
    ensures var r := s.requests[i]; var response := r.pc.response;
            var ended := Step(s, Finalise(i, written)).value;
            var again := Step(ended, Arrive(r.slot, r.hash)).value;
            var read := Step(again, Read(|s.requests|));
            && ended.requests[i].pc.Ended?
            && (read.Some? <==> !written || (response.status < 500 && response.status != 429))
            && (read.Some? ==> read.value.requests[|s.requests|].pc == if written then Replayed(response) else InProgress)
    ensures var r := s.requests[i];
            var crashed := Step(s, Crash(i)).value;
            var read := Step(Step(crashed, Arrive(r.slot, r.hash)).value, Read(|s.requests|));
            read.Some? && read.value.requests[|s.requests|].pc == InProgress
  {
    hide Run;
    assert HolderOwns(s, i) && RecordOwned(s, s.requests[i].slot);
  }

  /** What is replayed under a key is what the one owner answered to the same request. */
  lemma RecordsAnswerTheirOwner(s: State, actions: seq<Action>, slot: Slot)
    requires Init(s) && Run(s, actions).Some? && OutlivesHandlers(s, actions, slot)
    requires slot in Run(s, actions).value.records && Run(s, actions).value.records[slot].stored.Some?
    ensures var end := Run(s, actions).value; var record := end.records[slot];
            && record.owner < |end.requests|
            && end.requests[record.owner] == Request(slot, record.hash, Ended(record.stored))
            && !Releases(record.stored.value)
  {
    hide Step, OutlivesHandlers;
    RunKeepsInv(s, actions, slot);
    assert RecordOwned(Run(s, actions).value, slot);
  }

  // ---- a record that expires under its handler ----------------------------------------------

  /** Inserted the record once, whatever became of it. */
  predicate Claimed(r: Request) {
    r.pc.Running? || r.pc.Responded? || r.pc.Ended? || r.pc.Crashed?
  }

  /** The key was claimed once more after this request claimed it. */
  predicate ClaimedAgain(s: State, i: nat)
    requires i < |s.requests|
  {
    exists j :: i < j < |s.requests| && s.requests[j].slot == s.requests[i].slot && Claimed(s.requests[j])
  }

  /** A record belongs to the latest claim of its key. */
  predicate LatestOwns(s: State, slot: Slot)
    requires slot in s.records
  {
    var owner := s.records[slot].owner;
    && owner < |s.requests| && s.requests[owner].slot == slot && Claimed(s.requests[owner])
    && forall j :: owner < j < |s.requests| && s.requests[j].slot == slot ==> !Claimed(s.requests[j])
  }

  lemma StepKeepsLatest(s: State, a: Action)
    requires Step(s, a).Some? && forall slot :: slot in s.records ==> LatestOwns(s, slot)
    ensures forall slot :: slot in Step(s, a).value.records ==> LatestOwns(Step(s, a).value, slot)
  {
    var s' := Step(s, a).value;
    forall slot | slot in s'.records ensures LatestOwns(s', slot) {
      assert slot in s.records ==> LatestOwns(s, slot);
    }
  }

  lemma {:induction false} RunKeepsLatest(s: State, actions: seq<Action>)
    requires Init(s) && Run(s, actions).Some?
    ensures forall slot :: slot in Run(s, actions).value.records ==> LatestOwns(Run(s, actions).value, slot)
    decreases |actions|
  {
    hide Step, LatestOwns;
    if actions != [] {
      RunKeepsLatest(s, actions[..|actions| - 1]);
      StepKeepsLatest(Run(s, actions[..|actions| - 1]).value, actions[|actions| - 1]);
    }
  }

  /** The database write that ends this request finds a record: the update by key alone, the delete one still in progress. */
  predicate OutcomeMatches(s: State, i: nat)
    requires i < |s.requests| && s.requests[i].pc.Responded?
  {
    var slot := s.requests[i].slot;
    slot in s.records && (Releases(s.requests[i].pc.response) ==> s.records[slot].stored == None)
  }

  /** It finds one that another request inserted. */
  predicate LandsOnAnother(s: State, i: nat)
    requires i < |s.requests| && s.requests[i].pc.Responded?
  {
    OutcomeMatches(s, i) && s.records[s.requests[i].slot].owner != i
  }

  /**
   * What the write that ends a handler does to the records, whoever inserted the one it finds: a
   * retryable outcome takes away a record still in progress and leaves a completed one alone, any
   * other replaces what is stored; no other key is touched.
   */
  lemma OutcomeWrites(s: State, i: nat, other: Slot)
    requires i < |s.requests| && s.requests[i].pc.Responded? && other != s.requests[i].slot
    ensures var slot, response := s.requests[i].slot, s.requests[i].pc.response;
            var retryable := response.status >= 500 || response.status == 429;
            var records := Step(s, Finalise(i, true)).value.records;
            && (other in records <==> other in s.records) && (other in records ==> records[other] == s.records[other])
            && (slot in records <==> slot in s.records && !(retryable && s.records[slot].stored == None))
            && (slot in records ==>
                  records[slot] == if retryable then s.records[slot] else s.records[slot].(stored := Some(response)))
            && Step(s, Finalise(i, false)).value.records == s.records
  {
    hide Run;
  }

  /**
   * Over every run: the outcome of a handler, stored or released, lands on another request's
   * record exactly when the key was claimed again in the meantime and there is a record to match.
   * It takes a record of that key that expired under its handler.
   */
  lemma LandsOnAnotherIff(s: State, actions: seq<Action>, i: nat)
    requires Init(s) && Run(s, actions).Some?
    requires i < |Run(s, actions).value.requests| && Run(s, actions).value.requests[i].pc.Responded?
    ensures var end := Run(s, actions).value;
            && (LandsOnAnother(end, i) <==> ClaimedAgain(end, i) && OutcomeMatches(end, i))
            && (ClaimedAgain(end, i) ==> !OutlivesHandlers(s, actions, end.requests[i].slot))
  {
    hide Step, OutlivesHandlers;
    var end := Run(s, actions).value;
    var slot := end.requests[i].slot;
    RunKeepsLatest(s, actions);
    if OutlivesHandlers(s, actions, slot) {
      RunKeepsInv(s, actions, slot);
      assert HolderOwns(end, i);
      assert LatestOwns(end, slot);
    }
  }

  lemma RunOneMore(s: State, actions: seq<Action>, a: Action)
    requires Run(s, actions).Some?
    ensures Run(s, actions + [a]) == Step(Run(s, actions).value, a)
  {
    assert (actions + [a])[..|actions|] == actions;
  }

  lemma RunSix(s: State, a: Action, b: Action, c: Action, d: Action, e: Action, f: Action)
    requires Step(s, a).Some? && Step(Step(s, a).value, b).Some?
    requires Step(Step(Step(s, a).value, b).value, c).Some?
    requires Step(Step(Step(Step(s, a).value, b).value, c).value, d).Some?
    requires Step(Step(Step(Step(Step(s, a).value, b).value, c).value, d).value, e).Some?
    ensures Run(s, [a, b, c, d, e, f])
            == Step(Step(Step(Step(Step(Step(s, a).value, b).value, c).value, d).value, e).value, f)
  {
    hide Step;
    assert [] + [a] == [a] && [a] + [b] == [a, b] && [a, b] + [c] == [a, b, c] && [a, b, c] + [d] == [a, b, c, d];
    assert [a, b, c, d] + [e] == [a, b, c, d, e] && [a, b, c, d, e] + [f] == [a, b, c, d, e, f];
    RunOneMore(s, [], a);
    RunOneMore(s, [a], b);
    RunOneMore(s, [a, b], c);
    RunOneMore(s, [a, b, c], d);
    RunOneMore(s, [a, b, c, d], e);
    RunOneMore(s, [a, b, c, d, e], f);
  }

  /**
   * If a record does expire under a running handler, a second handler runs beside it, and the
   * first one's outcome is then stored as the answer to the second's request: the update does
   * not check whose record it is.
   */
  lemma ExpiryUnderAHandlerMixesAnswers(s: State, slot: Slot, first: string, second: string, answer: Response)
    requires Init(s) && !Releases(answer)
    ensures var actions := [Arrive(slot, first), Tick(s.ttlMs), Expire(slot), Arrive(slot, second),
                            Respond(0, answer), Finalise(0, true)];
            var end := Run(s, actions);
            && end.Some? && |end.value.requests| == 2
            && Holding(end.value.requests[1])
            && slot in end.value.records
            && end.value.records[slot].hash == second && end.value.records[slot].stored == Some(answer)
  {
    hide Run;
    var a, b, c, d := Arrive(slot, first), Tick(s.ttlMs), Expire(slot), Arrive(slot, second);
    var e, f := Respond(0, answer), Finalise(0, true);
    var s1 := Step(s, a).value;
    var s2 := Step(s1, b).value;
    var s3 := Step(s2, c).value;
    var s4 := Step(s3, d).value;
    assert s4.requests == [Request(slot, first, Running), Request(slot, second, Running)];
    var s5 := Step(s4, e).value;
    var s6 := Step(s5, f).value;
    RunSix(s, a, b, c, d, e, f);
  }

  /**
   * The delete is worse: a retryable failure of the first handler takes away the second one's live
   * claim, and a third handler runs beside the second. The second one's record never expired, and
   * its own outcome will now land on the third one's.
   */
  lemma ExpiryUnderAHandlerFreesALiveClaim(s: State, slot: Slot, hash: string, failure: Response)
    requires Init(s) && Releases(failure)
    ensures var actions := [Arrive(slot, hash), Tick(s.ttlMs), Expire(slot), Arrive(slot, hash),
                            Respond(0, failure), Finalise(0, true)] + [Arrive(slot, hash)];
            var end := Run(s, actions);
            && end.Some? && |end.value.requests| == 3
            && end.value.requests[1].slot == slot && Holding(end.value.requests[1])
            && end.value.requests[2].slot == slot && Holding(end.value.requests[2])
            && slot in end.value.records && end.value.records[slot].owner == 2
  {
    hide Run;
    var a, b, c := Arrive(slot, hash), Tick(s.ttlMs), Expire(slot);
    var e, f := Respond(0, failure), Finalise(0, true);
    var s1 := Step(s, a).value;
    var s2 := Step(s1, b).value;
    var s3 := Step(s2, c).value;
    var s4 := Step(s3, a).value;
    assert s4.requests == [Request(slot, hash, Running), Request(slot, hash, Running)];
    var s5 := Step(s4, e).value;
    var s6 := Step(s5, f).value;
    assert slot !in s6.records;
    RunSix(s, a, b, c, a, e, f);
    RunOneMore(s, [a, b, c, a, e, f], a);
  }
}
