/** The per-product trigger cooldown: forgetting expired entries never changes an answer. */
module Cooldown {
  import opened Prelude

  const PRUNE_AT: nat := 1000

  type Seen = map<string, int>

  predicate TooSoon(seen: Seen, key: string, now: int, windowMs: int) {
    key in seen && now - seen[key] < windowMs
  }

  function Pruned(seen: Seen, now: int, windowMs: int): Seen {
    if |seen| < PRUNE_AT then seen else map key | key in seen && now - seen[key] < windowMs :: seen[key]
  }

  function AfterAcquire(seen: Seen, key: string, now: int, windowMs: int): Seen {
    if TooSoon(seen, key, now, windowMs) then seen else Pruned(seen[key := now], now, windowMs)
  }

  class TriggerCooldown {
    var seen: Seen
    const windowMs: int

    constructor (windowMs: int)
      ensures this.windowMs == windowMs && seen == map[]
    {
      this.windowMs := windowMs;
      seen := map[];
    }

    method TryAcquire(key: string, now: int) returns (granted: bool)
      modifies this
      ensures granted == !TooSoon(old(seen), key, now, windowMs)
      ensures seen == AfterAcquire(old(seen), key, now, windowMs)
    {
      if key in seen && now - seen[key] < windowMs { return false; }
      seen := seen[key := now];
      Prune(now);
      granted := true;
    }

    method Prune(now: int)
      modifies this
      ensures seen == Pruned(old(seen), now, windowMs)
      ensures |old(seen)| < 1000 ==> seen == old(seen)
      ensures |old(seen)| >= 1000 ==>
                forall key :: key in seen <==> key in old(seen) && now - old(seen)[key] < windowMs
    {
      if |seen| < PRUNE_AT { return; }
      var todo := seen.Keys;
      while todo != {}
        invariant todo <= old(seen).Keys
        invariant seen == map key | key in old(seen) && (key in todo || now - old(seen)[key] < windowMs) :: old(seen)[key]
        decreases |todo|
      {
        var key :| key in todo;
        if now - seen[key] >= windowMs { seen := seen - {key}; }
        todo := todo - {key};
      }
    }
  }

  // ---- a whole history of triggers -------------------------------------------------

  datatype Trigger = Trigger(key: string, at: int)

  function SeenAfter(triggers: seq<Trigger>, windowMs: int): Seen {
    if triggers == [] then map[]
    else
      var last := triggers[|triggers| - 1];
      AfterAcquire(SeenAfter(triggers[..|triggers| - 1], windowMs), last.key, last.at, windowMs)
  }

  /** The answer given to the `k`th trigger. */
  predicate Granted(triggers: seq<Trigger>, k: nat, windowMs: int)
    requires k < |triggers|
  {
    !TooSoon(SeenAfter(triggers[..k], windowMs), triggers[k].key, triggers[k].at, windowMs)
  }

  predicate ClockRunsForward(triggers: seq<Trigger>) {
    forall i, j :: 0 <= i < j < |triggers| ==> triggers[i].at <= triggers[j].at
  }

  /** What a tracker that never forgets would say, read off the answers so far. */
  predicate GrantedRecently(triggers: seq<Trigger>, upTo: nat, key: string, now: int, windowMs: int)
    requires upTo <= |triggers|
  {
    exists i :: 0 <= i < upTo && triggers[i].key == key && Granted(triggers, i, windowMs) && now - triggers[i].at < windowMs
  }

  lemma GrantedInPrefix(triggers: seq<Trigger>, upTo: nat, k: nat, windowMs: int)
    requires k < upTo <= |triggers|
    ensures Granted(triggers[..upTo], k, windowMs) == Granted(triggers, k, windowMs)
  {
    assert triggers[..upTo][..k] == triggers[..k];
  }

  /** The pruned map still knows every grant that matters now or later. */
  lemma {:induction false} SeenIsEnough(triggers: seq<Trigger>, key: string, now: int, windowMs: int)
    requires ClockRunsForward(triggers)
    requires forall i :: 0 <= i < |triggers| ==> triggers[i].at <= now
    ensures TooSoon(SeenAfter(triggers, windowMs), key, now, windowMs)
            <==> GrantedRecently(triggers, |triggers|, key, now, windowMs)
  {
    hide Granted;
    if triggers != [] {
      var n := |triggers| - 1;
      var rest, last := triggers[..n], triggers[n];
      SeenIsEnough(rest, key, now, windowMs);
      SeenIsEnough(rest, key, last.at, windowMs);
      RecentlyGrows(triggers, key, now, windowMs);
      LastGrant(triggers, windowMs);
      NewestWins(triggers, key, now, windowMs);
    }
  }

  lemma LastGrant(triggers: seq<Trigger>, windowMs: int)
    requires triggers != []
    ensures var n := |triggers| - 1;
            Granted(triggers, n, windowMs)
            <==> !TooSoon(SeenAfter(triggers[..n], windowMs), triggers[n].key, triggers[n].at, windowMs)
  {
  }

  lemma RecentlyGrows(triggers: seq<Trigger>, key: string, now: int, windowMs: int)
    requires triggers != []
    ensures var n := |triggers| - 1; var rest, last := triggers[..n], triggers[n];
            GrantedRecently(triggers, |triggers|, key, now, windowMs)
            <==> || GrantedRecently(rest, n, key, now, windowMs)
                 || (last.key == key && Granted(triggers, n, windowMs) && now - last.at < windowMs)
  {
    hide Granted;
    var n := |triggers| - 1;
    forall i | 0 <= i < n ensures Granted(triggers[..n], i, windowMs) == Granted(triggers, i, windowMs) {
      GrantedInPrefix(triggers, n, i, windowMs);
    }
    assert forall i :: 0 <= i < n ==> triggers[..n][i] == triggers[i];
  }

  /** One more trigger: the map changes as the history does. */
  lemma NewestWins(triggers: seq<Trigger>, key: string, now: int, windowMs: int)
    requires triggers != [] && triggers[|triggers| - 1].at <= now
    ensures var n := |triggers| - 1; var last := triggers[n]; var before := SeenAfter(triggers[..n], windowMs);
            && (TooSoon(before, last.key, last.at, windowMs) ==> SeenAfter(triggers, windowMs) == before)
            && (!TooSoon(before, last.key, last.at, windowMs) ==>
                  (TooSoon(SeenAfter(triggers, windowMs), key, now, windowMs)
                   <==> if key == last.key then now - last.at < windowMs else TooSoon(before, key, now, windowMs)))
  {
  }

  /**
   * A trigger is granted exactly when its product was granted none within the window before it,
   * as if nothing were ever forgotten.
   */
  lemma PruningChangesNoAnswer(triggers: seq<Trigger>, k: nat, windowMs: int)
    requires ClockRunsForward(triggers) && k < |triggers|
    ensures Granted(triggers, k, windowMs) <==> !GrantedRecently(triggers, k, triggers[k].key, triggers[k].at, windowMs)
  {
    SeenIsEnough(triggers[..k], triggers[k].key, triggers[k].at, windowMs);
    forall i | 0 <= i < k ensures Granted(triggers[..k], i, windowMs) == Granted(triggers, i, windowMs) {
      GrantedInPrefix(triggers, k, i, windowMs);
    }
  }

  /** So two runs for one product are always at least a window apart. */
  lemma GrantsAreSpaced(triggers: seq<Trigger>, i: nat, j: nat, windowMs: int)
    requires ClockRunsForward(triggers) && i < j < |triggers| && triggers[i].key == triggers[j].key
    requires Granted(triggers, i, windowMs) && Granted(triggers, j, windowMs)
    ensures triggers[j].at - triggers[i].at >= windowMs
  {
    PruningChangesNoAnswer(triggers, j, windowMs);
  }
}
