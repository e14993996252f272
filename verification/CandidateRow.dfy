/**
 * The push fields of one research candidate's stored row, and the conditional writes on it.
 *
 * Every write is a filter plus a `$set`. The filter decides alone whether the write happens,
 * so each port is one atomic step. Times are milliseconds.
 */
module CandidateRow {
  import opened Prelude

  datatype Status = New | Analyzed | Watching | Selected | PushedToShopify | Rejected

  datatype PushState = Idle | InProgress | Succeeded | SafetyIncident

  type OperationId = nat
  type ProductId = nat

  /** The decision frozen before the first Shopify write: what the draft is listed with. */
  datatype Intent = Intent(
    operationId: OperationId,
    listedPrice: int,
    decisionHash: string,
    supplierCost: Option<int>,
    createdAt: int)

  datatype Row = Row(
    status: Status,
    pushState: PushState,
    operationId: Option<OperationId>,
    claimedAt: Option<int>,
    productId: Option<ProductId>,
    intent: Option<Intent>)

  const FRESH: Row := Row(New, Idle, None, None, None, None)

  // ---- the conditional writes, as values -----------------------------------

  predicate ClaimMatches(row: Row, op: OperationId, now: int, leaseMs: nat) {
    && row.productId == None
    && match row.pushState
       case Idle => true
       case InProgress =>
         || row.operationId == Some(op)
         || row.claimedAt == None
         || row.claimedAt.value <= now - leaseMs
       case _ => false
  }

  function ClaimSet(row: Row, op: OperationId, now: int): Row {
    row.(pushState := InProgress, operationId := Some(op), claimedAt := Some(now))
  }

  /** This operation holds the push claim. */
  predicate Owned(row: Row, op: OperationId) {
    row.pushState == InProgress && row.operationId == Some(op)
  }

  function ReleaseSet(row: Row): Row {
    row.(pushState := Idle, operationId := None, claimedAt := None)
  }

  predicate RecordMatches(row: Row, op: OperationId) {
    Owned(row, op) && row.productId == None
  }

  function RecordSet(row: Row, now: int, intent: Intent): Row {
    row.(claimedAt := Some(now), intent := Some(intent))
  }

  function SucceededSet(row: Row, product: ProductId): Row {
    row.(status := PushedToShopify, pushState := Succeeded, claimedAt := None, productId := Some(product))
  }

  /** The incident write has no filter beyond the candidate's id. */
  function IncidentSet(row: Row, op: OperationId, product: ProductId): Row {
    row.(status := PushedToShopify, pushState := SafetyIncident, operationId := Some(op),
         claimedAt := None, productId := Some(product))
  }

  // ---- the stored row ------------------------------------------------------

  /** One stored candidate. Each method is one atomic database write. */
  class Candidate {
    var status: Status
    var pushState: PushState
    var operationId: Option<OperationId>
    var claimedAt: Option<int>
    var productId: Option<ProductId>
    var intent: Option<Intent>

    function Snapshot(): Row
      reads this
    {
      Row(status, pushState, operationId, claimedAt, productId, intent)
    }

    constructor ()
      ensures Snapshot() == FRESH
    {
      status, pushState := New, Idle;
      operationId, claimedAt, productId, intent := None, None, None, None;
    }

    method ClaimPush(op: OperationId, now: int, leaseMs: nat) returns (claimed: bool)
      modifies this
      ensures claimed == old(ClaimMatches(Snapshot(), op, now, leaseMs))
      ensures Snapshot() == if claimed then ClaimSet(old(Snapshot()), op, now) else old(Snapshot())
      ensures claimed ==> Owned(Snapshot(), op)
    {
      var leaseCutoff := now - leaseMs;
      claimed :=
        && productId == None
        && (|| pushState == Idle
            || (pushState == InProgress && operationId == Some(op))
            || (pushState == InProgress && claimedAt.Some? && claimedAt.value <= leaseCutoff)
            || (pushState == InProgress && claimedAt == None));
      if claimed {
        pushState := InProgress;
        operationId := Some(op);
        claimedAt := Some(now);
      }
    }

    method ReleaseClaim(op: OperationId) returns (released: bool)
      modifies this
      ensures released == old(Owned(Snapshot(), op))
      ensures Snapshot() == if released then ReleaseSet(old(Snapshot())) else old(Snapshot())
      ensures !Owned(Snapshot(), op)
    {
      released := pushState == InProgress && operationId == Some(op);
      if released {
        pushState := Idle;
        operationId, claimedAt := None, None;
      }
    }

    method RecordIntent(op: OperationId, now: int, frozen: Intent) returns (stillOwned: bool)
      modifies this
      ensures stillOwned == old(RecordMatches(Snapshot(), op))
      ensures Snapshot() == if stillOwned then RecordSet(old(Snapshot()), now, frozen) else old(Snapshot())
    {
      stillOwned := pushState == InProgress && operationId == Some(op) && productId == None;
      if stillOwned {
        claimedAt := Some(now);
        intent := Some(frozen);
      }
    }

    method MarkSucceeded(op: OperationId, product: ProductId) returns (owned: bool)
      modifies this
      ensures owned == old(Owned(Snapshot(), op))
      ensures Snapshot() == if owned then SucceededSet(old(Snapshot()), product) else old(Snapshot())
    {
      owned := pushState == InProgress && operationId == Some(op);
      if owned {
        status, pushState := PushedToShopify, Succeeded;
        claimedAt := None;
        productId := Some(product);
      }
    }

    method MarkSafetyIncident(op: OperationId, product: ProductId)
      modifies this
      ensures Snapshot() == IncidentSet(old(Snapshot()), op, product)
    {
      status, pushState := PushedToShopify, SafetyIncident;
      operationId := Some(op);
      claimedAt := None;
      productId := Some(product);
    }
  }

  // ---- read-side predicates ------------------------------------------------

  predicate Pushable(status: Status) {
    status != PushedToShopify && status != Rejected
  }

  /** What the UI and the first step of a push ask: may a push begin? */
  predicate CanPushCandidate(row: Row) {
    && row.productId == None
    && row.pushState != InProgress
    && row.pushState != SafetyIncident
    && Pushable(row.status)
  }

  /** A push may begin without a product, outside a push and an incident, from exactly the four open statuses. */
  lemma PushableIff(row: Row)
    ensures CanPushCandidate(row)
            <==> && row.productId == None && (row.pushState == Idle || row.pushState == Succeeded)
                 && (row.status == New || row.status == Analyzed || row.status == Watching || row.status == Selected)
  {
  }

  predicate ClaimIsRecoverable(row: Row, now: int, leaseMs: nat) {
    row.pushState == InProgress && (row.claimedAt == None || now - row.claimedAt.value >= leaseMs)
  }

  predicate ClaimIsOwnedOrExpired(row: Row, op: OperationId, now: int, leaseMs: nat) {
    && row.pushState == InProgress
    && row.productId == None
    && (row.operationId == Some(op) || ClaimIsRecoverable(row, now, leaseMs))
  }

  /** The eligibility step, taken from a plain read before the atomic claim. */
  predicate PreCheck(row: Row, op: OperationId, now: int, leaseMs: nat) {
    CanPushCandidate(row) || ClaimIsOwnedOrExpired(row, op, now, leaseMs)
  }

  /** What every reachable row satisfies: an id is stored exactly in the two final states. */
  predicate WellFormed(row: Row) {
    && (row.productId.Some? <==> row.pushState == Succeeded || row.pushState == SafetyIncident)
    && (row.pushState == InProgress <==> row.claimedAt.Some?)
    && (row.pushState == InProgress ==> row.operationId.Some?)
    && (row.pushState == Idle ==> row.operationId == None)
  }

  /**
   * The read-side eligibility and the claim filter differ in exactly one situation: an
   * unclaimed row whose status is closed. The filter does not look at the status.
   */
  lemma PreCheckVersusClaim(row: Row, op: OperationId, now: int, leaseMs: nat)
    requires WellFormed(row)
    ensures PreCheck(row, op, now, leaseMs)
            <==> ClaimMatches(row, op, now, leaseMs) && (row.pushState == Idle ==> Pushable(row.status))
  {
  }
}
