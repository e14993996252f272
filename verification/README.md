# Trademart: verified models of the protocols and the arithmetic

Trademart is a backend that researches dropshipping products, pushes them to Shopify as drafts, and
then keeps their prices and visibility in line with a rule set. This project models the parts where a
mistake is expensive and hard to see from one function: the push protocol, the automation loop, the
exactly-once and freshness protocols, and the exact money arithmetic.

`dafny verify dfyconfig.toml` checks everything.

| file | what it models |
|---|---|
| `CandidateRow.dfy` | the push fields of a candidate row and the conditional writes on it |
| `PushProtocol.dfy`, `PushSafety.dfy`, `PushTheorems.dfy` | push-as-draft as a step relation, its invariant, its promises |
| `Catalogue.dfy`, `Price.dfy`, `Visibility.dfy` | the price and visibility decisions |
| `Plan.dfy`, `PlanHash.dfy` | the capped planner and the canonical form its hash is taken of |
| `Convergence.dfy` | the webhook feedback loop as repeated runs |
| `Execution.dfy` | one real run: grouping, abort, accounting |
| `Preview.dfy` | the single-use preview store, the apply lock, and the interleaved requests |
| `Cooldown.dfy` | the trigger cooldown |
| `StableJson.dfy`, `StableJsonProofs.dfy` | the deterministic serialiser and its exactness |
| `Idempotency.dfy`, `Revision.dfy`, `AuditPaging.dfy` | idempotency keys, score freshness, audit paging |
| `Money.dfy`, `OrderEconomics.dfy`, `Exposure.dfy` | minor units, order economics, supplier exposure |
| `Prelude.dfy` | options, results, sorting under any total order, text normalisation |

A protocol is a state, an action type and a function `Step`; nondeterminism (what a port answers,
what an analysis concludes, when a process dies) is carried by the action, so a theorem over all
action sequences is a theorem over all interleavings. Code that updates fields or locals in a loop is
a class or a method, proved equal to a function; what the code promises is proved about that function.

## Assumptions about the environment

The push theorems hold for every run in which

- two live operations never share an operation id;
- the tag lookup sees every product already created, and nobody deletes a tagged product;
- `createProduct` takes effect, if at all, before its call returns or throws or its process dies;
- it takes effect less than one lease after that operation's intent renewal.

The first and the last are switches of the model. With either switched off a second product is
reachable: `PushTheorems.LateCreateDuplicates` and `PushTheorems.SharedOperationIdDuplicates`.

The convergence theorem fixes costs, stock, rules and everything the merchant owns, and takes
identifiers to be unique, amounts to be non-negative whole minor units, and `minChangeAmount` to be
positive. It does not assume that every write succeeds, nor anything about which tags the rules name.

## Where the code and its documentation differ

- `src/automation/automation.triggers.ts:17-21` says the loop ends after exactly one extra run that
  changes nothing. An unclamped write is at its goal and is followed by such a run; a clamped one may
  be (`Price.ClampedWriteCanSettle`) or may be followed by another write (`Price.OneWriteIsNotEnough`).
  `Price.NextRunIsQuietIff` says exactly when, from the written price, the goal and the rules. The loop
  still ends, after a bounded number of runs.
- `src/automation/price.rules.ts:405-414` reports every unchanged variant as already within the
  threshold of its target. A variant also stays where it is when the largest step one run allows is
  below the threshold, however far the goal is (`Price.StuckShortOfTheGoal`); `Price.ChangedIffStepLeft`
  is the exact condition, and `Convergence.RestIffNothingLeft` carries it to the whole store.
- `minChangeAmount` 0 passes validation, yet then no decision is ever "nothing to do"
  (`Price.ZeroThresholdNeverSettles`, `Price.UnclampedChangeSettles`).
- `src/dropshipping/dropshipping.cost.ts:274-276` says a surcharge recorded on some lines only is
  unknown. The code reads the missing ones as zero and reports a known figure
  (`OrderEconomics.PartialSurchargeIsKnown`).
- Outstanding exposure is described as the cash still needed for undispatched orders. Its amount and
  its number of orders are; its excluded count is the one of all committed orders, and its confidence is
  spoiled by dispatched orders too (`Exposure.DispatchedUnknownStaysExcluded`,
  `Exposure.DispatchedEstimateSpoilsConfidence`). `Exposure.OutstandingIsTheWaitingOrders` gives the
  exact condition on the orders for each of the two.
- `truncated` is described as true when the cap stopped the plan short. It is also true of a plan from
  which nothing was cut (`Plan.FlagIsRaisedForNothing`), in exactly the cases of
  `Plan.FlaggedWithNothingCut`.
- `src/automation/plan.ts:277-281` says ordering cannot affect the hash. When the cap cuts the plan it
  does: `PlanHash.OrderKeepsHashIff` is the exact condition.
- The claim filter does not look at `status`, so a candidate rejected between the eligibility read and
  the claim is claimed (`PushTheorems.RejectionDoesNotStopAClaim`). On every reachable row this is the
  only difference between the two (`PushTheorems.PreCheckAgreesWithClaim`).
- `PUSHED_TO_SHOPIFY` is not absorbing: persisting an analysis prepared earlier sets ANALYZED. The
  absorbing fact is a stored product id (`PushTheorems.StatusIsNotAbsorbing`, `PushTheorems.ProductIdIsAbsorbing`).
- An edit reads, compares and writes in three steps and writes the commercials back whole, so one edit
  can undo another without moving the revision counter (`Revision.StaleWriteHidesAChange`). A write keeps
  a current score truthful exactly when its request moves an input as it read them, or nothing it
  overwrites has moved since it read it (`Revision.HonestyIsExact`).
- Neither write that ends an idempotent handler checks whose record it finds. If a record expired under
  its handler, the answer can be stored for another request (`Idempotency.ExpiryUnderAHandlerMixesAnswers`),
  and a retryable failure can delete another handler's live claim, so that two handlers run at once
  (`Idempotency.ExpiryUnderAHandlerFreesALiveClaim`). `Idempotency.LandsOnAnotherIff` is the exact
  condition over every run.
- A preview's expiry is checked when it is found and not again when it is consumed
  (`PreviewProtocol.ExpiryIsCheckedOnlyAtFind`). Whether an expired one is still applied depends on
  whether a later request happened to delete it (`PreviewProtocol.ArrivalExecutesIff`).
- Naming the automation's own hidden tag among the exempt tags makes every hide permanent
  (`Visibility.HideThenRestore` gives the exact condition for the round trip).

## Model

| member | source | states |
|---|---|---|
| `CandidateRow.Candidate.ClaimPush` | src/intelligence/push.service.ts:98-134 | one conditional write: it matches an unpushed row that is idle, already this operation's, or past its lease, and then the row is owned by the caller; otherwise nothing moves |
| `CandidateRow.Candidate.ReleaseClaim` | src/intelligence/push.service.ts:137-156 | only the owner's claim is given back, and afterwards the caller owns nothing |
| `CandidateRow.Candidate.RecordIntent` | src/intelligence/push.service.ts:171-189 | the intent is frozen and the lease renewed together, by the owner of an unpushed row only |
| `CandidateRow.Candidate.MarkSucceeded` | src/intelligence/push.service.ts:209-242 | the owned transition to SUCCEEDED stores the product id; anybody else changes nothing |
| `CandidateRow.Candidate.MarkSafetyIncident` | src/intelligence/push.service.ts:247-276 | the unconditional incident write and the whole row it leaves |
| `CandidateRow.PreCheckVersusClaim` | src/intelligence/push.orchestrator.ts:956-965 | on a well-formed row the eligibility read and the claim filter differ only in the status of an idle row |
| `CandidateRow.PushableIff` | src/intelligence/candidate.transitions.ts:119-181 | a push may begin without a product, outside a push and an incident, from exactly NEW, ANALYZED, WATCHING and SELECTED |
| `PushSafety.StepKeepsInv` | src/intelligence/push.orchestrator.ts:146-256 | every step of every run, and of the row's other writers, keeps the invariant that ties rows, products and program counters together |
| `PushSafety.OthersStand` | src/intelligence/push.orchestrator.ts:453-492 | no step of one operation invalidates what another relies on before its create: claim, renewal and second lookup together close the race |
| `PushSafety.ActTouches` | src/intelligence/push.service.ts:98-276 | all that a step can do to the row and to the products |
| `PushTheorems.AtMostOneProduct` | src/intelligence/push.orchestrator.ts:201-214 | over every interleaving, crash, retry and takeover at most one tagged product is ever created, and no operation calls create twice |
| `PushTheorems.RecoveredIntentIsTheOriginal` | src/intelligence/push.orchestrator.ts:628-693 | an intent a reconciliation loads is always present and is the one the existing product was created from |
| `PushTheorems.ReturnedPush` | src/intelligence/push.orchestrator.ts:492-610 | a push that returns created once or reconciled with no create, made its own transition with that id, and last saw the product hidden |
| `PushTheorems.FailedPush` | src/intelligence/push.orchestrator.ts:216-256 | a push that failed with no product seen does not hold the claim; refused before the claim it never called create |
| `PushTheorems.GateRefusalNeverCreated` | src/intelligence/push.orchestrator.ts:222-233 | in every interleaving a released push that a gate or the renewal refused never called create, saw no product and does not hold the claim |
| `PushTheorems.RefusedBeforeCreate` | src/intelligence/push.orchestrator.ts:222-233 | a refusal or failure in any step before create leads to the release with create never called |
| `PushTheorems.CheckDecides` | src/intelligence/push.orchestrator.ts:146-200 | on any row, the eligibility step passes exactly for labelled amounts and an open candidate, or one this operation is pushing, or one whose lease has run out |
| `PushTheorems.ClaimLeaves` | src/intelligence/push.service.ts:98-134 | field by field, the row a claim leaves |
| `PushTheorems.RenewalLeaves` | src/intelligence/push.service.ts:171-189 | field by field, the row a renewal leaves, with the decision the gates approved frozen in it |
| `PushTheorems.ReleaseLeaves` | src/intelligence/push.service.ts:137-156 | field by field, the row a release leaves; the frozen intent stays |
| `PushTheorems.CapturesWhatIsThere` | src/intelligence/push.orchestrator.ts:475-505 | a run acts on what Shopify reports: the product it created or found, with its visibility as it is |
| `PushTheorems.RepairDecides` | src/intelligence/push.orchestrator.ts:897-936 | an incident is a product seen visible whose repair failed or still shows it published or visible, and nothing else |
| `PushTheorems.RepairTouchesOneProduct` | src/intelligence/push.orchestrator.ts:897-936 | the repair sets that one product as Shopify then reports it |
| `PushTheorems.IncidentLeaves` | src/intelligence/push.orchestrator.ts:550-577 | in every reachable state an incident run leaves SAFETY_INCIDENT, PUSHED_TO_SHOPIFY, its own operation id, no claim time and the captured product |
| `PushTheorems.SuccessLeaves` | src/intelligence/push.service.ts:209-242 | in every reachable state an owned final write without an incident leaves SUCCEEDED, PUSHED_TO_SHOPIFY and the captured product |
| `PushTheorems.SucceededWasSeenHidden` | src/intelligence/push.orchestrator.ts:505-602 | over every reached state, a SUCCEEDED row was written by a run that captured that product and last saw it neither published nor visible |
| `PushTheorems.DecisionsAreLegal` | src/intelligence/candidate.transitions.ts:65-119 | a research decision is legal exactly from an open status: to WATCHING or REJECTED, to SELECTED unless selected, to ANALYZED from NEW |
| `PushTheorems.ProductIdIsAbsorbing` | src/intelligence/push.service.ts:209-276 | the id is stored exactly in SUCCEEDED and SAFETY_INCIDENT, never changes, and blocks every later eligibility check and claim |
| `PushTheorems.PreCheckAgreesWithClaim` | src/intelligence/candidate.transitions.ts:146-181 | on every reachable row the read-side predicates agree with the write filter, except for an idle row of closed status |
| `PushTheorems.TakeoverNeedsAnExpiredLease` | src/intelligence/candidate.transitions.ts:267-281 | another operation passes the check, and the filter, exactly from one lease after the claim time on |
| `PushTheorems.RecoveryReconciles` | src/intelligence/push.orchestrator.ts:628-784 | from any reachable row in progress over an existing product, a fresh operation can finish: same product, its original intent, SUCCEEDED |
| `PushTheorems.RecoveryCreates` | src/intelligence/push.orchestrator.ts:262-610 | and when nothing was created, such an operation can create the one product |
| `PushTheorems.LateCreateDuplicates` | src/intelligence/push.orchestrator.ts:453-493 | without the timeliness assumption two products are reachable |
| `PushTheorems.SharedOperationIdDuplicates` | src/intelligence/push.service.ts:98-134 | without distinct live operation ids two products are reachable |
| `PushTheorems.RejectionDoesNotStopAClaim` | src/intelligence/push.orchestrator.ts:151-214 | a candidate rejected after the eligibility read is claimed all the same |
| `PushTheorems.StatusIsNotAbsorbing` | src/intelligence/intelligence.service.ts:895-924 | a persisted analysis resets the status of a pushed candidate, which stays unclaimable |
| `Price.DecideVariantPrice` | src/automation/price.rules.ts:213-429 | the step-by-step decision, in the code's order of checks, equals the declarative one the lemmas below are about |
| `Price.LowestCurrentMargin` | src/automation/price.rules.ts:438-452 | the least computable margin over the variants; absent exactly when none can be computed |
| `Price.SuggestedPriceMeetsTheMargin` | src/pricing/pricing.service.ts:204-308 | what the suggested price leaves after fees and margin is the absolute cost, to within the rounding of the price |
| `Price.TargetPriceEarnsTheMargin` | src/pricing/pricing.service.ts:133-267 | the two engines agree: sold at the suggested price a unit earns the target margin to within a minor unit and a half |
| `Price.ClearingEarnsTheFloors` | src/pricing/pricing.service.ts:334-359 | a price that clears the floors earns the margin floor up to the rounding of the quote, and the cash floor |
| `Price.EarningTheFloorsClears` | src/pricing/pricing.service.ts:334-359 | and the converse: a price that earns both floors clears them |
| `Price.UnquotableClears` | src/automation/price.rules.ts:146-176 | what the engine refuses to quote breaches no floor |
| `Price.MarginIsProfitShare` | src/automation/price.rules.ts:86-106 | a margin is the contribution over the price, to the nearest hundredth of a percent |
| `Price.MarkupTargets` | src/automation/price.rules.ts:305-316 | the two markup targets, to the nearest minor unit |
| `Price.RoundingBySetting` | src/pricing/rounding.ts:42-53 | each setting rounds as its name says: untouched, ending in 99, or a nearest positive whole unit |
| `Price.WhichCostCounts` | src/automation/price.rules.ts:230-239 | decisions look at the landed cost only, current margins at the product cost only |
| `Price.CharmIsLargestBelow` | src/pricing/rounding.ts:33-39 | charm pricing is the largest amount ending in 99 not above the target, never below 0.99 |
| `Price.RaisedIsFirstClearing` | src/automation/price.rules.ts:353-364 | the floor loop stops at the first attempt that clears both floors, or after the hundredth |
| `Price.GoalIsFirstClearing` | src/automation/price.rules.ts:343-364 | the goal is the rounded target raised to the first of at most a hundred steps that clears both floors |
| `Price.ChangeIsBounded` | src/automation/price.rules.ts:371-428 | every change stays within both percentages, is worth making, never passes the goal, reaches it exactly when not clamped, and clears both floors when clamped |
| `Price.ChangeWithinPercentages` | src/automation/price.rules.ts:371-387 | stated on the percentages themselves: a change is never cut or raised by more than its percentage, and a clamped one sits at the limit on the goal's side, short of the goal |
| `Price.SkipNamesTheFirstFact` | src/automation/price.rules.ts:220-403 | the reason of a skip is a fact about the variant, and the first one in the order of the checks |
| `Price.UnclampedClearsFloors` | src/automation/price.rules.ts:353-403 | an unclamped change clears both floors unless all hundred attempts failed |
| `Price.ChangedIffStepLeft` | src/automation/price.rules.ts:220-428 | a price is changed exactly when everything needed is known and a step worth making, and breaking no floor, is left towards the goal |
| `Price.ChangeComesCloser` | src/automation/price.rules.ts:405-428 | with a positive threshold each write comes strictly closer to a goal that depends on cost and rules only |
| `Price.UnclampedChangeSettles` | src/automation/automation.triggers.ts:17-21 | after an unclamped write the next decision is "nothing to do" exactly when the threshold is positive |
| `Price.NextRunIsQuietIff` | src/automation/automation.triggers.ts:17-21 | the run after a write changes nothing exactly when the written price is within the threshold of the goal, or the next step is below the threshold or would break a floor |
| `Price.OneWriteIsNotEnough` | src/automation/automation.triggers.ts:17-21 | an input whose clamped write is followed by another write |
| `Price.ClampedWriteCanSettle` | src/automation/automation.triggers.ts:17-21 | an input whose clamped write is followed by a run that changes nothing |
| `Price.ZeroThresholdNeverSettles` | src/automation/rules.types.ts:339-341 | a threshold of zero, which validation accepts, never yields "nothing to do" |
| `Price.StuckShortOfTheGoal` | src/automation/price.rules.ts:405-414 | an input left unchanged for good far from its goal, no floor being involved |
| `Visibility.ResolveStock` | src/automation/visibility.rules.ts:110-137 | the loop's totals: tracked quantities summed, the roll-up only when none was reported, unknown never zero |
| `Visibility.TrackedTotalAppend` | src/automation/visibility.rules.ts:110-137 | the tracked total of two lists of variants is the sum of theirs |
| `Visibility.TrackedTotalOfOne` | src/automation/visibility.rules.ts:110-137 | one variant counts with its quantity unless it is untracked or reports none |
| `Visibility.DecideVisibility` | src/automation/visibility.rules.ts:154-241 | the hide and restore decision as the code takes it equals the declarative one |
| `Visibility.SoldOutIsHidden` | src/automation/visibility.rules.ts:190-196 | with the rule on, a product whose reported quantities are all zero or less, none untracked, is hidden or already hidden |
| `Visibility.MayBeSoldIsNoReason` | src/automation/visibility.rules.ts:110-196 | stock above zero with none negative, an untracked variant, or stock that nobody reports is never a reason to hide |
| `Visibility.SellableIsHiddenIff` | src/automation/visibility.rules.ts:190-225 | a product that may be sold is hidden exactly when its cost or its margin is a reason and that rule is on |
| `Visibility.ReasonsAreFacts` | src/automation/visibility.rules.ts:190-218 | every reason given for hiding is true of the product and its rule is on |
| `Visibility.SkippedIff` | src/automation/visibility.rules.ts:154-238 | skipped are exactly the products automation may not decide about and the drafts it may not bring back |
| `Visibility.SelectionIsExact` | src/automation/visibility.rules.ts:46-98 | which products a selection admits and which tags exempt, trimmed, in any case, and never by a blank |
| `Visibility.OwnTagsAnyCase` | src/automation/visibility.rules.ts:54-68 | the two tags of the automation are recognised in any case and between blanks |
| `Visibility.ChangeSettles` | src/automation/automation.service.ts:262-315 | carrying out a change settles it at the same prices, even when the tag write fails |
| `Visibility.OnlyOwnHidesAreUndone` | src/automation/visibility.rules.ts:170-238 | only a draft that automation hid is restored, never an archived one or one awaiting review |
| `Visibility.HideThenRestore` | src/automation/automation.service.ts:262-315 | after a hide whose cause went away the product is restored exactly when the tag write succeeded, the tag is not itself exempt, restoring is on and no review is pending; the listing is then as it was unless the tag was written and its removal failed |
| `Visibility.ChangedIffNotAtRest` | src/automation/visibility.rules.ts:170-240 | a product not exempt is left alone exactly when it is a draft if it has a reason to be hidden, and, if automation hid it for no present reason, is awaiting review or restoring is off |
| `Plan.BuildPlan` | src/automation/plan.ts:90-222 | the capped plan is the first min(cap, total) actions of the uncapped one; the flag says exactly whether something was met with the plan full; an unset flag means nothing was cut |
| `Plan.PlanVariants` | src/automation/plan.ts:172-203 | the inner loop, with its own exact cut condition |
| `Plan.ProductActionsAre` | src/automation/plan.ts:104-170 | what is asked of a product: nothing outside the selection or when exempt, and no price change while it is being hidden |
| `Plan.AllActionsAre` | src/automation/plan.ts:101-204 | an action is in the uncapped plan exactly when one of the products asks for it |
| `Plan.PlannedIff` | src/automation/plan.ts:101-192 | the uncapped plan holds exactly the changes some selected, unexempt product's decisions ask for, with old value, currency and clamp flag |
| `Plan.VisibilityComesFirst` | src/automation/plan.ts:144-192 | a product's visibility change stands before its prices |
| `Plan.NotTruncatedMeansAll` | src/automation/plan.ts:130-176 | a clear flag means the whole plan fits |
| `Plan.FlaggedWithNothingCut` | src/automation/plan.ts:130-176 | the flag is set with nothing cut exactly when the plan is full to the action and a considered product, or a further variant of one not being hidden, is met from which on nothing is asked for |
| `Plan.FlagIsRaisedForNothing` | src/automation/plan.ts:130-133 | a store of two products for which that happens |
| `PlanHash.CanonicalIffSameWrites` | src/automation/plan.ts:252-282 | with distinct keys two canonical forms are equal exactly when the plans make the same multiset of store writes |
| `PlanHash.SameWriteIff` | src/automation/plan.ts:252-283 | two actions make the same write exactly when target, old value, new value and currency agree, clamped or not |
| `PlanHash.KeyIsTarget` | src/automation/plan.ts:280 | for Shopify identifiers the sort key identifies type, product and variant and nothing else |
| `PlanHash.PlanKeysAreDistinct` | src/automation/plan.ts:253-280 | every plan over a store with unique identifiers has distinct keys |
| `PlanHash.ProductOrderKeepsHash` | src/automation/plan.ts:277-281 | when the cap cuts nothing, reordering the products never changes the hash |
| `PlanHash.CutOrderChangesHash` | src/automation/plan.ts:130-133 | moving a product with actions to the other end of a list that is cut changes the hash, for any cap |
| `PlanHash.OrderKeepsHashIff` | src/automation/plan.ts:277-281 | every rearrangement of the products keeps the hash exactly when nothing is cut or at most one product has actions |
| `Convergence.WritingComesCloser` | src/automation/automation.triggers.ts:17-21 | any non-empty part of a plan, once written, strictly lowers the rank: distances to the goals first, unsettled visibilities second |
| `Convergence.EffectiveRunsAreBounded` | src/automation/automation.triggers.ts:17-30 | the number of runs that change anything is at most the initial rank, whatever is cut off or fails in each |
| `Convergence.LoopEnds` | src/automation/plan.ts:90-204 | repeated complete runs reach an empty plan within that many runs, under any cap |
| `Convergence.RestIffNothingLeft` | src/automation/automation.triggers.ts:17-21 | the plan is empty exactly when every considered product is shown or hidden as the rules want and no variant has a step worth making left |
| `Execution.RunPreparedPlan` | src/automation/automation.service.ts:503-700 | every planned action is reported once, visibility first and then by product; with k the number of its call, an action is not attempted exactly when Shopify was degraded before call k or an earlier one, else applied or rejected as call k went; the counters match; a product's prices share one fate |
| `Execution.GroupByProduct` | src/automation/automation.service.ts:628-634 | the insertion-ordered map holds, for each product by first appearance, exactly its price actions in plan order |
| `Execution.OrderIsByFirstAppearance` | src/automation/automation.service.ts:628-636 | products are called in the order of their first price change in the plan |
| `Execution.SelectionsKeepOrder` | src/automation/automation.service.ts:567-634 | visibility changes, and each product's prices, keep the plan's order |
| `Execution.ExecutionOrderIsTheWholePlan` | src/automation/automation.service.ts:565-697 | that execution order is a rearrangement of the plan |
| `Execution.RegroupingKeepsTheEffect` | src/automation/automation.service.ts:625-697 | executing in that order leaves the store exactly as the plan's own order would |
| `Execution.AnyProgressComesCloser` | src/automation/automation.service.ts:514-547 | however badly a run goes, if anything was applied the store is closer to rest |
| `PreviewStore.Store.RecordPreview` | src/automation/preview.store.ts:80-113 | recording prunes expired and used previews and adds a fresh one |
| `PreviewStore.Store.FindApplicable` | src/automation/preview.store.ts:124-163 | the refusals in the code's order, a missing or blank identifier first, and the deletion of an expired record |
| `PreviewStore.Store.ConsumePreview` | src/automation/preview.store.ts:171-198 | consumption requires both hashes to match and makes any further consumption fail; a refusal changes nothing |
| `PreviewStore.Store.Prune` | src/automation/preview.store.ts:73-77 | exactly the unexpired, unused records remain |
| `PreviewStore.Lock.Acquire` | src/automation/automation.lock.ts:29-45 | succeeds exactly when nobody holds the lock, and changes nothing otherwise |
| `PreviewProtocol.PreviewIsSingleUse` | src/automation/automation.controller.ts:245-283 | in every interleaving each preview authorises at most one apply |
| `PreviewProtocol.AppliesNeverOverlap` | src/automation/automation.service.ts:458-500 | no two applies, manual or webhook, are ever executing together |
| `PreviewProtocol.AppliesWhatWasReviewed` | src/automation/automation.controller.ts:257-283 | a manual apply executes, for the store the preview was shown for, a plan with the reviewed rules and exactly the reviewed store writes |
| `PreviewProtocol.FoundBeforeExpiry` | src/automation/preview.store.ts:149-155 | the preview of an apply was unexpired when it was found |
| `PreviewProtocol.ArrivalExecutesIff` | src/automation/automation.controller.ts:257-283 | over every run, a prepared apply executes exactly when writes are allowed, its preview was not consumed, rules and writes are the reviewed ones, the lock is free, and since the expiry no preview was shown and no apply named this one |
| `PreviewProtocol.ArrivalExecutesOrRefuses` | src/automation/automation.service.ts:458-500 | a plan that arrives is executed as it arrived with the lock taken, or refused for good; a webhook's executes exactly when writes are allowed and the lock is free |
| `PreviewProtocol.ApplyFindsIff` | src/automation/preview.store.ts:124-163 | over every run, an apply finds its preview exactly when it was shown for this store, is younger than ten minutes and was not consumed; a refusal names its fact, and no earlier one |
| `PreviewProtocol.ExpiryIsCheckedOnlyAtFind` | src/automation/preview.store.ts:171-198 | an input for which a re-preparation that outlives the preview still applies it |
| `Cooldown.TriggerCooldown.TryAcquire` | src/automation/automation.triggers.ts:158-165 | the answer and the whole new map, pruning included |
| `Cooldown.PruningChangesNoAnswer` | src/automation/automation.triggers.ts:167-173 | under a clock that runs forward a trigger is granted exactly when none was granted for its product within the window before it |
| `Cooldown.GrantsAreSpaced` | src/automation/automation.triggers.ts:144-165 | two runs for one product are at least a window apart |
| `StableJsonProofs.EqualTextIffSame` | src/common/stableStringify.ts:22-38 | two values have the same text exactly when they are equal up to member order and undefined members, undefined elsewhere reading as null |
| `StableJsonProofs.RoundTrip` | src/common/stableStringify.ts:22-38 | reading a text back gives the value's canonical tree and leaves nothing over |
| `StableJson.PrintsCanon` | src/common/stableStringify.ts:24-35 | sorting the printed members is printing the sorted tree |
| `StableJsonProofs.CanonIffSame` | src/common/stableStringify.ts:27-35 | canonical trees are equal exactly for values that are the same |
| `StableJsonProofs.LeqIsLexicographic` | src/common/stableStringify.ts:25-26 | members are ordered lexicographically, a key before its own extensions |
| `StableJsonProofs.PrintsMembersInOrder` | src/common/stableStringify.ts:24-35 | two members are printed in that order, whichever was inserted first |
| `Idempotency.ClaimsNeverOverlap` | src/common/idempotency.ts:125-191 | two handlers never run under one key at once, as long as no record of that key expires under its handler |
| `Idempotency.StoredIsFinal` | src/common/idempotency.ts:212-251 | once a response is stored nobody claims the key again, and the response stays, until the record expires |
| `Idempotency.LaterRequestsReplay` | src/common/idempotency.ts:141-190 | a later request under the key replays that response if it is the same request and conflicts if not |
| `Idempotency.ReadAnswers` | src/common/idempotency.ts:141-190 | what a duplicate is told, case by case: through only when the record is gone, conflict on another request, in progress while nothing is stored, else the stored response |
| `Idempotency.HeldKeyNeverPassesThrough` | src/common/idempotency.ts:155-176 | over every run, while a handler holds the key no duplicate goes through: the same request is told to wait, another conflicts |
| `Idempotency.ArrivalClaimsIff` | src/common/idempotency.ts:125-138 | a claim is taken exactly when there is no record, and its record may expire exactly from its time to live on |
| `Idempotency.OutcomeIsReplayed` | src/common/idempotency.ts:212-251 | the same request is given the written outcome unless it was retryable, and told to wait if the write was lost or the process died |
| `Idempotency.OutcomeWrites` | src/common/idempotency.ts:219-240 | what the ending write does to whatever record it finds: a retryable outcome removes one in progress and leaves a completed one, any other replaces what is stored, and no other key is touched |
| `Idempotency.OutcomeDecidesTheKey` | src/common/idempotency.ts:212-240 | once the outcome is written the next request runs the handler exactly when the status was 5xx or 429 |
| `Idempotency.RecordsAnswerTheirOwner` | src/common/idempotency.ts:217-240 | what is stored is the non-retryable answer its owner gave to the request whose hash is stored |
| `Idempotency.LandsOnAnotherIff` | src/common/idempotency.ts:219-240 | over every run, a handler's outcome lands on another request's record exactly when the key was claimed again in the meantime and there is a record to match; it takes a record of that key that expired under its handler |
| `Idempotency.ExpiryUnderAHandlerMixesAnswers` | src/common/idempotency.ts:230-240 | a record expiring under its handler lets a second one run and receive the first one's answer |
| `Idempotency.ExpiryUnderAHandlerFreesALiveClaim` | src/common/idempotency.ts:219-228 | a retryable failure of the expired owner deletes the second one's live claim, and a third handler runs beside it |
| `Revision.ChangedFieldsAreComplete` | src/intelligence/candidate.revision.ts:145-162 | the list of changed fields is empty exactly when the normalised inputs are equal |
| `Revision.UnchangedIff` | src/intelligence/candidate.revision.ts:87-151 | field by field, exactly what two inputs may differ in and still count as unchanged |
| `Revision.KeywordsAreASet` | src/intelligence/candidate.revision.ts:93-97 | two keyword lists share a normal form exactly when they name the same set |
| `Revision.MonthsAreABag` | src/intelligence/candidate.revision.ts:115-118 | peak months compare without their order |
| `Revision.WrittenIsWhatWasCompared` | src/intelligence/intelligence.service.ts:405-443 | on an unchanged row the fields written and the projection compared normalise alike |
| `Revision.EditWritesWhatItMentions` | src/intelligence/intelligence.service.ts:397-417 | field by field: a mentioned field is written as requested, an unmentioned one keeps what the row holds, and unmentioned commercials and research go back to what the edit read |
| `Revision.CurrentMeansCurrent` | src/intelligence/candidate.revision.ts:171-179 | a score reported current was computed from the current normalised inputs, in every run whose edits each move an input as read or overtake nothing |
| `Revision.AtomicEditsStayFresh` | src/intelligence/intelligence.service.ts:738-924 | in particular when each edit is one step, with analyses prepared and persisted in any interleaving |
| `Revision.FreshAnalysisIsCurrent` | src/intelligence/intelligence.service.ts:738-924 | a score persisted with no edit in between reads as current and was computed from the row as it is |
| `Revision.EditMakesStaleIff` | src/intelligence/candidate.revision.ts:171-180 | one edit turns a current score stale exactly when its request moves an input as read; without a recorded revision a score always is |
| `Revision.HonestyIsExact` | src/intelligence/intelligence.service.ts:383-452 | a write keeps a current score truthful exactly when its request moves an input as it read them, or no input it overwrites has moved since it read it |
| `Revision.StaleWriteHidesAChange` | src/intelligence/intelligence.service.ts:397-452 | the failing instance: the code's own edits restore an old cost while the score reads as current |
| `AuditPaging.CursorRoundTrip` | src/audit/audit.service.ts:309-324 | a cursor decodes to its parts exactly when the time part parses, both are non-empty and the id has no separator |
| `AuditPaging.RestOfListing` | src/audit/audit.service.ts:352-369 | the rows after any row of a listing are the listing from that row's cursor |
| `AuditPaging.BrowseReturnsEverything` | src/audit/audit.service.ts:365-383 | following the cursor to the end yields the whole listing, for any limit of at least one, and the end is reached, with newer rows written between pages |
| `AuditPaging.BrowsingIsComplete` | src/audit/audit.service.ts:327-383 | every row present at the start is returned exactly once, latest time first and by descending id within a time |
| `Money.SumMoney` | src/common/money.ts:180-189 | sums exactly in minor units, ignores absent amounts, and refuses when one is out of range |
| `Money.MinorUnitsRoundTrip` | src/common/money.ts:111-146 | whole minor units survive the trip, and rounding settles in one step |
| `Money.RoundMoneyIsNearest` | src/common/money.ts:101-146 | a rounded amount is a nearest whole number of minor units |
| `Money.RoundIsSymmetric` | src/common/money.ts:101-109 | a loss rounds as the mirrored gain does |
| `Money.PercentageOf` | src/common/money.ts:210-215 | a fee is within half a minor unit of the exact percentage |
| `Money.TotalIgnoresOrder` | src/common/money.ts:180-189 | a sum does not depend on the order of its terms |
| `Money.TotalOfOne` | src/common/money.ts:180-189 | a sum of one amount is that amount to the nearest minor unit, an absent one adds nothing |
| `Money.TiesGoAwayFromZero` | src/common/money.ts:101-103 | a tie goes away from zero, for a percentage too |
| `OrderEconomics.TotalPerUnit` | src/dropshipping/dropshipping.cost.ts:154-195 | one unrecorded line makes the component unknown, and exactly the unrecorded lines are named in order |
| `OrderEconomics.LineTotalAppend` | src/dropshipping/dropshipping.cost.ts:154-195 | the lines of an order add up |
| `OrderEconomics.LineTotalOfOne` | src/dropshipping/dropshipping.cost.ts:154-195 | one line costs its recorded amount times its quantity, to the nearest minor unit, for each of the three components |
| `OrderEconomics.ComputeOrderEconomics` | src/dropshipping/dropshipping.cost.ts:211-427 | the whole derivation, with its missing inputs, equals the declarative one the lemmas below are about |
| `OrderEconomics.EconomicsBalance` | src/dropshipping/dropshipping.cost.ts:263-427 | whenever a profit is reported, revenue equals profit plus every component, to the minor unit |
| `OrderEconomics.SupplierIsOwed` | src/dropshipping/dropshipping.cost.ts:231-289 | product cost and shipping are known exactly when every line has them, and the landed cost is product, shipping and surcharge together |
| `OrderEconomics.AmountsAreNearest` | src/dropshipping/dropshipping.cost.ts:224-332 | revenue and the flat cost are the amounts given, to the nearest minor unit |
| `OrderEconomics.FeesFollowTheirSwitches` | src/dropshipping/dropshipping.cost.ts:291-323 | a fee is a known zero when switched off, unknown without a revenue, and an estimate otherwise |
| `OrderEconomics.MarginIsProfitShare` | src/dropshipping/dropshipping.cost.ts:386-398 | a margin is the profit's share of the revenue, to the nearest hundredth of a percent |
| `OrderEconomics.MissingInputsAre` | src/dropshipping/dropshipping.cost.ts:217-342 | exactly which inputs are named as missing, read off the order and the configuration |
| `OrderEconomics.FiguresAreHonest` | src/dropshipping/dropshipping.cost.ts:48-118 | every figure lacks an amount exactly when it is UNKNOWN |
| `OrderEconomics.ProfitUnknownIffInputsMissing` | src/dropshipping/dropshipping.cost.ts:345-424 | profit is unknown exactly when the list of missing inputs is not empty |
| `OrderEconomics.ProfitIsKnownOnlyWithoutModelledFees` | src/dropshipping/dropshipping.cost.ts:291-427 | profit is KNOWN exactly when nothing is missing and no percentage was modelled |
| `OrderEconomics.OverallConfidenceIsTheProfits` | src/dropshipping/dropshipping.cost.ts:366-412 | the overall confidence always is the profit's, and a margin is quoted exactly when there is a profit on a revenue that is not zero |
| `OrderEconomics.FeesAreNearest` | src/dropshipping/dropshipping.cost.ts:296-311 | each modelled fee is within half a minor unit of the exact percentage |
| `OrderEconomics.PartialSurchargeIsKnown` | src/dropshipping/dropshipping.cost.ts:263-277 | a surcharge on some lines only is a known total, the others counting as zero |
| `Exposure.AggregateOrders` | src/dropshipping/dropshipping.analytics.ts:178-223 | included plus excluded is the number of orders, and the aggregate is the one the lemmas below are about |
| `Exposure.TotalledSplits` | src/dropshipping/dropshipping.analytics.ts:178-223 | aggregating the parts and adding gives the aggregate of the whole |
| `Exposure.TotalledIgnoresOrder` | src/dropshipping/dropshipping.analytics.ts:178-223 | the aggregate does not depend on the order of the orders |
| `Exposure.TotalledOfOne` | src/dropshipping/dropshipping.analytics.ts:178-223 | one order adds its figure, or one exclusion that makes the total an estimate when its cost is unknown or in another currency |
| `Exposure.KeepOfOne` | src/dropshipping/dropshipping.analytics.ts:147-164 | which groups an order is selected for, by paid, progress state and cost |
| `Exposure.KeepAppend` | src/dropshipping/dropshipping.analytics.ts:382-411 | a group of two lists is the two groups in order |
| `Exposure.ComputeExposure` | src/dropshipping/dropshipping.analytics.ts:382-447 | commitments, fulfilled, outstanding by subtraction and the count of unknown costs |
| `Exposure.ExposureTotals` | src/dropshipping/dropshipping.analytics.ts:382-447 | commitments, fulfilled and the count of unknown costs of two lists add up |
| `Exposure.ExposureOfOne` | src/dropshipping/dropshipping.analytics.ts:382-447 | what one order adds: an unpaid or cancelled one nothing at all |
| `Exposure.OutstandingIsFloored` | src/dropshipping/dropshipping.analytics.ts:425-443 | outstanding is committed minus dispatched, and never below zero |
| `Exposure.OutstandingIsTheWaitingOrders` | src/dropshipping/dropshipping.analytics.ts:412-443 | against a direct aggregate over the paid, uncancelled, undispatched orders: amount and included always agree, the excluded count exactly when every dispatched order was included, the confidence exactly when no dispatched order is estimated or excluded or a waiting one is too |
| `Exposure.DispatchedEstimateSpoilsConfidence` | src/dropshipping/dropshipping.analytics.ts:436-442 | two orders for which the confidences differ |
| `Exposure.DispatchedUnknownStaysExcluded` | src/dropshipping/dropshipping.analytics.ts:436-442 | two orders for which the excluded counts differ |
| `Exposure.TotalledConfidence` | src/dropshipping/dropshipping.analytics.ts:206-208 | an aggregate is estimated exactly when an order in it is, or had to be left out |
| `Exposure.CountStates` | src/dropshipping/dropshipping.analytics.ts:452-505 | the counting loop equals the tally the two lemmas below are about |
| `Exposure.CountersAre` | src/dropshipping/dropshipping.analytics.ts:452-505 | each of the nine counters is the number of orders in its states |
| `Exposure.CountsArePartition` | src/dropshipping/dropshipping.analytics.ts:466-500 | every order lands in exactly one progress bucket |
| `Exposure.CountsMatchGroups` | src/dropshipping/dropshipping.analytics.ts:452-505 | cancelled, shipped and dispatched counts equal the sizes of the groups the exposure selects |

## Left out

- Express routing, headers, logging, health, diagnostics, sessions, OAuth, encryption and redaction.
- Shopify's GraphQL, MongoDB and the network: each call is one atomic step with a nondeterministic outcome.
- SHA-256: hashes are taken to be injective, so records hold what was hashed.
- Floating point: amounts are whole minor units or exact reals, percentages exact reals; the refusal of amounts above the accepted range is modelled in `Money`, and not inside price decisions or order economics.
- Human-readable reasons, warnings, notes, titles, projected margins and the summary counts of a plan: only what a decision or a write depends on is kept, and skipped items are not listed.
- Supplier gate, duplicate matcher, advisory duplicate check and scoring: the gates of a push are one arbitrary outcome.
- Audit and cost records, warnings and the score persisted during a push: side effects that no step of the protocol reads.
- Resolving a cost from its sources: a variant carries its resolved cost, landed cost, currency and whether shipping is known.
- Text normalisation covers ASCII letters and blanks, space, tab, carriage return and line feed only; Unicode case folding is not modelled.
- Object keys are ordered by character instead of by UTF-16 code unit, and plan keys by any total order instead of by locale: nothing proved depends on which total order is used.
- Lone surrogates in JSON strings, and numbers beyond their printed form.
- Operator-set labels of order figures: one currency per order figure is carried for exposure only, and mixed-currency labels inside one order are not modelled.
- The revenue aggregate of the exposure and the overlapping `delayed` counter: the same fold again, and a count independent of the buckets.
- Dry runs, which report every action as planned and write nothing, and the rules-merging `resolveRules`.
- Process restarts, which empty the preview store and free the lock.
- Idempotency.ClaimsNeverOverlap: does not cover requests that pass through because the record vanished between insert and read, which hold no claim.
- Idempotency.StoredIsFinal: does not cover a key after its record has expired.
- AuditPaging.CursorRoundTrip: the date parser is a parameter that accepts or refuses the time part; the date it yields is not modelled.
- OrderEconomics.ComputeOrderEconomics: does not model the refusal of an order with an amount above the accepted range.
- PreviewProtocol.AppliesWhatWasReviewed: equality of writes is stated for previews whose write keys are distinct, which `PlanHash.PlanKeysAreDistinct` provides for every store with Shopify identifiers.
