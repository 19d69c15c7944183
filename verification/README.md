# meltica: a verified model of the gateway's stateful cores

The Go gateway routes market data from exchange providers to strategy lambdas and
checks the orders they send. This project models the parts of it that keep state and
proves what they keep over whole runs and in every interleaving:

- **Risk manager** (`Risk*.dfy`): pre-trade checks, fills, in-flight counts, breach
  count, kill switch and timed circuit breaker. `RiskModel` gives every operation as a
  function of the state, `RiskManager` is the class that carries it out in place,
  `RiskOutcome` tells every answer and every change from request, report, state and
  limits alone, and the other files prove properties of runs: how far a position can go, that it is the
  ledger of its fills, what the in-flight counter counts, and when trading is halted.
- **Routing** (`Filter*.dfy`, `Route*.dfy`, `RebuildSignal.dfy`): the merge of filter
  declarations and what the merged rules say of them (`FilterDeclared`), the comparison
  of routes, the table, one rebuild against a router that may refuse any call, and the
  one-slot signal that starts rebuilds.
- **Object pool** (`Pool*.dfy`): workers lending one object each through leases, a
  request queue that drops its oldest entry, what can get lost or stuck, when a call can
  return and when it always does, and the manager's counters and bulk calls.
- **Duplicate filter** (`Dedupe.dfy`), **script executor** (`SerialExecutor.dfy`),
  **provider lifecycle** (`ProviderLifecycle.dfy`) and **configuration sanitiser**
  (`Sanitize.dfy`, and in `SanitizeKeys.dfy` which keys it takes for credentials).

Code that changes objects in place is a class whose methods equate the new state with a
function of the old one; protocols between goroutines are step relations in which any
enabled step may come next. `Common.dfy`, `Text.dfy` and `Ordering.dfy` hold shared
vocabulary: options, finite sums, Go's trimming and letter case, sorted listings, each
with a law that tells it from the characters.

Check everything with `dafny verify dfyconfig.toml`, and within
`--resource-limit 2000000 --verification-time-limit 0`.

## Where the code does less than one might expect

Each of these is a theorem about the model, with the exact condition where there is one.

- Positions stay within (2K - 1) times the maximum, K orders at a time, exactly when
  K = 1 or the kill switch is on and never reopens by itself (`RiskOvershoot.BoundExact`);
  otherwise, as with a breaker that has a cooldown, no bound holds at all
  (`RiskOvershoot.BoundedExactly`).
- The circuit breaker does nothing unless the kill switch is enabled too
  (`RiskHalt.BreakerNeedsKillSwitch`).
- A client id reused while its order is live leaks an in-flight slot for good, and
  enough of them lock the symbol (`RiskInflight.LeakedSlotsLockTheSymbol`).
- A lifted halt does not reset the breach count (`RiskHalt.SpentBudgetHaltsAtEveryBreach`).
- Merging declarations that constrain different fields narrows what a lambda receives
  (`FilterMeaning.LambdaKeepsItsEvents`).
- The comparison of filters does not see a change of letter case in a field, nor commas
  inside values, nor where a field with a bar in it ends (`FilterMeaning.CaseChangeUnseen`,
  `FilterMeaning.CommaUnseen`, `FilterMeaning.BarUnseen`); on merged rules with nothing of
  the kind it is exact (`RouteCompare.EqualFiltersExact`).
- Route types are documented as upper-case alphanumeric, but the valid ones are exactly
  dotted upper-case letters: digits are rejected (`RouteTable.ValidKindsExactly`,
  `RouteTable.DigitsRejected`).
- A rebuild that failed in part is not tried again before the next signal
  (`RebuildSignal.RestIsCurrent`).
- An object delivered to a borrower that gives up just then is never seen again
  (`PoolLosses.StrandedForGood`). It happens exactly where requests carry contexts that
  can run out (`PoolLosses.StrandsExactly`).
- A borrower that saw the queue full drops the oldest request later, whatever room there
  is by then. That takes a queue of two places or more (`PoolLosses.DropsWithRoomExactly`)
  and more requests taken out than added while it stood still (`PoolLosses.DropsWithRoomAfter`).
- If the queue is empty by then, the borrower hangs past its context until somebody else
  queues a request, which it can then fail although workers are idle
  (`PoolLosses.StuckExactly`, `PoolLosses.HangReached`, `PoolLosses.HangsUntilSomebodyJoins`,
  `PoolLosses.HangingFailsTheNext`).
- TryGet is documented as not blocking, but waits once queued. It always comes back by
  itself exactly if the queue is full or more workers can serve than there are requests,
  those with expired contexts included (`PoolBlocking.TryGetReturnsExactly`); it can come
  back exactly if the queue is full or more workers can serve than there are live requests
  (`PoolWaiting.TryGetCanReturnExactly`). A pool where it only can:
  `PoolBlocking.ReturnsOnlySometimes`.
- The same numbers decide whether TryGetMany can, or always does, obtain what it asks for
  (`PoolBlocking.TryGetManyCanObtainExactly`, `PoolBlocking.TryGetManyObtainsExactly`);
  otherwise it can be left waiting with what it has got.
- A pool does not notice a second return of an object while its worker has received the
  first one and not yet removed the lease, or has leased the object to the next request
  (`PoolCalls.SecondReturnNoticed`, `PoolCalls.SecondReturnUnnoticed`). The manager then
  notices it exactly if nothing else is in flight: counting that below zero panics, in
  TryPut and TryPutMany too (`PoolManager.Manager.Put`, `PoolManager.Manager.TryPut`).
  They also panic on a lease that is cancelled while it is being put
  (`PoolCalls.CancelledMeanwhile`).
- A put that fails panics and still lowers the pool manager's counters
  (`PoolManager.Manager.Put`).
- A provider removed and created again during its start can end up running the old
  specification, with a context nobody can cancel (`ProviderLifecycle.RecreateDuringStart`).
  A run keeps every context in reach exactly if no step overrides a running provider
  (`ProviderLifecycle.AccountedExactly`), and what runs up to date exactly if no start is
  recorded with a specification replaced meanwhile (`ProviderLifecycle.CurrentExactly`).

## Model

| member | source | states |
|---|---|---|
| RiskPosition.PositionBound | backend/internal/app/risk/risk.go:274-311 | with K orders at a time, and K = 1 or a kill switch that stays, no run of honest reports takes any position past (2K - 1) times the maximum |
| RiskPosition.StepSound | backend/internal/app/risk/risk.go:218-365 | every operation keeps: not halted implies within the maximum, and position plus everything outstanding one way within (2K - 1) times it |
| RiskPosition.FillHalts | backend/internal/app/risk/risk.go:512-540 | a fill that takes the position past the maximum halts trading |
| RiskOvershoot.BoundAttained | backend/internal/app/risk/risk.go:274-311 | for all limits there is an honest, clocked run that ends exactly at the bound |
| RiskOvershoot.DownRunReaches | backend/internal/app/risk/risk.go:411-425 | the run up to the bound, past the cooldown, and down by twice K times the maximum where the breaker reopens |
| RiskOvershoot.BoundExact | backend/internal/app/risk/risk.go:411-425 | the bound holds in every valid run if and only if K = 1 or the kill switch is on and never reopens by itself |
| RiskOvershoot.GoesPast | backend/internal/app/risk/risk.go:411-425 | with a reopening breaker and two orders at a time, or no concurrency limit, some valid run passes any given bound |
| RiskOvershoot.BoundedExactly | backend/internal/app/risk/risk.go:274-311 | positions are within some bound in all valid runs if and only if there is a concurrency limit and it is one, or the kill switch is on and stays |
| RiskLedger.PositionIsLedger | backend/internal/app/risk/risk.go:334-356 | a position is the sum over all orders admitted on the symbol of the signed largest cumulative fill reported while each was live |
| RiskLedger.ReportOrderIrrelevant | backend/internal/app/risk/risk.go:334-352 | runs of open reports with the same contents, repeated, in any order and at any clock readings, end in the same orders and positions |
| RiskLedger.LifeMaxIsLargest | backend/internal/app/risk/risk.go:337-352 | in every run what an order is booked at is one of the fills reported during its life, or what was booked before, and none of those is larger |
| RiskInflight.InflightExact | backend/internal/app/risk/risk.go:299-311 | in every run the in-flight count is the number of live orders plus those overwritten under a reused id, across symbols |
| RiskInflight.InflightWithFreshIds | backend/internal/app/risk/risk.go:489-510 | with fresh ids it equals the live orders, keeps within a fixed limit, and is zero once all are closed |
| RiskInflight.LeakedSlotsLockTheSymbol | backend/internal/app/risk/risk.go:489-504 | once as many live orders were overwritten as there are slots, no order on the symbol is ever admitted again |
| RiskHalt.HaltExact | backend/internal/app/risk/risk.go:411-425 | an order is turned away by a halt exactly while the last engagement is in force, and the cooldown end is that engagement plus the cooldown |
| RiskHalt.HaltSafety | backend/internal/app/risk/risk.go:568-580 | an admission after an engagement means the breaker is on and the full cooldown has passed |
| RiskHalt.FailureCountExact | backend/internal/app/risk/risk.go:542-566 | in every run the failure count is the number of refused orders, limits overrun by a new fill and rejections under an enabled kill switch since the last reset |
| RiskHalt.BreachBudget | backend/internal/app/risk/risk.go:542-566 | with fixed limits that never reopen, trading not halted is below every engaged threshold |
| RiskHalt.SpentBudgetHaltsAtEveryBreach | backend/internal/app/risk/risk.go:411-417 | once a threshold has been met, every later breach halts at once, cooldowns or not |
| RiskHalt.BreakerNeedsKillSwitch | backend/internal/app/risk/risk.go:568-580 | with the kill switch disabled nothing ever halts, whatever the breaker says |
| RiskModel.AdmitEffect | backend/internal/app/risk/risk.go:299-311 | an admission adds one open order and one in-flight slot, within the limits checked, and nothing else |
| RiskModel.ExecutionEffect | backend/internal/app/risk/risk.go:334-364 | a report moves the position by the new part of its fill, records it, and frees order and slot when terminal |
| RiskModel.OtherEffect | backend/internal/app/risk/risk.go:315-336 | every other operation, and reports that do not parse or name no live order, leave orders, positions and slots alone |
| RiskModel.ExecutionRecorded | backend/internal/app/risk/risk.go:512-566 | each breach a report causes is counted once, halts when it meets a threshold, and a halt is never lifted by it |
| RiskModel.CheckRecorded | backend/internal/app/risk/risk.go:242-297 | the same for a check: exactly one breach counted for a refusal and none otherwise, the halt lifted only by an expired cooldown |
| RiskModel.BreachesObserved | backend/internal/app/risk/risk.go:242-297 | the breaches a step records are the ones to be seen in its verdict, position, reported price and state, and it engages the kill switch exactly when enabled and a fill overran a limit or a breach met a threshold |
| RiskOutcome.VerdictExactly | backend/internal/app/risk/risk.go:218-312 | every answer to an order: past the limiters and a halt, admitted iff type, quantity and price, price band, position, notional and concurrency all meet the limits, and else refused for the first that does not |
| RiskOutcome.CheckExactly | backend/internal/app/risk/risk.go:218-312 | what a check writes: the order at its resolved price and one more in flight if admitted; one breach, and at a threshold the halt with its cooldown, if refused |
| RiskOutcome.CheckReferences | backend/internal/app/risk/risk.go:439-487 | a reference price is set only where there is none, to the first price that gets as far as the band |
| RiskOutcome.ReportBooks | backend/internal/app/risk/risk.go:325-365 | a new fill moves the position by its signed amount and values it at the average price reported, or else the limit price; an end removes the order and frees its slot; nothing else is booked |
| RiskOutcome.ReportAlarm | backend/internal/app/risk/risk.go:512-566 | the limits a new fill overruns at that price, and a rejection under an enabled kill switch, are counted and halt as they should |
| RiskManager.NormalizeAllowedOrderTypes | backend/internal/app/risk/risk.go:143-162 | what is kept is trimmed, not empty, distinct up to letter case, the first spelling of its kind and in the order of the list, and no type is lost |
| RiskManager.NormalTypesAllowTheSame | backend/internal/app/risk/risk.go:197-215 | normalising the limits does not change which order types they allow |
| RiskManager.Manager.constructor | backend/internal/app/risk/risk.go:165-194 | starts from the normalised limits and empty books |
| RiskManager.Manager.UpdateLimits | backend/internal/app/risk/risk.go:197-215 | replaces the limits and keeps books, count and halt |
| RiskManager.Manager.CheckOrder | backend/internal/app/risk/risk.go:218-312 | the in-place check: state and verdict are those of the model's step; admitted iff every requirement is met, refused for the first that is not |
| RiskManager.Manager.HandleExecution | backend/internal/app/risk/risk.go:325-365 | the in-place report handling: the state is that of the model's step |
| RiskManager.Manager.ApplyFill | backend/internal/app/risk/risk.go:512-540 | position, notional and the breaches of a fill as in the model |
| RiskManager.Manager.RecordRiskBreach | backend/internal/app/risk/risk.go:542-566 | counts the breach and engages the halt at either threshold |
| RiskManager.Manager.EngageKillSwitch | backend/internal/app/risk/risk.go:568-580 | engages only where enabled, with a cooldown only under a breaker that has one |
| RiskManager.Manager.EnsureTradingActive | backend/internal/app/risk/risk.go:411-425 | lifts an expired halt or reports the one in force |
| RiskManager.Manager.ResolveOrderPrice | backend/internal/app/risk/risk.go:439-464 | the price used for exposure and the errors on the way to it |
| RiskManager.Manager.ValidatePriceBand | backend/internal/app/risk/risk.go:466-487 | the band around the market price and the reference it sets when there is none |
| RiskManager.Manager.ReleaseOrder | backend/internal/app/risk/risk.go:506-510 | frees one slot and never goes below zero |
| RiskManager.Manager.ResetKillSwitch | backend/internal/app/risk/risk.go:368-375 | clears count, halt and cooldown |
| FilterMerge.MergeFilters | backend/internal/app/dispatcher/registrar.go:377-430 | the merge with its maps walked in any order yields one list: the specification function's, which for declarations is what FilterDeclared.MergedAnswers says |
| FilterDeclared.DeclaredExactly | backend/internal/app/dispatcher/registrar.go:404-453 | the fields of a declaration are its trimmed keys, and a field's values are the trimmed texts any of its keys stands for: a text, each of several, each of a list as it prints, anything else as it prints, nil none |
| FilterDeclared.PrintsExactly | backend/internal/app/dispatcher/registrar.go:432-453 | how each kind of value prints: lists in brackets, objects as maps with their keys in order, nil as such |
| FilterDeclared.MergedAnswers | backend/internal/app/dispatcher/registrar.go:377-430 | merging declarations gives one rule for each field named, in order: eq for a single value asked for, in with the sorted values otherwise |
| FilterDeclared.NormalizedRule | backend/internal/app/dispatcher/registrar.go:455-505 | normalising a rule trims its field, keeps what its values stand for, sorts them, and lowers or chooses the operator |
| FilterDeclared.NormalizedInTurn | backend/internal/app/dispatcher/registrar.go:455-505 | normalised rules are the same rules in order of field and operator |
| FilterMerge.MergeCanon | backend/internal/app/dispatcher/registrar.go:377-430 | merging into canonical rules is adding the declaration's value sets to theirs |
| FilterMerge.MergeAllPools | backend/internal/app/dispatcher/registrar.go:217-244 | folding declarations gives each trimmed field once, sorted, with the sorted union of its values |
| FilterMerge.MergeConfluent | backend/internal/app/dispatcher/registrar.go:217-244 | any order and repetition of the same declarations gives the same rules |
| FilterMerge.NormalizeListsAny | backend/internal/app/dispatcher/registrar.go:455-504 | normalising rules listed in any field order gives the canonical list |
| FilterMerge.CanonReadsBack | backend/internal/app/dispatcher/registrar.go:383-402 | reading canonical rules back gives the value sets they were made from |
| FilterMerge.RulesOfSets | backend/internal/app/dispatcher/registrar.go:404-430 | one rule per field, "eq" for a single value and "in" otherwise, whatever the order of the map |
| FilterMerge.Accumulate | backend/internal/app/dispatcher/registrar.go:388-402 | adds a declaration's values field by field, whatever the order of the map |
| FilterMeaning.CanonMeaning | backend/internal/app/dispatcher/table.go:138-177 | canonical rules match an instance iff every field resolves to a value whose printed form is listed |
| FilterMeaning.MergedMeaning | backend/internal/app/dispatcher/table.go:138-177 | a merged route matches iff that holds for every field named by any declaration and the union of their values |
| FilterMeaning.MergeKeepsDemandExactly | backend/internal/app/dispatcher/registrar.go:377-430 | widening value sets keeps everything accepted before iff no field is added or some field had no value, for fields that do not lead through one another |
| FilterMeaning.SameFieldsKeepEverything | backend/internal/app/dispatcher/registrar.go:377-430 | a declaration that names every field of the merge, dotted paths included, loses nothing to it |
| FilterMeaning.LambdaKeepsItsEvents | backend/internal/app/dispatcher/registrar.go:377-430 | a lambda keeps its events after the merge iff no other declaration names a further field, or it accepted nothing, for fields that do not lead through one another |
| FilterMeaning.OverlappingFieldsAcceptNothing | backend/internal/app/dispatcher/table.go:159-210 | a declaration whose fields do lead through one another and that accepts nothing though every field has a value |
| FilterMeaning.CaseChangeUnseen | backend/internal/app/dispatcher/route_compare.go:105-109 | filters that differ in the letter case of a field compare equal and match differently |
| FilterMeaning.CommaUnseen | backend/internal/app/dispatcher/route_compare.go:105-109 | so do one value with a comma and two values |
| FilterMeaning.BarUnseen | backend/internal/app/dispatcher/route_compare.go:105-109 | rules that differ in where the field ends, if it contains the column mark, compare equal and accept different instances |
| RouteCompare.CompareSorted | backend/internal/app/dispatcher/route_compare.go:26-49 | equal iff the two lists agree once sorted |
| RouteCompare.CompareRoutes | backend/internal/app/dispatcher/route_compare.go:10-24 | decides the specification's route equality |
| RouteCompare.EqualRoutesExactly | backend/internal/app/dispatcher/route_compare.go:10-49 | routes are equal iff they agree on type, on provider up to case and space, and on how often each topic, call and filter line occurs |
| RouteCompare.RestLineExact | backend/internal/app/dispatcher/route_compare.go:76-78 | the line of a REST call tells name, endpoint, interval and parser, without column marks in the first two |
| RouteCompare.LineInjective | backend/internal/app/dispatcher/route_compare.go:105-109 | on legible merged rules the printed line determines field and values |
| RouteCompare.EqualFiltersExact | backend/internal/app/dispatcher/route_compare.go:80-103 | on merged filters with lower-case fields without bars and values without commas, equal iff the field-to-values maps are equal |
| RouteTable.ValidKindsExactly | backend/internal/domain/schema/event.go:85-105 | the valid route types are exactly non-empty dotted segments of upper-case letters |
| RouteTable.DigitsRejected | backend/internal/domain/schema/event.go:98-102 | a type with a digit is rejected that would be valid without it |
| RouteTable.TrimLowerCommute | backend/internal/app/dispatcher/table.go:51-56 | a route stored with its provider trimmed is found under the key of the untrimmed one |
| RouteTable.KeysExactly | backend/internal/app/dispatcher/table.go:51-56 | routes share a key iff provider and kind agree up to letter case and surrounding space |
| RouteTable.Table.Upsert | backend/internal/app/dispatcher/table.go:66-92 | stores exactly the valid routes, trimmed, under their own key, or nothing |
| RouteTable.Table.Remove | backend/internal/app/dispatcher/table.go:95-100 | removes the route of that key and no other |
| RouteTable.Table.Lookup | backend/internal/app/dispatcher/table.go:103-109 | the route stored under the normalised key |
| RouteTable.NormalizeProviders | backend/internal/app/dispatcher/registrar.go:346-364 | the trimmed, non-empty providers, each once, in the order in which they first occur |
| RouteTable.NormalizeRegistration | backend/internal/app/dispatcher/registrar.go:317-344 | succeeds iff id, some provider and all route types are good, and then keeps exactly them |
| RouteReconcile.BuildDesired | backend/internal/app/dispatcher/registrar.go:217-244 | whatever the order of the lambdas, the desired routes are the keys demanded, each with the pooled filters of its demands |
| RouteReconcile.ServedAnswers | backend/internal/app/dispatcher/registrar.go:217-244 | the filters of a desired route list, field by field, exactly the values its lambdas declare |
| RouteReconcile.DesiredConfluent | backend/internal/app/dispatcher/registrar.go:217-244 | two walks agree up to the spelling of the provider |
| RoutePass.BuiltIsProper | backend/internal/app/dispatcher/registrar.go:277-281 | every desired route is storable as it is, so an acknowledged activation always lands in the table |
| RoutePass.Registrar.ApplyRoutes | backend/internal/app/dispatcher/registrar.go:212-290 | the table is the replay of the acknowledged calls; the calls are those needed, each once; the version rises by one iff one was acknowledged |
| RoutePass.Visit | backend/internal/app/dispatcher/registrar.go:251-283 | visiting one more key keeps table, log and flags in step |
| RoutePass.CleanPassConverges | backend/internal/app/dispatcher/registrar.go:246-290 | from any table, a pass without failures ends with the desired keys and equal routes |
| RoutePass.InSyncIsQuiet | backend/internal/app/dispatcher/registrar.go:268-271 | no call is needed iff the table is in sync, and then no pass changes it |
| RoutePass.SecondPassIsQuiet | backend/internal/app/dispatcher/registrar.go:246-290 | after a clean pass another walk over the same registrations makes no call and changes nothing |
| RoutePass.FailuresRemain | backend/internal/app/dispatcher/registrar.go:250-283 | what a pass leaves to be done is exactly what failed |
| RoutePass.EveryCallAcknowledgedConverges | backend/internal/app/dispatcher/registrar.go:250-283 | after any passes the table is in sync iff each needed call was acknowledged once |
| RoutePass.VersionTellsChange | backend/internal/app/dispatcher/registrar.go:285-287 | the version rises iff the table changed |
| RebuildSignal.Lambdas.RegisterLambda | backend/internal/app/dispatcher/registrar.go:84-99 | stores the normalised registration and signals, or changes nothing |
| RebuildSignal.Lambdas.RegisterLambdaBatch | backend/internal/app/dispatcher/registrar.go:102-127 | all of the batch with the last entry per id, or none of it |
| RebuildSignal.Lambdas.UnregisterLambda | backend/internal/app/dispatcher/registrar.go:130-144 | removes the trimmed id and signals, or changes nothing |
| RebuildSignal.StepSound | backend/internal/app/dispatcher/registrar.go:146-210 | every step keeps: a change not seen by the worker is in the slot, with a caller about to signal, or with a worker about to take its snapshot |
| RebuildSignal.RunSound | backend/internal/app/dispatcher/registrar.go:161-210 | so no rebuild is lost in any interleaving, whatever the router answers |
| RebuildSignal.PassServes | backend/internal/app/dispatcher/registrar.go:246-290 | a pass leaves the table in sync with its snapshot iff no call failed |
| RebuildSignal.RestIsCurrent | backend/internal/app/dispatcher/registrar.go:146-210 | at rest the last pass was for the current registrations, and the table serves them iff it was clean |
| RebuildSignal.DrainedEmpty | backend/internal/app/dispatcher/registrar.go:168-178 | a snapshot is taken only after a look at an empty signal slot |
| RebuildSignal.CancelledOnlyClosed | backend/internal/app/dispatcher/registrar.go:161-184 | in every run the worker leaves, or cuts a pass off, only after Close |
| RebuildSignal.StepPossible | backend/internal/app/dispatcher/registrar.go:161-184 | away from rest some thread can go on, until the worker leaves after Close |
| RebuildSignal.WorkIsBounded | backend/internal/app/dispatcher/registrar.go:161-184 | without new changes rest is reached within a bounded number of steps |
| PoolLending.ExclusiveLending | backend/internal/infra/pool/object_pool.go:91-121 | in every interleaving each object is in exactly one place and no two borrowers hold the same one |
| PoolLending.LeaseTableExact | backend/internal/infra/pool/object_pool.go:156-188 | the lease table lists exactly the objects between checkout and removal, and a put by a holder never fails |
| PoolLending.HeldIsOnLease | backend/internal/infra/pool/object_pool.go:275-298 | what a borrower holds has a listed lease with an open and empty return channel |
| PoolLending.RequestDiscipline | backend/internal/infra/pool/object_pool.go:251-273 | the queue keeps its size, requests are answered at most once, delivering never blocks, and no live request is forgotten |
| PoolLending.TakesOldest | backend/internal/infra/pool/object_pool.go:123-133 | in every run a worker takes the request queued before all others |
| PoolLending.DropsOldest | backend/internal/infra/pool/object_pool.go:262-271 | and a full queue fails exactly that one, which learns of it |
| PoolLending.CounterExact | backend/internal/infra/pool/object_pool.go:343-350 | active leases are the workers that counted a delivery and not its return, between zero and capacity, so the clamp is never needed |
| PoolLending.StepSound | backend/internal/infra/pool/object_pool.go:91-298 | every step of worker or borrower keeps all of these |
| PoolLosses.StrandedForGood | backend/internal/infra/pool/object_pool.go:202-216 | an object delivered to a borrower that has left stays in the result slot in every continuation |
| PoolLosses.StrandedHadExpired | backend/internal/infra/pool/object_pool.go:135-154 | in every run that borrower's context has run out |
| PoolLosses.StrandsExactly | backend/internal/infra/pool/object_pool.go:135-154 | some run of a pool strands an object if and only if some request may carry a context that can run out |
| PoolLosses.TakenUpCanStrand | backend/internal/infra/pool/object_pool.go:135-154 | in any state, a cancellable request a worker has taken up can end that way |
| PoolLosses.GetEndsAnswered | backend/internal/infra/pool/object_pool.go:190-217 | however a run goes on, a call of Get ends only with one answer or with its context run out |
| PoolLosses.DropsWithRoomAfter | backend/internal/infra/pool/object_pool.go:251-273 | a borrower that found the queue full and stands still is about to fail a request with room in the queue iff since then more were taken out than joined, and hangs iff as many more as there are places |
| PoolLosses.DropsWithRoomExactly | backend/internal/infra/pool/object_pool.go:251-273 | some run of a pool gets there if and only if its queue has two places or more |
| PoolLosses.StuckExactly | backend/internal/infra/pool/object_pool.go:190-273 | a borrower has no step of its own iff it has ended, waits under a live context, or wants to drop from a queue that is empty, context or not |
| PoolLosses.HangsUntilSomebodyJoins | backend/internal/infra/pool/object_pool.go:262-271 | the last of these stays so until another request is queued |
| PoolLosses.HangingFailsTheNext | backend/internal/infra/pool/object_pool.go:262-271 | and then it can fail that request |
| PoolLosses.HangReached | backend/internal/infra/pool/object_pool.go:251-273 | every pool has a run that ends there with all workers idle and the context run out |
| PoolWaiting.TryGetCanReturnExactly | backend/internal/infra/pool/object_pool.go:219-249 | TryGet can come back without any other borrower's doing if and only if the queue is full or more workers can serve than there are live requests before it |
| PoolWaiting.ServeInTurn | backend/internal/infra/pool/object_pool.go:91-121 | where it can, a schedule of the workers that serves it and leaves as many to spare for others |
| PoolWaiting.StaysBehind | backend/internal/infra/pool/object_pool.go:219-249 | where it cannot, it stays in the queue however the workers act |
| PoolBlocking.EndsBackExactly | backend/internal/infra/pool/object_pool.go:91-154 | in every schedule of the workers run to its end the call is back iff workers were left over for it when it came, requests refused on the way counting for it |
| PoolBlocking.TryGetReturnsExactly | backend/internal/infra/pool/object_pool.go:219-249 | TryGet comes back in every schedule of the workers if and only if the queue is full or more workers can serve than there are requests before it, expired ones included |
| PoolBlocking.SchedulesEnd | backend/internal/infra/pool/object_pool.go:91-154 | no schedule of the workers goes on for ever: a bound on its steps from the state it starts in |
| PoolBlocking.ReturnsOnlySometimes | backend/internal/infra/pool/object_pool.go:219-249 | a pool in which some schedules bring the call back and others leave it waiting |
| PoolBlocking.TryGetManyCanObtainExactly | backend/internal/infra/pool/manager.go:234-253 | some schedules give TryGetMany the k objects it asks for if and only if the queue has room and k workers can be spared |
| PoolBlocking.TryGetManyObtainsExactly | backend/internal/infra/pool/manager.go:234-253 | all schedules run to their end do so if and only if the queue has room and k workers are left over from all requests |
| PoolCalls.GetEffect | backend/internal/infra/pool/object_pool.go:190-249 | a call of Get or TryGet ends with one more object in hand, or with nothing changed hands |
| PoolCalls.SecondReturnNoticed | backend/internal/infra/pool/object_pool.go:275-298 | a second return is noticed at once iff the first has not been received or its lease is gone |
| PoolCalls.SecondReturnUnnoticed | backend/internal/infra/pool/object_pool.go:156-188 | every pool has a run after which nobody holds anything and a second return would go unnoticed by it |
| PoolCalls.CancelledMeanwhile | backend/internal/infra/pool/object_pool.go:165-171 | a put whose lease the worker cancels meanwhile meets a closed channel |
| PoolCalls.Return | backend/internal/infra/pool/object_pool.go:275-298 | a holder's return always succeeds and takes the object out of its hands; anybody else's succeeds exactly if it goes unnoticed |
| PoolManager.Manager.RegisterPool | backend/internal/infra/pool/manager.go:110-146 | a new name with positive capacity, before shutdown, gets a pool of that many idle workers with an own object each and an empty queue of the size asked for, or else of as many places as workers |
| PoolManager.Manager.Get | backend/internal/infra/pool/manager.go:149-188 | a new object in hand and counted; or an error, or still waiting, with hands and counters as before |
| PoolManager.Manager.TryGet | backend/internal/infra/pool/manager.go:210-231 | the same, unavailable exactly if the queue is full, never failed by the pool, and waiting otherwise; each success uses up a worker that could be spared |
| PoolManager.Manager.GetMany | backend/internal/infra/pool/manager.go:191-206 | count distinct new objects in hand and counted, or on failure hands and counters as before; a call that does not return keeps what it has |
| PoolManager.Manager.TryGetMany | backend/internal/infra/pool/manager.go:234-253 | the same; it succeeds iff each of its calls obtains an object, which takes room in the queue and as many workers to spare |
| PoolManager.Manager.RollBack | backend/internal/infra/pool/manager.go:199-203 | giving back what was obtained restores hands and counters, whatever the workers do meanwhile |
| PoolManager.Manager.Put | backend/internal/infra/pool/manager.go:256-269 | never panics for an object in hand; for any other exactly unless the pool does not notice and something is in flight; lowers the counters even when it panics |
| PoolManager.Manager.TryPut | backend/internal/infra/pool/manager.go:283-298 | takes an object in hand; any other panics exactly if its lease is cancelled meanwhile, or if the pool does not notice and nothing is in flight, and is rejected exactly if the pool notices otherwise, which leaves the counters alone |
| PoolManager.Manager.PutMany | backend/internal/infra/pool/manager.go:272-279 | never panics over distinct objects in hand, which are then back and counted; while workers stand still, panics iff something else is among objects that are in hand or whose return has been seen through; always panics over more objects than are out |
| PoolManager.Manager.TryPutMany | backend/internal/infra/pool/manager.go:301-330 | stops only at an object not in hand: those in hand before it are back, those after it still out; takes no more than are out, and panics only after as many or on a lease cancelled meanwhile |
| Dedupe.AgreesWithHistory | backend/internal/app/dispatcher/runtime.go:164-188 | with an ordered clock the filter accepts iff the id is empty or every earlier accepted arrival of it is a window old |
| Dedupe.OncePerWindow | backend/internal/app/dispatcher/runtime.go:164-179 | an id is not accepted twice within a window |
| Dedupe.SmallOrRecent | backend/internal/app/dispatcher/runtime.go:174-187 | after an acceptance the cache is within capacity or holds nothing older than a window |
| Dedupe.Runtime.MarkSeen | backend/internal/app/dispatcher/runtime.go:164-179 | answers and updates the cache as specified |
| Dedupe.Runtime.GcDedupe | backend/internal/app/dispatcher/runtime.go:181-188 | removes exactly the entries older than the window, whatever the order of the map |
| Dedupe.Runtime.Consume | backend/internal/app/dispatcher/runtime.go:79-162 | fresh events are stamped, named and published in order, duplicates released, nil skipped, each told from its input |
| Dedupe.OutputsPartTheStream | backend/internal/app/dispatcher/runtime.go:79-162 | published and released events are the stamped events in order, parted by the filter's answers |
| Dedupe.OutputsComeFrom | backend/internal/app/dispatcher/runtime.go:79-162 | every event published or released comes from one input that is not nil, in order, with its id, the version read if positive or else its own, its own time or else the clock's, and on publishing a provider filled in if empty; each such input comes out once |
| Dedupe.PublishedExactly | backend/internal/app/dispatcher/runtime.go:79-179 | with an ordered clock the inputs published are those whose id is empty or not that of an earlier published one less than a window before |
| Dedupe.CapacityDoesNotShow | backend/internal/app/dispatcher/runtime.go:164-188 | with an ordered clock what is published and released is the same for every capacity of the cache |
| SerialExecutor.NoSendAfterClose | backend/internal/app/lambda/js/instance.go:64-87 | in every interleaving nothing is sent on the closed queue and it is closed once |
| SerialExecutor.OwnResult | backend/internal/app/lambda/js/instance.go:77-86 | a call gets the result of its own callback, which ran exactly once; a refused call has no run |
| SerialExecutor.CloseWaits | backend/internal/app/lambda/js/instance.go:150-165 | when Close returns the loop is gone and every callback handed over has run |
| SerialExecutor.StepSound | backend/internal/app/lambda/js/instance.go:48-87 | every step keeps the invariants of lock, flags and results |
| SerialExecutor.NoDeadlock | backend/internal/app/lambda/js/instance.go:72-86 | while a call of Execute or Close has not returned some step is possible |
| SerialExecutor.NoNewReaders | backend/internal/app/lambda/js/instance.go:150-165 | once a Close waits for the lock no further call gets in before it |
| SerialExecutor.WorkIsBounded | backend/internal/app/lambda/js/instance.go:64-165 | without new calls the steps run out, so every call returns |
| ProviderLifecycle.RunningIsOneThing | backend/internal/app/provider/manager.go:467-532 | running, status running, and instance, subscriptions and cancel being set are the same in every interleaving, and the context is live |
| ProviderLifecycle.AccountedExactly | backend/internal/app/provider/manager.go:408-499 | every context is cancelled, stored or held by a call iff no step overrode a running provider |
| ProviderLifecycle.CurrentExactly | backend/internal/app/provider/manager.go:443-499 | throughout a run every running provider was built from its current specification iff no start was recorded with another one |
| ProviderLifecycle.ConsiderateCallersAreSafe | backend/internal/app/provider/manager.go:211-241 | without recreating during a start, or starting during another's create, contexts are accounted for and what runs was built from the current specification |
| ProviderLifecycle.OrderlyNeverOverrides | backend/internal/app/provider/manager.go:443-465 | with such callers no call ever finds another's provider running where it records or undoes, nor a specification replaced where it records |
| ProviderLifecycle.CreateEnds | backend/internal/app/provider/manager.go:211-246 | a Create that comes to its end leaves its provider running or has taken it back |
| ProviderLifecycle.RecreateDuringStart | backend/internal/app/provider/manager.go:300-319 | a run in which removing and recreating during a start leaves the old specification running and a context out of reach, neither exact condition being met |
| ProviderLifecycle.Manager.Restore | backend/internal/app/provider/manager.go:653-698 | a restored provider is stopped if it was starting, running or stopped, failed if failed and pending otherwise, with nothing set, and never replaces another |
| ProviderLifecycle.Manager.Update | backend/internal/app/provider/manager.go:264-279 | refused during a start; otherwise stopped if running, context cancelled, specification replaced |
| ProviderLifecycle.Manager.Remove | backend/internal/app/provider/manager.go:300-319 | stops and deletes, even during a start |
| ProviderLifecycle.Manager.StopProvider | backend/internal/app/provider/manager.go:379-406 | stops what runs and cancels its context, or reports that it does not |
| ProviderLifecycle.Manager.StopLocked | backend/internal/app/provider/manager.go:509-532 | a running provider is left idle with its context cancelled; any other is untouched |
| ProviderLifecycle.Manager.PrepareStart | backend/internal/app/provider/manager.go:443-465 | marks a provider that neither runs nor starts, and hands out its specification |
| ProviderLifecycle.Manager.RecordSuccess | backend/internal/app/provider/manager.go:482-499 | records the instance if the provider is still there |
| ProviderLifecycle.Manager.RecordFailure | backend/internal/app/provider/manager.go:467-480 | leaves a failed provider with nothing set |
| Sanitize.SanitizeMap | backend/internal/app/provider/sanitize.go:49-68 | the map without sensitive keys and emptied values, whatever the order of its entries |
| Sanitize.SanitizeValue | backend/internal/app/provider/sanitize.go:70-110 | the same through lists and nested maps |
| Sanitize.SanitizeProviderConfig | backend/internal/app/provider/sanitize.go:29-38 | the whole configuration |
| Sanitize.IsSensitiveProviderConfigKey | backend/internal/app/provider/sanitize.go:113-126 | a key is sensitive iff its compact lower-case form contains a fragment |
| SanitizeKeys.SensitiveExactly | backend/internal/app/provider/sanitize.go:10-26 | a key is sensitive iff one of the twelve words stands in it, whatever the letter case and with hyphens, underscores and spaces between its letters |
| Sanitize.ProviderConfigContainsSensitiveKey | backend/internal/app/provider/sanitize.go:128-155 | finds a sensitive key at any level iff there is one |
| Sanitize.NothingSensitiveLeft | backend/internal/app/provider/sanitize.go:128-155 | the sanitised configuration has no sensitive key at any level |
| Sanitize.KeepsExactlyTheRest | backend/internal/app/provider/sanitize.go:49-110 | it holds exactly the leaves of the original that stand under no sensitive key |
| Sanitize.Idempotent | backend/internal/app/provider/sanitize.go:49-110 | sanitising twice is sanitising once, and it leaves alone exactly what is already settled |
| Sanitize.NonInterference | backend/internal/app/provider/sanitize.go:49-110 | configurations alike outside sensitive keys sanitise to the same result |

## Left out

- Rate limiters at the top of the order check: an early refusal that changes nothing (`throttled`).
- Decimals are reals, parsed before they come in or marked as not parsed; counters and versions do not wrap around; each operation reads the clock once.
- Texts and details of errors, the kill reason, logging, metrics and telemetry.
- A nil order request, a nil router (it acts like one that acknowledges every call) and nil entries in lists of objects to return, which are skipped.
- Which of two equal elements a sort puts first; letter case outside ASCII and white space outside Latin-1.
- Shutdown of the pools: runs end before it. Resetting objects and their returned flags are not modelled.
- PoolManager.Manager.GetMany: speaks of a manager without concurrent callers; what the workers do, and when a context runs out, is given with the call.
- PoolManager.Manager.PutMany: while workers act, an object not in hand may go unnoticed as `PoolCalls.SecondReturnNoticed` says, so whether it panics is told for workers that stand still.
- RebuildSignal.RestIsCurrent: speaks of rest before the worker leaves, and assumes that only the worker writes the table.
- RoutePass.Registrar.ApplyRoutes: the router's answer to a call is fixed during one pass.
- FilterMeaning.LambdaKeepsItsEvents: for fields that do not lead through one another, as "x" and "x.y" do; there a declaration can accept nothing for a further reason (`FilterMeaning.OverlappingFieldsAcceptNothing`), and only the keeping half is stated.
- FilterMeaning.MergeKeepsDemandExactly: for the same fields.
- SerialExecutor.OwnResult: callbacks return, do not panic and do not call Execute themselves (which would wait for ever).
- ProviderLifecycle.ConsiderateCallersAreSafe: says nothing of cached routes and instruments, persistence, and the subscriptions themselves; provider specifications are opaque.
- Dedupe.AgreesWithHistory: for a clock that does not run backwards.
- The event bus, exchange adapters, subscription manager, stores and the script engine; registries, configuration loading, migrations, HTTP handlers.
- The agreement of the route table with live subscriptions of removed or stopped providers, which the code does not maintain.
- The frontend and the strategy scripts, and validation and cloning helpers that check or copy field by field.
