# Verified model of the deterministic backend kernel

This project models, in Dafny 4.11, the part of the backend that turns validated facts into money and keeps runs
apart, and proves what that part promises.

`dafny verify dfyconfig.toml` checks the whole project.

## What is modelled

| area | files | repository |
|---|---|---|
| loan schedules | `Loan`, `LoanConservation`, `LoanRepayment`, `LoanAnnuity`, `LoanMonotone`, `LoanGrace`, `LoanMonths`, `LoanRates` | `backend/src/finance/loan.py` |
| cash path, break-even, burn date | `CashFlow`, `BreakEven`, `Calendar` | `backend/src/finance/cashflow.py`, `backend/src/finance/break_even.py` |
| monthly scenario and its totals | `Scenario`, `ScenarioPrincipal`, `ScenarioTotals`, `ScenarioMonths`, `ScenarioChanges` | `backend/src/finance/monthly_scenario.py` |
| attribution of a layer comparison | `Attribution`, `AttributionItems` | `backend/src/orchestration/analysis_orchestrator.py` |
| relief re-simulation | `Relief`, `ReliefTerms`, `ReliefDeferral`, `ReliefRunway` | `backend/src/relief/pipeline.py` |
| policy identity, grouping, lineage, validation | `PolicyIdentity`, `PolicyFields`, `PolicyReconciler`, `PolicyGroups`, `PolicyFingerprint`, `PolicyCollision`, `PolicyLineage`, `PolicyArrival`, `PolicyOrder`, `PolicyPair`, `PolicyRecords`, `PolicyOutput`, `PolicyValidation`, `PolicyVerdict` | `backend/src/validation/` |
| event reconciliation and the research summary | `EventReconciler`, `EventTiers`, `EventConservation`, `EventOrder`, `EventMerge`, `DecisionLifecycle`, `ResearchSummary` | `backend/src/validation/reconciler.py`, `backend/src/contracts/attribution.py` |
| event bridge and official features | `EventBridge`, `BridgeEligibility`, `OfficialFeatures`, `OfficialMonths` | `backend/src/forecasting/` |
| backtest, model selection, bands | `Forecast`, `ForecastPoints`, `ForecastSelection`, `ForecastChoice` | `backend/src/forecasting/pipeline.py` |
| monthly signals and stress multipliers | `ResearchSignals`, `SignalValues`, `ScenarioAdjustment`, `InterestChange`, `InterestCause` | `backend/src/signals/research_signal.py` |
| run control and job runner | `RunProtocol`, `RunObjects` | `backend/src/orchestration/` |
| rate limiter | `RateLimit` | `backend/src/api/main.py` |

Every loop of the code is a method proved against a recursive specification function, and the promises are lemmas
about those functions. What such a function yields is also described without it, in terms of the inputs alone: a loan's
schedule month by month (`LoanMonths`), a scenario's month item by item (`ScenarioMonths`), a merged policy field by
field and the whole output (`PolicyRecords`, `PolicyOutput`), the codes and statuses of a validation (`PolicyVerdict`),
the order of source tiers by name (`EventTiers`), what is bridged and why (`BridgeEligibility`), the official features
(`OfficialMonths`), every forecast and its choice (`ForecastPoints`, `ForecastChoice`), every signal (`SignalValues`)
and the terms of a relief policy (`ReliefTerms`). The objects that the code updates in place (rate windows, run control registry, job runner,
modified store, policy candidate) are classes.

## Conventions

- `Decimal` is the exact `real`; the context's rounding is not modelled.
- Ids and normalised strings are integers ranked in lexicographic order, so that sorting by id means what it means in
  the code. A month is `12 * year + month - 1`, a date a day number.
- Hashes are functions from the hashed material: an injective constructor for signal ids, and an arbitrary function
  for merged policies and bridged observations. The text that a merge fingerprint hashes, values joined by commas and
  fields by bars, is modelled in `PolicyFingerprint`, with the printed form of each value a parameter. An amount's text
  is a function of its value there, while the code prints decimals with their trailing zeros.
- An event's canonical id is its fingerprint with a prefix, so the events of one group share their id, and a canonical
  policy id is the digest of the notice's semantic identity.
- Clock readings, registry lookups, the semantic assessment of a policy, the strength of a policy record, the roles of
  indicators, scores that do not depend on the month, `exp` after rounding, and the ETS and SARIMA forecasts are
  parameters. Status words are read as already upper-cased.
- The rate limiter, the registry and the job runner guard their methods with locks, so each locked block is one step
  of the protocol, and an execution is any sequence of enabled steps.

## Where the code is narrower than its promise

Each of these is a theorem: a witness, together with the condition under which the promise holds.

- A variable-rate annuity whose months switch rate schedules does not conserve its principal
  (`VariableAnnuityIsNotConserved`); a store with one such loan pays back more than it owes after the smallest rise
  (`RisingRateOvercollects`). With rate changes that never fall, a loan, and a whole scenario, is conserved exactly if no
  switch meets an open annuity that has paid at different rates before (`ConservedIffNoSwitchShows`,
  `ScenarioConservesDebtIff`), whatever the grace, the renewal months and the floor of the rates.
- Each grace period of an equal-principal loan leaves its share unpaid for good (`EqualPrincipalResidual`), and a loan
  is repaid exactly if no grace period falls on a repayment (`RepaidExactlyWhenUngraced`).
- A deferral never saves more than the discount that it carries would save alone, so without a discount its reported
  saving is zero (`DeferralSavesNoMore`). It costs more interest than that discount alone exactly if a deferred payment
  leaves a balance that later bears interest (`DeferralRaisesInterestIff`, `DeferralCanRaiseInterest`), and it makes the
  re-simulation fail exactly if a custom loan then runs out of instalments while it is still owed
  (`ScenarioFailsIffRunsOut`, `DeferralCanFail`). A pure discount does neither (`DiscountNeverRaisesInterest`).
- Under a pure discount or grant no month ends with less cash, but the runway extension can still come out negative
  before its floor: exactly if the original path burns after the 28th of the last month and the simulated one does not
  burn at all (`RunwayFloorBindsIff`).
- The average of a role's changes need not grow with the horizon. For a role of at least two indicators it does,
  whatever is observed, exactly while the horizon cap is out of reach of the period cap (`AverageGrowsIffCapsIdle`),
  and beyond that whenever the indicators move in one direction (`AverageGrowsIfSameDirection`).
- Two groups can share a merge fingerprint. It takes reordered region lists, or different values that are joined to one
  text (`CollisionCauses`); one industry name with a comma is enough (`CommaCollides`). While no value contains a
  separator, two notices with given region lists can collide exactly if the lists name the same regions in different
  orders (`CollisionIffRegionsReordered`), and without such lists no two groups share a fingerprint
  (`MergeFingerprintsDiffer`). Printers that meet these conditions exist for all values (`FaithfulPrinterExists`).
- The reconciliation of events depends on their order of arrival: the survivor keeps the tier, dates and status of the
  first report (`TierDependsOnOrder`, `NewsBeforePrimary`, `FirstSetsStanding`). The whole outcome is independent of the order exactly if
  every fingerprint has copies of one event only, or two events on different occasions whose tiers differ in rank
  (`OutcomeIgnoresOrderIff`). What reports of one occasion gather is always independent (`MergedReportsIgnoreOrder`).
- The reconciliation of policies depends on the order of notices with one id. The id is digested before validation sets
  the status, which depends on the budget, the notes and the quotes as well (`WindowLeavesStatusOpen`), so notices of
  one id can be open, unconfirmed and exhausted, and then their groups depend on which arrives first (`StatusesSplit`).
  Notices of one id and content are partitioned alike in every order exactly if they do not mix an unknown status with
  two different known ones (`ContentPartitionIff`); in general, exactly if none of them is equivalent to two that
  contradict each other (`PartitionIgnoresOrderIff`). Beside arbitrary other notices they are safe exactly if all of
  them are equivalent (`SafeInEveryContextIff`), which for one content means at most one known status, and then the
  core of every record is independent of the order as well (`GroupingIgnoresOrder`, `RecordsIgnoreOrder`). For two
  originals `PairIgnoresOrderIff` says exactly when the output depends on their order. Sources and conflict marks never
  do (`SourcesIgnoreOrder`, `ConflictMarksIgnoreOrder`).
- The conflict report does not look at purposes and industry exclusions, which equivalence does
  (`EquivalentIffNoMaterialConflict`).
- The contributions of the rate indicators share the month's rate change among all of them, the change averages over
  those with a previous observation. The contributions add up to it exactly if it is zero or none lacks one
  (`InterestIsAverage`).
- A cancel that falls between a worker's pick-up and `begin` is forgotten (`CancelBeforeBeginIsLost`).
- The limit of the rate limiter holds for 60-second intervals that are open at their start (`NoWindowExceedsLimit`);
  with both ends included the bound is twice the limit, and it is reached (`ClosedWindowHoldsTwice`), but only by
  requests exactly 60 seconds apart (`NoExactGapKeepsLimit`). The limit holds with both ends included exactly if no
  request is admitted although the 60 seconds up to it, both ends included, already hold that many
  (`ClosedWindowKeepsLimitIff`).
- The bounds configured for the interest axis are not applied to the interest change. The registry disables the signals
  of both rate decisions, and then the change is zero (`NoRateEventNoChange`). With one enabled rate decision of a
  given severity the bound holds, whatever the event, exactly if the coefficient times the severity times the decay of
  the months stays within it (`BoundSafeIff`); over several decisions of one cause the change is at most the
  coefficient times the greatest severity times the number of months (`InterestChangeOfCause`).
- A forecast raises in exactly two situations (`RaisesIff`): on an empty history with a declared revenue of zero, which
  passes the insufficiency check, and on 24 months or more when a statistical model is selected that fails on the full
  history, although it succeeded in the backtest (`SelectedModelCanRaise`). The fallback for failed candidates is never
  reached (`SomeModelIsAlwaysScored`).

## Model

| member | source | states |
|---|---|---|
| Loan.DecimalPow | backend/src/finance/loan.py:16-20 | the loop yields the power used by the annuity formula |
| Loan.CalculateLoanSchedule | backend/src/finance/loan.py:40-131 | the month loop produces the schedule specified month by month, and stops with the first missing custom instalment |
| Loan.ComputeDue | backend/src/finance/loan.py:82-111 | what each repayment type asks for in an active period, including the failure of a custom schedule that is too short |
| LoanConservation.AnnuityIsShare | backend/src/finance/loan.py:91-99 | the recomputed annuity principal is one share of the balance, never negative and never above it |
| LoanConservation.ScheduleConservesPrincipal | backend/src/finance/loan.py:65-130 | after every month, principal paid so far plus closing balance is the initial principal; balances chain, never rise and are never negative |
| LoanRepayment.OpenLoanPeriod | backend/src/finance/loan.py:70-81 | while a balance is open the active period counts the months since the first payment month |
| LoanRepayment.EqualPrincipalBalance | backend/src/finance/loan.py:89-90 | after any number of periods the open balance is the share of the periods not yet paid, so the clamp never binds |
| LoanRepayment.RepaidExactlyWhenUngraced | backend/src/finance/loan.py:86-120 | once the contract's periods have passed the loan is at zero if and only if no grace period fell on a repayment |
| LoanRepayment.EqualPrincipalResidual | backend/src/finance/loan.py:113-120 | every graced period of an equal-principal loan stays unpaid for good |
| LoanRepayment.SettledAfterLastPeriod | backend/src/finance/loan.py:78-81 | after the last active period nothing is paid and the balance stays as it is |
| LoanAnnuity.InstalmentIsAnnuity | backend/src/finance/loan.py:97-98 | the instalment is P r q^n / (q^n - 1) |
| LoanAnnuity.ClampAndOverwriteIdle | backend/src/finance/loan.py:99-101 | the `min` with the balance never binds and the last-period overwrite changes nothing |
| LoanAnnuity.AmortizingPaysLevelInstalment | backend/src/finance/loan.py:91-101 | at a constant rate without grace, interest plus principal is the same annuity in every active month, although it is recomputed each month |
| LoanMonotone.RaisingRateRaisesSchedule | backend/src/finance/loan.py:65-130 | raising the rate never lowers any month's opening balance or interest, and fails exactly when the cheaper schedule fails |
| LoanMonotone.DearerAnnuityOwesMoreIff | backend/src/finance/loan.py:65-130 | a dearer or longer graced annuity owes at least as much after every period before its last, and more exactly if some period so far deviates in rate or grace |
| LoanGrace.MoreGraceRaisesSchedule | backend/src/finance/loan.py:65-130 | for every loan, more grace months never lower any month's opening balance or interest, and the schedule without them exists whenever the one with them does |
| LoanGrace.GraceRaisesInterestIff | backend/src/finance/loan.py:70-120 | more grace raises a month's interest exactly if an asked repayment before it was deferred, and the month is active at a positive rate on what is still owed |
| LoanGrace.ScheduleFailsIffRunsOut | backend/src/finance/loan.py:103-111 | a schedule fails exactly if a custom loan runs out of instalments while it is still owed |
| LoanMonths.ScheduleIff | backend/src/finance/loan.py:65-131 | a list of payments is the schedule exactly if every month is as described: its rate, what its type asks for in its period, the forgiven months, the cap at the balance and the chain of balances |
| LoanRates.RateOfMonth | backend/src/finance/loan.py:56-68 | every month of a fixed loan carries the declared rate; a variable loan carries it before its renewal month, and from that month on, or from the first without one, the rate plus the change, floored at zero |
| LoanRates.UntouchedBeforeChange | backend/src/finance/loan.py:56-68 | before the renewal month the payments of a variable loan are those at no rate change, and those of a fixed loan always are |
| LoanRates.RateShowsIff | backend/src/finance/loan.py:67-84 | two unfloored rate changes give a computed loan different interest only from its renewal month on, and in that very month exactly if the loan is open and the month is one of the contract |
| CashFlow.EvaluateCashBurn | backend/src/finance/cashflow.py:55-102 | the burn is dated in the first month that ends without cash, and the warning names the first month that ends at or below the minimum |
| CashFlow.EndingIsInitialPlusNet | backend/src/finance/cashflow.py:24-34 | every month ends with the initial cash plus all net flows so far |
| CashFlow.BurnOnChainedPath | backend/src/finance/cashflow.py:67-102 | the warning is never after the burn; a burn month begins with positive cash unless it is the first; the zero-flow branch and the cap at the month's length are never reached; the burn day exists |
| CashFlow.BurnDayRunsOut | backend/src/finance/cashflow.py:84-102 | under an even spread of the net flow nothing is left after exactly the days to burn, and the burn day is the last day of the month after which cash is not yet negative, or the first |
| Calendar.YearStart | backend/src/finance/cashflow.py:84-85 | the month lengths add up to the day numbers of the Gregorian calendar |
| BreakEven.CashBreakEvenIsZeroNetFlow | backend/src/finance/break_even.py:17-53 | with a positive margin, revenue reaches the cash break-even exactly when the month's net flow is not negative; the three thresholds are ordered |
| BreakEven.BreakEvensComeToNothing | backend/src/finance/break_even.py:17-53 | at each break-even revenue, at the same share of variable costs, the operating result, the result after interest or the net flow is zero, and the month reaches each exactly if that result is not negative |
| BreakEven.MarginIs | backend/src/finance/break_even.py:17-22 | the margin ratio times revenue is revenue less variable cost, and without revenue it is zero |
| Scenario.FailureIgnoresRate | backend/src/finance/monthly_scenario.py:57-72 | whether the loans can be scheduled does not depend on the rate change, so checking one entry of the table decides them all |
| Scenario.ScheduleTable | backend/src/finance/monthly_scenario.py:57-72 | the table has the schedules of every rate change that some month uses, or reports the first loan that fails |
| Scenario.FixedCostOfMonth | backend/src/finance/monthly_scenario.py:92-96 | the fixed cost of a month sums the categories after the overrides of that month, the last one winning |
| Scenario.ProjectMonths | backend/src/finance/monthly_scenario.py:74-128 | every month reads the schedules of its own rate change and begins with the cash of the month before |
| Scenario.RunMonthlyFinancialScenario | backend/src/finance/monthly_scenario.py:17-155 | fails exactly with the first complaint about the input, and otherwise yields the flows, the break-evens and the burn of those flows |
| Scenario.ScenarioIsCashChain | backend/src/finance/monthly_scenario.py:103-128 | the flows of every scenario form one cash chain from the store's cash, and variable cost splits into ingredient and other cost |
| ScenarioMonths.PlainItems | backend/src/finance/monthly_scenario.py:34-128 | revenue is the forecast point times the month's multiplier, and tax and capital expenditure are those of the latest record |
| ScenarioMonths.IngredientItem | backend/src/finance/monthly_scenario.py:34-91 | ingredients are the latest record's share of revenue, blended from the official multipliers, times the variable multiplier, and nothing without revenue in that record |
| ScenarioMonths.FeeItem | backend/src/finance/monthly_scenario.py:34-91 | the other variable costs are the latest record's fees as a share of revenue, times the variable multiplier |
| ScenarioMonths.FixedItem | backend/src/finance/monthly_scenario.py:40-96 | the fixed cost adds up the four categories, each at its last override of the month or at its base, times the fixed multiplier |
| ScenarioMonths.DebtItems | backend/src/finance/monthly_scenario.py:47-102 | interest and principal add up the month's payments of all loans, scheduled with their own grace at the month's own rate change |
| ScenarioMonths.ComplaintsInOrder | backend/src/finance/monthly_scenario.py:25-32 | which of the four complaints about an input is raised, and in which order |
| ScenarioChanges.RevenueMultiplierMoves | backend/src/finance/monthly_scenario.py:78-128 | another revenue multiplier moves its month's revenue by the point times the difference and the variable costs in proportion, and no other item of any month |
| ScenarioChanges.VariableMultiplierMoves | backend/src/finance/monthly_scenario.py:91-120 | another variable multiplier scales its month's variable costs, and moves no other item of any month |
| ScenarioChanges.FixedMultiplierMoves | backend/src/finance/monthly_scenario.py:96-121 | another fixed multiplier scales its month's fixed costs, and moves no other item of any month |
| ScenarioChanges.NeutralMonth | backend/src/finance/monthly_scenario.py:34-91 | without multipliers and features a month earns the point and spends of it what the latest record spent of its revenue |
| ScenarioChanges.IngredientsFeelTheirShare | backend/src/finance/monthly_scenario.py:79-89 | with an imported share of zero only the domestic multiplier acts on the ingredients, with one only the imported one, and in between their mean by the two shares, which lies between them |
| ScenarioChanges.OverrideReplacesOne | backend/src/finance/monthly_scenario.py:92-96 | one more override replaces the amount of its own category in its own month, and moves nothing else in any month |
| ScenarioPrincipal.CollectedIsPrincipalPlusDrift | backend/src/finance/monthly_scenario.py:97-102 | what a scenario collects by switching schedules plus the open balance is the principal plus the jumps at the switches |
| ScenarioPrincipal.SwitchingSchedulesConserves | backend/src/finance/monthly_scenario.py:97-102 | switching conserves the principal of every loan that is not a variable annuity; with rate changes that never fall it collects at least the principal |
| ScenarioPrincipal.NoJumpIffNoShow | backend/src/finance/monthly_scenario.py:97-102 | a switch to a rate change that is not lower leaves the balance unchanged exactly if it does not meet an open annuity that has paid at different rates before |
| ScenarioPrincipal.ConservedIffNoSwitchShows | backend/src/finance/monthly_scenario.py:57-102 | with rate changes that never fall, every loan, whatever its grace, renewal month or rate floor, collects exactly its principal if and only if no switch shows |
| ScenarioPrincipal.VariableAnnuityIsNotConserved | backend/src/finance/monthly_scenario.py:57-102 | a concrete variable annuity pays back more than was borrowed |
| ScenarioTotals.ScenarioConservesDebt | backend/src/finance/monthly_scenario.py:97-128 | over a whole scenario principal outflows plus open balances equal the store's debt, unless a loan is a variable annuity |
| ScenarioTotals.ScenarioConservesDebtIff | backend/src/finance/monthly_scenario.py:57-128 | with rate changes that never fall a scenario collects at least the store's debt, and exactly that debt if and only if no month's rate change meets an open annuity that has paid at different rates before |
| ScenarioTotals.RisingRateOvercollects | backend/src/finance/monthly_scenario.py:57-128 | a store with one variable annuity over a year collects more than its debt after any rise of the rate in the second month |
| Attribution.ForecastComparison | backend/src/orchestration/analysis_orchestrator.py:517-575 | the month deltas and nine effects over the shared months, in month order, with the last ending-cash difference |
| Attribution.AttributionIsExact | backend/src/orchestration/analysis_orchestrator.py:551-562 | the nine components add up exactly to the last month's ending-cash difference of two chained paths from the same cash |
| Attribution.ComponentsSumToEndingDelta | backend/src/orchestration/analysis_orchestrator.py:551-575 | the components that the comparison reports add up to the ending-cash difference that it reports |
| Attribution.ScenarioAttributionIsExact | backend/src/orchestration/analysis_orchestrator.py:517-575 | the same for the comparison of any two scenarios of one store over the same ascending months |
| AttributionItems.ComponentsAre | backend/src/orchestration/analysis_orchestrator.py:529-562 | each of the nine components is about its own item, signed by what more of it means for cash, over exactly the months that both layers have |
| AttributionItems.MonthsAre | backend/src/orchestration/analysis_orchestrator.py:525-550 | each month's differences are the other layer's values less the base's |
| Relief.ModifiedStore.constructor | backend/src/relief/pipeline.py:212 | the re-simulation starts from a copy of the store |
| Relief.ModifiedStore.ApplyFundingTerms | backend/src/relief/pipeline.py:72-111 | exactly when cash, a new loan and grace months are added, for every kind of policy |
| Relief.ModifiedStore.DiscountRates | backend/src/relief/pipeline.py:214-217 | every loan's rate falls by the discount, floored at zero, and cash is untouched |
| Relief.SimulateSavings | backend/src/relief/pipeline.py:212-242 | the reported saving compares the interest of the baseline with that of the re-simulated input under any policy, and is zero when that input fails |
| Relief.PlainPolicy | backend/src/relief/pipeline.py:72-111 | a policy that neither draws a loan nor defers one changes only the rates, and adds cash at most |
| ReliefTerms.CashUnderPolicy | backend/src/relief/pipeline.py:80-94 | a grant, or a loan policy with rate, term and repayment, adds the smaller of limit and need to the cash, and nothing else but loans and grace changes |
| ReliefTerms.LoansUnderPolicy | backend/src/relief/pipeline.py:85-108 | all loans stay, the policy's own loan follows them if it is complete, and every one gets cheaper by the discount, not below zero |
| ReliefTerms.GraceUnderPolicy | backend/src/relief/pipeline.py:102-111 | a deferral gives its grace to every loan of the store, a loan policy to its own loan, and all others keep the common grace |
| Relief.DiscountNeverRaisesInterest | backend/src/relief/pipeline.py:214-241 | a pure discount can be re-simulated whenever the baseline can, never raises any month's interest, and the floor of the saving never binds |
| ReliefDeferral.DeferralIsPlain | backend/src/relief/pipeline.py:109-111 | a deferral re-simulates the input of its own discount with more grace, and the baseline with more grace if it carries none |
| ReliefDeferral.DeferralRaisesInterestIff | backend/src/relief/pipeline.py:109-110 | at the same rates more grace lowers no month's interest, and raises the total exactly if in some month a loan bears interest on a balance that a deferred payment left open |
| ReliefDeferral.DeferralSavesNoMore | backend/src/relief/pipeline.py:212-242 | whatever discount a deferral carries, its reported saving is at most that of the discount alone, and zero without one; its interest is more than with the discount alone under the same exact condition |
| ReliefDeferral.DeferralCanRaiseInterest | backend/src/relief/pipeline.py:109-110 | one deferred month of an interest-bearing loan that repays by shares raises the next month's interest |
| ReliefDeferral.ScenarioFailsIffRunsOut | backend/src/finance/monthly_scenario.py:57-72 | an acceptable input fails exactly if some custom loan runs out of instalments while it is still owed |
| ReliefDeferral.DeferralCanFail | backend/src/relief/pipeline.py:109-110 | a custom loan repaid by its only instalment succeeds without grace and fails with one deferred month |
| ReliefRunway.DiscountNeverLowersCash | backend/src/relief/pipeline.py:212-224 | a plain discount or grant never lowers the ending cash of any month, although dearer annuities pay principal later |
| ReliefRunway.BetterPathBurnsLater | backend/src/relief/pipeline.py:222-240 | where both paths burn cash, the better one does so no earlier |
| ReliefRunway.RunwayFloorBindsIff | backend/src/relief/pipeline.py:228-240 | the floor of the runway extension binds exactly if the original path burns after the 28th of the last month and the simulated one does not burn |
| PolicyIdentity.EquivalenceIsReflexiveAndSymmetric | backend/src/validation/policy_identity.py:182-229 | equivalence of candidates is reflexive and symmetric |
| PolicyIdentity.EquivalenceIsNotTransitive | backend/src/validation/policy_identity.py:178-229 | a candidate that states nothing is equivalent to two that contradict each other |
| PolicyIdentity.MaterialPolicyConflicts | backend/src/validation/policy_identity.py:239-282 | the conflict list names exactly the fields known on both sides and different |
| PolicyIdentity.EquivalentIffNoMaterialConflict | backend/src/validation/policy_identity.py:182-282 | two candidates are equivalent exactly when they share name and authority, have no material conflict, and agree on known purposes and exclusions |
| PolicyFields.ConflictIff | backend/src/validation/policy_identity.py:239-282 | a field is among the conflicts exactly if both notices bear one name from one authority and state different values under it, field by field |
| PolicyFields.EquivalentIff | backend/src/validation/policy_identity.py:160-229 | notices may be merged exactly if type, authority and name are one and they contradict each other in nothing that both state |
| PolicyReconciler.FormGroups | backend/src/validation/policy_validator.py:251-263 | the greedy loop puts each candidate into the first group all of whose members it is equivalent to |
| PolicyReconciler.Reconcile | backend/src/validation/policy_validator.py:245-405 | grouping, merging, linking, conflict marking and sorting in the order of the code |
| PolicyReconciler.CollectConflicts | backend/src/validation/policy_validator.py:368-376 | the pairwise loop attributes every conflicting field to the sources of both candidates |
| PolicyRecords.StandingOfMerged | backend/src/validation/policy_validator.py:314-340 | originals that agree in status and codes keep their status; if they disagree and all are valid or partly valid the record is partly valid, else conflicted; the codes are those of all, with the source conflict exactly if they disagree |
| PolicyRecords.PrimaryIsStrongest | backend/src/validation/policy_validator.py:203-242 | the primary notice is decided by the first of year label, official sources, evidence, publication and id in which two differ |
| PolicyRecords.MergedStandsFor | backend/src/validation/policy_validator.py:132-356 | every field of a merged record in terms of its originals: id and fingerprint material, sources, evidence, each term by the first notice to state it, gathered lists, status and codes, and the primary's own words |
| PolicyOutput.EmittedIs | backend/src/validation/policy_validator.py:266-367 | a group emits the record of its originals, then its corrections and terminations by date and id, each behind the record before it, a clean termination closed |
| PolicyOutput.OutputOf | backend/src/validation/policy_validator.py:245-405 | the whole output: separated groups that may be merged, their records, marked as conflicts exactly where two candidates that share a source with them contradict each other, by ascending id |
| PolicyOutput.UnmarkedStatus | backend/src/validation/policy_validator.py:314-404 | a record without a conflict mark has the status and codes of its own notice, or those that the status law gives its originals |
| PolicyGroups.GroupsArePairwiseEquivalent | backend/src/validation/policy_validator.py:251-263 | the groups partition the candidates, every group is pairwise equivalent although equivalence is not transitive, and no group has an inner conflict |
| PolicyGroups.MergedRecordKeepsKnownTerms | backend/src/validation/policy_validator.py:132-200 | every limit, rate, date, grace or maturity known to an original is the merged record's, and the record knows nothing else |
| PolicyFingerprint.TextDeterminesMaterial | backend/src/validation/policy_identity.py:283-319 | while no value contains a separator and the stated values print differently, the joined text determines the values of every field |
| PolicyFingerprint.FaithfulPrinterExists | backend/src/validation/policy_identity.py:289-290 | for any two materials without blank values some printer meets those conditions |
| PolicyCollision.MergeFingerprintsDiffer | backend/src/validation/policy_identity.py:283-319 | two groups never share a fingerprint text if no value contains a separator and no two candidates list the same regions in different orders |
| PolicyCollision.CollisionCauses | backend/src/validation/policy_identity.py:283-319 | two originals with one text are in separate groups only if their regions are reordered or their values differ, and always if their regions are reordered |
| PolicyCollision.CollisionIffRegionsReordered | backend/src/validation/policy_identity.py:283-319 | while no value contains a separator, notices with given region lists can collide exactly if the lists name the same regions in different orders |
| PolicyCollision.CommaCollides | backend/src/validation/policy_identity.py:289-319 | an industry whose name contains a comma collides with two industries, whatever else the notices state |
| PolicyLineage.MergedValidationIsUnanimous | backend/src/validation/policy_validator.py:314-340 | a merged record is validated only if every original is, with the same codes, and any disagreement is marked as a conflict |
| PolicyLineage.ReconciliationKeepsSources | backend/src/validation/policy_validator.py:245-405 | no source id is lost and none is invented |
| PolicyLineage.ReconciliationCounts | backend/src/validation/policy_validator.py:264-367 | one record for each group with originals plus one for each correction or termination notice |
| PolicyLineage.FinalRecordLineage | backend/src/validation/policy_validator.py:359-367 | the supersedes links of a group form one chain through the record emitted just before |
| PolicyLineage.MarkedIffSharedSourceConflicts | backend/src/validation/policy_validator.py:368-404 | a record is marked on a field exactly when a candidate sharing a source with it conflicts on that field, and a marked record is never validated |
| PolicyArrival.PartitionIgnoresOrderIff | backend/src/validation/policy_validator.py:251-263 | notices of one id are partitioned alike in every order of arrival exactly if none is equivalent to two that contradict each other |
| PolicyArrival.ContentPartitionIff | backend/src/validation/policy_validator.py:251-263 | for notices of one content, exactly if they do not mix an unknown status with two different known ones |
| PolicyArrival.StatusesSplit | backend/src/orchestration/research_pipeline.py:116-117 | three copies of one notice that validation gave an unknown and two different known statuses are grouped by their order of arrival |
| PolicyArrival.SafeInEveryContextIff | backend/src/validation/policy_validator.py:251-263 | notices of one id and program are grouped independently of the order beside any other notices exactly if they are equivalent to each other |
| PolicyArrival.GroupingIgnoresOrder | backend/src/validation/policy_validator.py:251-263 | if notices of one id are equivalent, the groups have the same members in every order of arrival |
| PolicyOrder.RecordsIgnoreOrder | backend/src/validation/policy_validator.py:245-405 | and so do the number of records and, record by record, ids, sources, terms, failure codes and validation status |
| PolicyOrder.MergedIgnoresOrder | backend/src/validation/policy_validator.py:281-356 | the merged record of a group keeps its id, merge group, merged ids, sources, terms and codes under any rearrangement of its originals |
| PolicyOrder.SourcesIgnoreOrder | backend/src/validation/policy_validator.py:245-405 | the sources that the output names never depend on the order |
| PolicyOrder.ConflictMarksIgnoreOrder | backend/src/validation/policy_validator.py:368-404 | nor do the fields on which a record is marked |
| PolicyOrder.DistinctIdsIgnoreOrder | backend/src/validation/policy_validator.py:252-405 | the whole output is independent of the order if one id even stands for one candidate |
| PolicyPair.DistinctCommutesIff | backend/src/validation/policy_validator.py:119-124 | two lists give the same distinct values in both orders exactly if the distinct values of one begin with those of the other |
| PolicyPair.EvidenceCommutesIff | backend/src/validation/policy_validator.py:288-297 | two evidence lists give one dictionary in both orders exactly if the keys of one begin with those of the other and the last ids of shared keys agree |
| PolicyPair.PairIgnoresOrderIff | backend/src/validation/policy_validator.py:245-405 | the output for two originals of one id and content is independent of their order exactly if their statuses do not contradict each other and they agree on all that the merge takes from the first or the stronger one or lists in order |
| PolicyPair.BudgetDependsOnOrder | backend/src/validation/policy_validator.py:189-192 | budgets in two different known states are enough for the output to depend on the order |
| PolicyValidation.PolicyRecord.constructor | backend/src/validation/policy_validator.py:17-21 | validation works on the candidate it is given |
| PolicyValidation.PolicyRecord.CollectSourceCodes | backend/src/validation/policy_validator.py:25-36 | the codes of missing, mismatched and unacceptable sources |
| PolicyValidation.PolicyRecord.BindEvidence | backend/src/validation/policy_validator.py:37-64 | the in-place loop binds every item and changes nothing but the evidence |
| PolicyValidation.PolicyRecord.Validate | backend/src/validation/policy_validator.py:17-116 | the whole new state of the candidate |
| PolicyValidation.RejectedIffUnbindable | backend/src/validation/policy_validator.py:37-115 | a policy is rejected exactly when a source is not in order or some quote cannot be bound; otherwise every item names a related document at its stored revision and its offsets cut out exactly the quote |
| PolicyValidation.ValidationIsIdempotent | backend/src/validation/policy_validator.py:17-116 | validating the result again changes nothing |
| PolicyVerdict.FailureCodesIff | backend/src/validation/policy_validator.py:23-66 | each of the nine binding codes is there exactly for its own reason among the sources and the evidence, and a semantic code exactly if the assessment of the quotes gives it |
| PolicyVerdict.EvidenceAndNotesAre | backend/src/validation/policy_validator.py:37-72 | an item whose quote occurs once gets the stored revision and the place of the quote if it needs them, any other stays as it is, and the notes say what was repaired |
| PolicyVerdict.StatusesAre | backend/src/validation/policy_validator.py:73-115 | validation status, application status and recommendation codes by what the notice, its documents and the date say |
| EventReconciler.Reconcile | backend/src/validation/reconciler.py:12-68 | grouping, conflict resolution, decision lifecycle and sorting in the order of the code |
| EventReconciler.ReconcileGroup | backend/src/validation/reconciler.py:17-41 | the loop over one group keeps one survivor and sets every other event aside |
| EventConservation.ReconciliationConservesEvents | backend/src/validation/reconciler.py:12-42 | accepted and excluded events together carry exactly the ids of the input, with multiplicity |
| EventConservation.ConflictLosersRankBelow | backend/src/validation/reconciler.py:21-33 | within a group a reference set aside for a conflict ranks strictly below the survivor |
| EventConservation.ExcludedConflictRanksBelow | backend/src/validation/reconciler.py:12-42 | the same for every excluded event of a whole reconciliation, against the survivor of its fingerprint |
| EventConservation.AcceptedOncePerFingerprint | backend/src/validation/reconciler.py:16-42 | at most one event per fingerprint is accepted |
| EventTiers.TiersByName | backend/src/validation/reconciler.py:8 | official primary and local government beat all others and tie; official secondary and financial institutions tie and beat news and other; news beats other |
| EventTiers.ConflictByTier | backend/src/validation/reconciler.py:21-33 | of two reports that disagree the better tier survives untouched and the other becomes a reference; between equal tiers both are conflicted and none is accepted |
| EventTiers.AgreementMerges | backend/src/validation/reconciler.py:34-41 | of two reports that agree the first survives with the sources, candidates, revisions and evidence of both and the smaller title, and the other is a duplicate |
| EventTiers.ExcludedIsBeaten | backend/src/validation/reconciler.py:17-42 | whoever is excluded for a conflict is beaten by the survivor of its fingerprint, or ties with it and is conflicted |
| EventTiers.AcceptedIfOneBeatsAll | backend/src/validation/reconciler.py:17-42 | among accepted reports that all disagree one is accepted exactly if its tier beats all others |
| EventTiers.EverythingById | backend/src/validation/reconciler.py:14-68 | the reports of a fingerprint are confronted by ascending id, and both outputs are by ascending id |
| EventOrder.GroupIsArrival | backend/src/validation/reconciler.py:13-18 | a group of canonical events is its members in their order of arrival, because they share their id |
| EventOrder.OutcomeIgnoresOrderIff | backend/src/validation/reconciler.py:12-42 | the outcome of canonical events is independent of their order exactly if every fingerprint has copies of one event only, or two events on different occasions whose tiers differ in rank |
| EventOrder.TierDependsOnOrder | backend/src/validation/reconciler.py:18-41 | any two reports of one occasion from sources of different tiers leave a survivor with the tier of the first |
| EventOrder.NewsBeforePrimary | backend/src/validation/reconciler.py:18-41 | so do an announcement of a primary source and a news report with its own candidate, source and revision |
| EventMerge.FirstSetsStanding | backend/src/validation/reconciler.py:19-41 | the survivor of reports of one occasion keeps dates, tier and status of the first |
| EventMerge.SurvivorGathers | backend/src/validation/reconciler.py:19-41 | it carries the candidate, source and revision ids of all of them and nothing else, in ascending order |
| EventMerge.MergedReportsIgnoreOrder | backend/src/validation/reconciler.py:12-42 | reports of one occasion are accepted in every order, with the same candidates, sources, revisions and title |
| EventMerge.ConflictAcceptsUniqueTop | backend/src/validation/reconciler.py:21-33 | of accepted events that all conflict the survivor is one of highest rank, and is accepted exactly if one member outranks all others |
| DecisionLifecycle.OnlyCurrentDecisionSignals | backend/src/validation/reconciler.py:43-67 | at most one base-rate decision can signal, and it is the last one effective on the analysis date |
| DecisionLifecycle.LifecycleIs | backend/src/validation/reconciler.py:46-67 | a decision that is not current is superseded by the first that starts after it, from the day before, or is a future one if none does; both lose their signal |
| DecisionLifecycle.SupersededWindow | backend/src/validation/reconciler.py:50-62 | a superseded window keeps start before end and ends the day before an accepted, strictly later decision |
| DecisionLifecycle.SupersededWindowsDisjoint | backend/src/validation/reconciler.py:50-62 | superseded windows with different starts are disjoint |
| ResearchSummary.Summarise | backend/src/orchestration/analysis_orchestrator.py:300-336 | the bookkeeping raises the first of its three complaints or builds a summary that the contract's validator accepts |
| ResearchSummary.ConsistentIff | backend/src/contracts/attribution.py:172-198 | the validator passes exactly if nothing is listed twice or on both sides, the outcomes are all candidates and the counts count them |
| ResearchSummary.FirstInconsistency | backend/src/contracts/attribution.py:172-198 | which inconsistency is named when there are several |
| ResearchSummary.AcceptedOwnsItsCandidates | backend/src/validation/reconciler.py:34 | an accepted event carries candidates of its own fingerprint only, each once |
| ResearchSummary.ReconciledSummaryIsConsistent | backend/src/contracts/attribution.py:172-198 | distinct input candidates stay disjoint across accepted events, so the summary of a reconciliation is always consistent |
| EventBridge.ApplyOfficialEventBridge | backend/src/forecasting/official_event_bridge.py:65-155 | the loop that rereads the observations it appends computes the bridge |
| EventBridge.BridgeOverrides | backend/src/forecasting/official_event_bridge.py:117-150 | original observations stay as a prefix and the overrides have strictly increasing dates after the series and not after the as-of date |
| EventBridge.EveryIdentityDecidedOnce | backend/src/forecasting/official_event_bridge.py:99-102 | every mapped identity is decided exactly once, and applied decisions and appended observations are equal in number |
| EventBridge.BridgeIsIdempotent | backend/src/forecasting/official_event_bridge.py:65-155 | bridging its own output with the same events appends nothing, and only turns applied decisions into expired ones |
| BridgeEligibility.AppendedIsWarranted | backend/src/forecasting/official_event_bridge.py:75-150 | every appended observation has the value, unit and date of an event that is mapped, official primary, not from a foreign central bank, declares the base rate with a finite value, a unit and full evidence, in the newest unit, dated after the newest observation and not after the as-of date |
| BridgeEligibility.WarrantedIsAppended | backend/src/forecasting/official_event_bridge.py:75-154 | the first event of each identity is decided on the series as bridged so far, with each reason exactly on its grounds, and is appended if it is warranted then |
| OfficialFeatures.Build | backend/src/forecasting/official_features.py:83-243 | each month of the feature set is the projection of the bridged observations at its step |
| OfficialFeatures.CollectChanges | backend/src/forecasting/official_features.py:113-159 | the loop collects the changes of every role in indicator order |
| OfficialFeatures.DecayedSumClosedForm | backend/src/forecasting/official_features.py:49-50 | the decayed sum is (1 - 0.65^n) / 0.35 and never reaches 20/7 |
| OfficialFeatures.CumulativeGrowsWithinCap | backend/src/forecasting/official_features.py:125-134 | an indicator's change keeps its sign, never shrinks with the horizon and stays within its role's cap |
| OfficialFeatures.FinalClipsNeverBind | backend/src/forecasting/official_features.py:199-238 | the clips on all four multipliers never bind |
| OfficialFeatures.ContributionsSumToAverage | backend/src/forecasting/official_features.py:140-146 | the reported contributions of a revenue or cost role sum exactly to its averaged change |
| OfficialFeatures.AverageGrowsIffCapsIdle | backend/src/forecasting/official_features.py:91-134 | whatever is observed, the averaged change of a role with at least two indicators grows up to a horizon exactly if no horizon cap can bind by then |
| OfficialFeatures.AverageGrowsIfSameDirection | backend/src/forecasting/official_features.py:199-205 | indicators that move in one direction have an averaged change that never shrinks with the horizon |
| OfficialMonths.IndicatorsAre | backend/src/forecasting/official_features.py:91-116 | one indicator for each id with a valid observation, by id, with the last two valid observations by day, availability and id |
| OfficialMonths.ContributionsAre | backend/src/forecasting/official_features.py:113-197 | each contribution: relative change, 5 % cap, decayed change within the role's limit, projected level, and the share of its role; a rate moves by its level, a hundredth of it if its unit is a percentage, within two points |
| OfficialMonths.MultipliersAre | backend/src/forecasting/official_features.py:199-234 | the multipliers are one plus what the contributions of their role add up to, and that of all ingredients weighs both costs by the number of their indicators |
| OfficialMonths.InterestIsAverage | backend/src/forecasting/official_features.py:147-238 | the rate change averages over the rate indicators with a previous observation; the contributions add up to it exactly if it is zero or none lacks one |
| Forecast.ComputeDamped | backend/src/forecasting/pipeline.py:69-77 | the accumulating loop computes every damped point from its geometric sum |
| Forecast.SlopesTelescope | backend/src/forecasting/pipeline.py:57-58 | the mean slope of a window is its end-to-end slope |
| Forecast.ClosedFormModelsAreSound | backend/src/forecasting/pipeline.py:37-88 | the four closed-form models never forecast a negative value and keep the requested length |
| Forecast.ComputeMetric | backend/src/forecasting/pipeline.py:133-163 | the backtest loop computes the metric of its folds, and fails when a prediction fails |
| Forecast.MetricBounds | backend/src/forecasting/pipeline.py:151-163 | for any model and at least one fold, the symmetric error lies in [0, 2] and the coverage exceeds 24/49 |
| ForecastPoints.MeanForecasts | backend/src/forecasting/pipeline.py:43-46 | every point times the months looked back on is their sum, cut off at zero; at most six months |
| ForecastPoints.TrendForecasts | backend/src/forecasting/pipeline.py:55-59 | the points go on from the last month by the mean change of the last six months |
| ForecastPoints.DampedForecasts | backend/src/forecasting/pipeline.py:69-77 | the points go on by the mean change of the last twelve months times four less four powers of 0.8 |
| ForecastPoints.SeasonalForecasts | backend/src/forecasting/pipeline.py:86-88 | every point is the same month a year before, cut off at zero |
| ForecastPoints.BacktestIs | backend/src/forecasting/pipeline.py:133-163 | which months are tested, each against the prediction from the months before it, and the four measures of their errors |
| ForecastSelection.ChooseModel | backend/src/forecasting/pipeline.py:186-256 | the choice between fallback, skipped candidates, ranking and required improvement |
| ForecastSelection.RunForecast | backend/src/forecasting/pipeline.py:172-272 | the failures of the choice, or one band per month of the horizon |
| ForecastSelection.RaisesIff | backend/src/forecasting/pipeline.py:186-255 | a run raises exactly on an empty history with a declared revenue of zero, or on 24 months or more if a statistical model is selected that fails on the full history |
| ForecastSelection.SomeModelIsAlwaysScored | backend/src/forecasting/pipeline.py:211-228 | the recent mean never fails in the backtest, so the fallback for failed candidates is never reached |
| ForecastSelection.SelectedModelCanRaise | backend/src/forecasting/pipeline.py:229-251 | a concrete history and statistical model that wins the backtest make the run raise |
| ForecastSelection.SelectedMeetsImprovement | backend/src/forecasting/pipeline.py:239-246 | another model than the recent mean is used only if it meets the required improvement |
| ForecastSelection.DefaultSelectionIsBest | backend/src/forecasting/pipeline.py:234-246 | without a required improvement the fallback never triggers and the selected error is the least |
| ForecastSelection.ChoiceIsSound | backend/src/forecasting/pipeline.py:197-255 | every choice forecasts the whole horizon without negative values, with a band width that is not negative |
| ForecastSelection.BandsEnclosePoints | backend/src/forecasting/pipeline.py:259-272 | every band encloses its point and stays nonnegative, in consecutive months |
| ForecastChoice.CandidatesByLength | backend/src/forecasting/pipeline.py:204-210 | which models are candidates for a history of each length |
| ForecastChoice.SelectIs | backend/src/forecasting/pipeline.py:229-246 | the selected candidate is as good as all by symmetric error, mean error and preference, unless the recent mean stands instead because the required improvement is missed |
| ForecastChoice.ShortHistory | backend/src/forecasting/pipeline.py:186-203 | on less than six months a declared revenue other than zero, or else the last month, is repeated with a band of a fifth of itself |
| ForecastChoice.LongHistory | backend/src/forecasting/pipeline.py:204-255 | from six months on the selected candidate forecasts, with a band of 1.96 mean errors, or of 5 % of the mean of the whole history if that is nothing |
| ForecastChoice.PointsAre | backend/src/forecasting/pipeline.py:257-272 | every point and both sides of its band are scaled by the official multiplier of the month, and the lower side is cut off at zero |
| ResearchSignals.BuildSignals | backend/src/signals/research_signal.py:22-58 | the nested loops emit the signals of accepted, enabled events in order, deduplicated by cause |
| ResearchSignals.OverlapsSumToSharedDays | backend/src/signals/research_signal.py:34-38 | each month's overlap times its length sums exactly to the days shared by the event and the horizon |
| ResearchSignals.SignalWithinOverlap | backend/src/signals/research_signal.py:44-55 | no signal is stronger than the share of the month that its event covers |
| ResearchSignals.Dedupe | backend/src/signals/research_signal.py:60-65 | the loop over the insertion-ordered dictionary |
| ResearchSignals.OneStrongestSignalPerCause | backend/src/signals/research_signal.py:60-65 | each month, axis and cause has exactly one signal, of largest magnitude |
| ResearchSignals.SignalIdsAreUnique | backend/src/signals/research_signal.py:56-65 | signal ids are unique when one event id stands for one cause group |
| SignalValues.SignalAsDescribed | backend/src/signals/research_signal.py:27-56 | the value of a signal: covered share of the month, place, industry, schedule, evidence, severity, direction, decay, and nothing for interest without variable debt |
| SignalValues.KeptSignalsArise | backend/src/signals/research_signal.py:22-58 | every kept signal is that of an impact of an accepted, enabled event in a month of the horizon |
| SignalValues.ImpactsAreKept | backend/src/signals/research_signal.py:22-65 | every such impact gives a signal, and one of its month, axis and cause at least as strong is kept |
| SignalValues.FirstStrongestKept | backend/src/signals/research_signal.py:60-65 | of several signals of one month, axis and cause the first of the strongest is kept |
| ScenarioAdjustment.SumShocks | backend/src/signals/research_signal.py:69-71 | the dictionary holds every axis's shock, absent axes standing for zero |
| ScenarioAdjustment.Adjust | backend/src/signals/research_signal.py:66-81 | the adjustment of each stress scenario, the baseline being neutral |
| ScenarioAdjustment.MultipliersStayInBounds | backend/src/signals/research_signal.py:72-80 | however strong the signals, every multiplier stays between the exponentials of its axis's bounds |
| ScenarioAdjustment.AdjustmentIgnoresOrder | backend/src/signals/research_signal.py:69-81 | the adjustment does not depend on the order of the signals |
| ScenarioAdjustment.SignalMovesItsAxis | backend/src/signals/research_signal.py:70-80 | one more increasing signal moves only its own axis, in that axis's direction; an uncertainty signal lowers or raises revenue as it takes the uncertainty shock away from zero or towards it |
| SignalValues.AdjustmentIs | backend/src/signals/research_signal.py:66-81 | what the signals of each axis make of revenue, variable and fixed costs and the interest change |
| InterestChange.NoRateEventNoChange | backend/src/registries/event_types.v1.yaml:3-15 | while the signals of rate decisions are disabled the interest change is zero |
| InterestChange.InterestChangeOfEvent | backend/src/signals/research_signal.py:22-81 | with one enabled rate decision the change is the coefficient times what the event adds over the horizon, if positive, and at most the coefficient times the severity decayed over the months |
| InterestChange.BoundSafeIff | backend/src/signals/research_signal.py:80 | every single rate decision of a severity keeps the configured bound exactly if the coefficient times the severity times the decay of the months stays within it |
| InterestCause.InterestChangeOfCause | backend/src/signals/research_signal.py:60-80 | for any rate decisions of one cause the change is at most the coefficient times the greatest severity times the number of months |
| RunProtocol.ExecutionKeepsInv | backend/src/orchestration/job_runner.py:20-56 | in every interleaving, an unfinished future is the registered one of its run, and exactly the runs between `begin` and `finish` have a deadline |
| RunProtocol.OneLiveTaskPerRun | backend/src/orchestration/job_runner.py:27-50 | at most one unfinished task exists for a run |
| RunProtocol.StartsAgainIff | backend/src/orchestration/job_runner.py:27-50 | in every interleaving a submission or retry starts a job exactly if all earlier jobs of its run are completed or withdrawn, and otherwise changes nothing |
| RunProtocol.BeginsAreBracketed | backend/src/orchestration/job_runner.py:20-25 | two `begin` steps of one run have the first task's `finish` between them |
| RunProtocol.StopReasonSinceBegin | backend/src/orchestration/run_control.py:14-35 | between `begin` and `finish` the reason is a cancel exactly when a cancel came after that `begin`, and a timeout exactly from that `begin`'s deadline |
| RunProtocol.CancelledNeverBegins | backend/src/orchestration/job_runner.py:52-56 | a future withdrawn while queued never runs |
| RunProtocol.FutureStays | backend/src/orchestration/job_runner.py:52-56 | a future that a cancel looked up is still there after any interference, with the same run |
| RunProtocol.CancelBeforeBeginIsLost | backend/src/orchestration/run_control.py:14-17 | a cancel between pick-up and `begin` leaves the run without a stop reason |
| RunObjects.RunControlRegistry.constructor | backend/src/orchestration/run_control.py:9-12 | a new registry has no deadlines and no flags |
| RunObjects.RunControlRegistry.Begin | backend/src/orchestration/run_control.py:14-17 | clears the run's flag and sets its deadline, leaving other runs alone |
| RunObjects.RunControlRegistry.Finish | backend/src/orchestration/run_control.py:19-22 | forgets the run's deadline and flag |
| RunObjects.RunControlRegistry.Cancel | backend/src/orchestration/run_control.py:24-26 | flags the run and keeps every deadline |
| RunObjects.RunControlRegistry.StopReason | backend/src/orchestration/run_control.py:28-35 | answers as the protocol's specification does |
| RunObjects.InProcessJobRunner.constructor | backend/src/orchestration/job_runner.py:14-18 | a new runner has no tasks |
| RunObjects.InProcessJobRunner.Submit | backend/src/orchestration/job_runner.py:27-32 | is the protocol's submit step, and keeps the invariant |
| RunObjects.InProcessJobRunner.Retry | backend/src/orchestration/job_runner.py:45-50 | is the protocol's retry step, refused exactly while the run is occupied |
| RunObjects.InProcessJobRunner.BeginTask | backend/src/orchestration/job_runner.py:20-21 | the worker's first step is the protocol's `begin`, with the runner's timeout |
| RunObjects.InProcessJobRunner.FinishTask | backend/src/orchestration/job_runner.py:24-25 | the worker's last step is the protocol's `finish` |
| RunObjects.InProcessJobRunner.RunControlled | backend/src/orchestration/job_runner.py:20-25 | a task that nobody cancels is told to stop exactly from its own deadline on, whatever was flagged before, and leaves neither deadline nor flag behind |
| RunObjects.InProcessJobRunner.Execute | backend/src/orchestration/job_runner.py:20-32 | a worker that starts, runs and completes a queued task without interference leaves it done, all other tasks as they were and its run free |
| RunObjects.InProcessJobRunner.Flag | backend/src/orchestration/job_runner.py:55 | the second step of a cancel is the protocol's flag step |
| RunObjects.InProcessJobRunner.Withdraw | backend/src/orchestration/job_runner.py:56 | the third step withdraws the future that was looked up if it is still queued, and reports whether it is cancelled |
| RunObjects.InProcessJobRunner.Cancel | backend/src/orchestration/job_runner.py:52-56 | the three steps of a cancel without interference |
| RateLimit.RateLimiter.constructor | backend/src/api/main.py:200 | no client has a window yet |
| RateLimit.RateLimiter.HandleRequest | backend/src/api/main.py:195-207 | the decision and the client's new window, leaving other clients alone |
| RateLimit.NoWindowExceedsLimit | backend/src/api/main.py:195-207 | no 60-second interval of a non-decreasing history holds more admissions than the limit |
| RateLimit.WindowIsRecentAdmissions | backend/src/api/main.py:200-206 | the deque always holds exactly the admissions of the last 60 seconds |
| RateLimit.RejectedIffWindowFull | backend/src/api/main.py:203-206 | a request is rejected exactly when that many admissions really lie in the last 60 seconds |
| RateLimit.ClosedWindowHoldsTwice | backend/src/api/main.py:195-207 | an interval of 60 seconds with both ends included holds at most twice the limit, and for every limit some history reaches that |
| RateLimit.NoExactGapKeepsLimit | backend/src/api/main.py:195-207 | unless two requests lie exactly 60 seconds apart, an interval with both ends included holds at most the limit |
| RateLimit.ClosedWindowKeepsLimitIff | backend/src/api/main.py:195-207 | intervals with both ends included keep the limit exactly if no request is admitted although the 60 seconds up to it, both ends included, already hold that many |

## Left out

- ConservedIffNoSwitchShows: stated for rate changes that never fall, because with changes in both directions the jumps can cancel and the exact condition is that their sum is zero, as `CollectedIsPrincipalPlusDrift` says.
- ScenarioAttributionIsExact: requires ascending months in both scenarios, which the forecast pipeline guarantees, because the comparison is keyed by month.
- PairIgnoresOrderIff: compares records without `source_validation_details`, which list the notices by sources and id.
- SignalIdsAreUnique: the digest is an injective name, so its truncation to twenty digits is not modelled.
- Decimal context rounding and the rounding inside the exponential: values are exact reals and `exp` is a monotone parameter.
- Schedule metadata, audit texts, `source_validation_details`, contribution descriptions and report strings: they do not feed a decision.
- Policy and scenario ids as strings: records are identified by integer keys and by the material that is hashed.
- The name, purpose, region and authority normalisers, and the semantic assessment: they rest on regular expressions and Unicode tables.
- Distance, evidence, severity, industry and schedule scores of signals: parameters with their documented range [0, 1].
- `assign_cause_groups`: one branch per event; the cause group is an input of the signals.
- ETS and SARIMA: arbitrary functions that fail or return nonnegative forecasts.
- Eligibility rules and ranking scores of relief policies: each reads off one branch.
- The number of worker threads and `get_status`: the protocol allows any number of workers, which covers every pool size.
- The legacy scenario and benefit simulation: not part of this model.
- Network access, extraction, storage, HTTP routing and the user interface: not part of this model.
