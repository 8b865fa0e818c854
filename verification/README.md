# Forge: a verified model of the kernel's promises

Forge is a deterministic text-game engine. Authored content (locations, characters, recipes, actions, timed and
deferred events) is validated once, at compile time; afterwards a kernel turns canonical actions into state transitions,
a replay library records and verifies them, and a server with a browser client plays them over an unreliable network.
The engine promises a good deal in advance: content that passes validation can never produce a text that is too long to
show, ledgers can be checked without trusting whoever wrote them, a trace is accepted exactly if the engine itself would
have recorded it, and a command takes effect exactly once. This project models the code that makes those promises and
proves them for every content, every run, every stream of random draws and every order of network events.

## How the model is laid out

The loops of the source are methods, proved equal to (or exactly characterized by) a specification function or
predicate; the promises themselves are lemmas about those specifications and about runs of the kernel. Objects whose
methods update their fields (`Session`, `SessionService`, `SessionRegistry`, `GameClient`, `Scanner`) are classes.

- Shared vocabulary: `Basics`, `Text` (word counts), `Model` (state and events), `Content` (authored definitions).
- The kernel: `Effects` (what an effect does, and due events), `Availability` (which candidates are offered), `Kernel`
  (transitions, authored starts, runs), `Validation` (structural checks).
- What the legal set guarantees: `PreflightPaths` (the path preflight is exact), `StockBounds` and `OfferedExactly` (the
  interval analysis is sound, and tight on every path).
- Word budgets: `Windows`, `Cohorts`, `TimeCost` (the algorithms), `CohortRuns`, `ResultBudget` (why they hold in every
  run), `Sums`, `GenesisBudget`, `SupplyBudget`, `SupplyClosure`, `SupplyWords`, `SupplyReadout` (what the character can
  ever show), `Observation`, `ObservationBudget` (the composed theorem); `BudgetTight`, `GenesisTight`, `SupplyTight`
  (every part of a budget is attained, every component the smallest possible).
- Ledgers: `Schedule`, `Timeline` (the event queue), `Ownership`, `Lineage`, `LineageRuns` (who holds what), `Guards`
  (guaranteed stock and knowledge), `DeferredOracle` (the independent oracle of the verification tool); `ScheduleLaws`,
  `LineageLaws`, `OracleLaws` (what these accept, read off the ledger without any machine), `GuardsTight` (the guarantees
  are the strongest). `Chronicle`, `EffectLaws`, `NpcPositions` (the ledger tells the whole state).
- Record, verify, resume: `Replay`, `ReplayLaws`. Exactly once: `Service`, `Registry`, `Client`, `ServiceLaws`,
  `Protocol`. Catalog pages: `Catalog`.
- Entropy: `Entropy`, `EntropyRuns`. Journal text: `JsonScanner`, `JsonGrammar`, `JsonNames`. Characters: `Creation`,
  `CreationRules`, `CreationLaws`.

## Results worth knowing first

- `ObservationBudget.EveryTransitionObserved`: content that passes the budgets never makes an observation of a hundred
  words or more, in any run. It composes the window, cohort, conservation and closure bounds.
- `SupplyClosure.ClosedComponentWords` and `ClosureSound`: the exhaustive search finishes exactly when its budget covers
  it, its answer is an exact maximum, and that maximum bounds every run over any number of owners.
- `OfferedExactly.OfferedExactly`: the legal set leaves out no candidate that cannot fail, and offers none that can run
  out of stock.
- `Schedule.ValidateEventSchedule` and `Lineage.ValidateProductionInventory`: both ledger validators accept exactly the
  runs of a small machine; `Timeline.ReachableAdmitted` and `LineageRuns.ReachableLineage`: the kernel only ever writes
  such ledgers.
- `ScheduleLaws.AdmittedExactly`, `LineageLaws.LineageExactly`, `OracleLaws.AcceptsExactly`, `ReplayLaws.AcceptsExactly`:
  what the validators accept, as a condition on the records themselves.
- `Chronicle.ReachableTold`: in every run the ledger accounts for every fact of the state.
- `Replay.VerifyIsExact`: verification accepts exactly what recording produces.
- `Protocol.ExactlyOnce`: end to end, under loss, duplication, delay, reload, retry, close and restart.

Where the code does less than its surroundings suggest, the exact condition is stated, with an instance.

- A creation slot named "base" shares its owner label with the base patch, so the conflict check misses collisions
  between the two. `CreationRules.CreationTotal` proves that validated creation is total if and only if there is no such
  collision; `CreationRules.SelkieFails` is a definition that passes every check and fails.
- For fixture content, `verify` accepts one kind of trace no session records: a fixture label on a state with an authored
  origin (`Replay.AcceptedUnrecorded`, with `Replay.FixtureLabelIsAccepted` as an instance). For production content
  there is none.
- A refused action is final once its expected revision had been reached, unless the client sends another request with
  the same command id and fingerprint (`Service.RefusedIsFinal`, `Service.ConfusedIsAnswered`). A request sent ahead of
  its revision can be refused now and accepted next (`Service.EarlyRequestIsRefused`, `Service.RefusedThenAccepted`).
- A refused creation is final or not by a condition that can be checked beforehand (`Registry.RefusedCreationRecovers`):
  lack of active capacity and unlucky session ids are temporary, everything else is final.
- The effect walkers disagree about trees deeper than the limit: only one reports them, the others silently stop. The
  ban on time, scheduling and transfers in event programs still holds on every branch (`Validation.CheckedIsQuiet`),
  because no accepted tree is that deep.

## Model

| member | source | states |
|---|---|---|
| `ObservationBudget.EveryTransitionObserved` | crates/forge-kernel/src/content.rs:1453-1510 | if the budgets of a validated production draft hold, then for every run from an authored start, every stream of draws and every accepted action, the observation of the transition with its complete result (action text, all event results, location, supplies) is made: the runtime word check never fires |
| `ObservationBudget.EveryStateObserved` | crates/forge-kernel/src/content.rs:1433-1438 | under the same budgets every reachable state can be observed |
| `ObservationBudget.ValidateObservationBudgets` | crates/forge-kernel/src/content.rs:2973-3027 | reports no issue if and only if the initial budget and the budget of every action hold: the longest texts, the maximum event window and deferred results of the duration, and the readout bound stay below one hundred words; event budgets are computed once per duration. `BudgetTight.BudgetsTextByText` says the same without any maximum |
| `BudgetTight.BudgetsTextByText` | crates/forge-kernel/src/content.rs:2973-3027 | the budgets hold if and only if no text a place can show and, for every action, no result text, place text and event words of its duration together with the readout bound reach one hundred words: a maximum of words stands for no more than the longest text there is |
| `ObservationBudget.TransitionResultWords` | crates/forge-kernel/src/content.rs:1483-1509 | the joined result of a transition has at most the words of the longest action text plus the event budget of the action's maximum duration |
| `ObservationBudget.ObservesWithin` | crates/forge-kernel/src/content.rs:1628-1656 | an observation succeeds whenever its result, the longest location text and the readout bound together stay below one hundred words |
| `Observation.ObserveAfterTransition` | crates/forge-kernel/src/content.rs:1478-1510 | the transition's events must end the state's ledger; the loop over them then collects exactly the results of the applied resolutions, in order, behind the action's own text, or fails on an unknown event |
| `Observation.StepShows` | crates/forge-kernel/src/content.rs:1483-1509 | the results shown after a transition are exactly obtainable, and have no more words than all events the transition resolved |
| `Observation.SelectedAtMost` | crates/forge-kernel/src/content.rs:2838-2844 | whichever variant a state selects, its words are within the maximum over the base text and all variants, which `Observation.MaximumTextIsLongest` proves to be the longest of them |
| `Observation.MaximumTextIsLongest` | crates/forge-kernel/src/content.rs:2838-2844 | the maximum over a base text and its variants stays below a limit exactly when every single one of these texts does |
| `Observation.LongestPlaceText` | crates/forge-kernel/src/content.rs:2974-2979 | the location maximum is the word count of an authored description or variant of some place, and zero without places |
| `Observation.PlaceTextAtMost` | crates/forge-kernel/src/content.rs:2974-2979 | no description or variant of any place has more words than it |
| `Observation.SelectedIsChosen` | crates/forge-kernel/src/content.rs:4893-4905 | the text shown is that of a variant that holds and that no other holding variant outranks by priority, then id; the base text exactly when none holds |
| `Windows.MaximumEventWords` | crates/forge-kernel/src/content.rs:3029-3047 | on events sorted by due time the sliding sweep returns the maximum, over all integer start times, of the words due in (start, start + ticks] |
| `Windows.MaximumRun` | crates/forge-kernel/src/deferred_budget.rs:91-104 | the largest sum over left endpoints equals the largest window over all start times |
| `Windows.RunWords` | crates/forge-kernel/src/deferred_budget.rs:97-101 | the run from a left endpoint holds exactly the events less than the given ticks after it |
| `TimeCost.EffectTakes` | crates/forge-kernel/src/content.rs:776-818 | on every branch a draw can take, an effect advances the clock by at least its minimum and at most its maximum cost |
| `TimeCost.ActionTakes` | crates/forge-kernel/src/content.rs:820-834 | an accepted run of an action takes time within its published cost |
| `TimeCost.CostIsExact` | crates/forge-kernel/src/content.rs:776-818 | the minimum and the maximum cost of an effect are both times some branch takes, and every branch takes a time between them |
| `TimeCost.ActionCostIsExact` | crates/forge-kernel/src/content.rs:820-834 | an action has a published cost exactly when no choice of branches leaves u64, and both its ends are taken by some choice of branches |
| `TimeCost.EffectTakesOne` | crates/forge-kernel/src/content.rs:776-818 | what an effect really adds to the clock is the time of one of its branches |
| `Cohorts.CollectScheduleUses` | crates/forge-kernel/src/deferred_budget.rs:110-151 | walking an effect records, for every template, how often it is scheduled and its fixed offset, exactly as the recursive specification of uses does |
| `Cohorts.CollectAction` | crates/forge-kernel/src/deferred_budget.rs:44-59 | the loop over an action carries the running prefix time and records each schedule at the offset it will have |
| `Cohorts.CollectAll` | crates/forge-kernel/src/deferred_budget.rs:43-76 | after actions and event programs the table holds the uses of the whole draft |
| `Cohorts.Duration` | crates/forge-kernel/src/deferred_budget.rs:44-51 | the duration of a program without draws: the sum of its time advances, none if a draw could change it or it leaves u64 |
| `Cohorts.FixedIsSole` | crates/forge-kernel/src/deferred_budget.rs:3-8 | a template with a fixed offset occurs at one place only: directly in one action without random effects |
| `BudgetTight.FixedExactly` | crates/forge-kernel/src/deferred_budget.rs:53-76 | a template has that fixed offset in that action if and only if no event program mentions it and its one mention is a plain schedule in that action, whose program is free of draws, at that offset |
| `Cohorts.GroupByAction` | crates/forge-kernel/src/deferred_budget.rs:77-88 | templates are split into independent ones and, per action, cohorts of offsets |
| `Cohorts.MaximumResultWords` | crates/forge-kernel/src/deferred_budget.rs:23-108 | the returned total is the independent words plus, for every cohort, the largest window of its offsets; on duplicate templates it is the plain sum, and for zero ticks nothing |
| `CohortRuns.FixedOrigin` | crates/forge-kernel/src/deferred_budget.rs:3-8 | a fixed-offset entry pending after an action either belongs to another action and was pending before, or belongs to this one and is based at its start |
| `CohortRuns.ScheduledFresh` | crates/forge-kernel/src/reducer.rs:756-771 | a program that succeeds found no template it schedules pending when it began |
| `CohortRuns.StepAligned` | crates/forge-kernel/src/deferred_budget.rs:3-8 | a transition from an admitted state keeps pending entries of one cohort at the relative due times their offsets give them |
| `CohortRuns.DueTogether` | crates/forge-kernel/src/deferred_budget.rs:3-12 | whatever a transition of at most the given ticks resolves lies in one window of absolute events and, per cohort, in one window of offsets |
| `ResultBudget.DeferredResultsBound` | crates/forge-kernel/src/deferred_budget.rs:23-108 | the results of all deferred events resolving together never exceed the computed maximum |
| `ResultBudget.ResultsBound` | crates/forge-kernel/src/content.rs:2998-3006 | all results of one transition, absolute and deferred, stay within the sum of the two bounds |
| `BudgetTight.ResultBoundAttained` | crates/forge-kernel/src/deferred_budget.rs:23-108 | the deferred bound is attained: there are entries, aligned by cohort and all due within one transition, whose results show the player exactly that many words |
| `BudgetTight.TimedBoundAttained` | crates/forge-kernel/src/content.rs:3029-3047 | the bound of absolute events is attained by authored events of one window |
| `SupplyBudget.UnitsNeverGrow` | crates/forge-kernel/src/supply_budget.rs:1-8 | in a component no recipe crosses and no recipe grows, the units over all owners never exceed the authored genesis bound, in any run |
| `SupplyBudget.ConservationSound` | crates/forge-kernel/src/supply_budget.rs:47-135 | the sum of the costliest lines that many units can fill bounds the words any reachable state shows of the component |
| `SupplyTight.ConservationIsLargest` | crates/forge-kernel/src/supply_budget.rs:118-125 | the bound of a component is exactly the most words of any of its lines there are units for, where a component whose units can grow has units for all |
| `SupplyTight.ConservedExactly` | crates/forge-kernel/src/supply_budget.rs:101-117 | a component counts as conserved exactly when some recipe touches it, every such recipe has inputs that fit u64, and no such recipe leaves any pool with more units than before |
| `GenesisBudget.PooledDominates` | crates/forge-kernel/src/supply_budget.rs:186-228 | item by item, the pooled stock is at least what any authored start holds over all owners |
| `GenesisBudget.GenesisUnitsBound` | crates/forge-kernel/src/supply_budget.rs:145-180 | the units of a component at any authored start, preset or custom, are at most the computed bound |
| `GenesisTight.GenesisUnitsAttained` | crates/forge-kernel/src/supply_budget.rs:145-180 | the genesis units of a component are those of some authored start, a preset or a custom selection, provided the choices of creation merge and starting stock is well formed |
| `GenesisTight.PooledAttained` | crates/forge-kernel/src/supply_budget.rs:186-228 | under the same condition pooled stock is, item by item, what some authored start really holds over all owners |
| `GenesisTight.CustomAttained` | crates/forge-kernel/src/supply_budget.rs:163-179 | the custom maximum is carried by the canonical selection of the largest choice of every slot |
| `GenesisBudget.MergedMeasure` | crates/forge-kernel/src/content.rs:4756-4836 | merging patches combines no two counts of one item, so a merged character measures as much as its patches together |
| `SupplyClosure.ClosedComponentWords` | crates/forge-kernel/src/supply_budget.rs:230-301 | there is an answer if and only if the recipes stay inside the component, the reachable pools are finitely many u64 counts, and the budget covers trying every recipe on each of them once; the answer is then the exact maximum over every reachable pool |
| `SupplyClosure.Expand` | crates/forge-kernel/src/supply_budget.rs:273-298 | one pool's recipes are all tried: every successor is discovered and nothing else, and stopping means attempts ran out, states ran out, or a count left u64 |
| `SupplyClosure.StoppedEarly` | crates/forge-kernel/src/supply_budget.rs:258-297 | a search that stopped early could not have finished within the budget, whatever the order of the worklist |
| `SupplyClosure.SearchableHasLargest` | crates/forge-kernel/src/supply_budget.rs:182-301 | a component that can be searched has a largest reachable readout |
| `SupplyClosure.PoolDominatesRun` | crates/forge-kernel/src/supply_budget.rs:182-185 | for every run over any number of owners, firing the same recipes on the pool alone gives a reachable pool with at least as much of every item |
| `SupplyClosure.ClosureSound` | crates/forge-kernel/src/supply_budget.rs:182-301 | the exact maximum over reachable pools bounds the item words of the component in every state of every run |
| `SupplyWords.BuildAdjacency` | crates/forge-kernel/src/supply_budget.rs:65-85 | the link graph joins exactly the items that occur with the first input of some recipe; none if a recipe consumes nothing |
| `SupplyWords.FindComponent` | crates/forge-kernel/src/supply_budget.rs:92-99 | the depth-first worklist ends with exactly the component of its starting item |
| `SupplyWords.SumComponentWords` | crates/forge-kernel/src/supply_budget.rs:86-134 | each component is counted once, at its first item in key order |
| `SupplyWords.StableIsClosed` | crates/forge-kernel/src/supply_budget.rs:3-8 | a component of the link graph is crossed by no recipe |
| `SupplyTight.ComponentIsLeastClosed` | crates/forge-kernel/src/supply_budget.rs:62-99 | the component found for an item is the smallest set that holds the item and that no recipe crosses |
| `SupplyTight.ComponentApart` | crates/forge-kernel/src/supply_budget.rs:92-99 | a component shares nothing with a closed set that does not hold its starting item |
| `SupplyTight.WordsAreOfComponents` | crates/forge-kernel/src/supply_budget.rs:86-134 | the total is the sum of the bounds of components that share no item and leave no item out, each counted once |
| `SupplyWords.ComponentWords` | crates/forge-kernel/src/supply_budget.rs:101-132 | per component the answer is the conservation bound (the plain sum for a growing one), lowered to the exact closure maximum exactly where the search can finish |
| `SupplyWords.ItemWordsWithClosure` | crates/forge-kernel/src/supply_budget.rs:47-135 | the total adds up every component of the link graph once; if a recipe consumes nothing it is the sum over all items |
| `SupplyWords.ItemWordsSound` | crates/forge-kernel/src/supply_budget.rs:18-30 | whatever the search budget, the words bound what any run from any authored start shows of the items |
| `SupplyWords.TighterPotentialItemWords` | crates/forge-kernel/src/supply_budget.rs:18-30 | the smaller of the two answers is always the refined one |
| `SupplyWords.RefinedAtMostFallback` | crates/forge-kernel/src/supply_budget.rs:15-30 | the refined bound never exceeds the fallback |
| `SupplyWords.ComponentSound` | crates/forge-kernel/src/supply_budget.rs:118-132 | the words of any recipe component, refined or not, bound every run |
| `SupplyReadout.CarriedAreListed` | crates/forge-kernel/src/content.rs:2902-2942 | no reachable character carries an item outside the collected ids |
| `SupplyReadout.StepKeepsResources` | crates/forge-kernel/src/content.rs:2902-2942 | no step gives the character a resource outside the collected ids |
| `SupplyTight.ItemsListedExactly` | crates/forge-kernel/src/content.rs:2902-2942 | an item is listed if and only if a preset, a creation patch, an NPC or a storage starts with it, a recipe names it, or an effect some program can perform moves it |
| `SupplyTight.ResourcesListedExactly` | crates/forge-kernel/src/content.rs:2902-2942 | a resource is listed if and only if a preset or a creation patch gives it or an effect some program can perform adjusts it |
| `SupplyReadout.PotentialSupplySummaryWords` | crates/forge-kernel/src/content.rs:2944-2968 | the bound of the readout is its headings, every listed resource line, and the tighter item words |
| `SupplyReadout.ReadoutWords` | crates/forge-kernel/src/content.rs:208-227 | a readout has one heading word per nonempty group and the words of its lines |
| `SupplyReadout.ReadoutBound` | crates/forge-kernel/src/content.rs:2944-2968 | every state a run reaches has a readout within the bound |
| `BudgetTight.ReadoutIsTight` | crates/forge-kernel/src/content.rs:2944-2968 | the readout of a character with every listed resource and some listed items is below the bound by exactly what the item words exceed the lines shown |
| `BudgetTight.EmptyReadoutIsTight` | crates/forge-kernel/src/content.rs:2944-2968 | without listed items the bound is exactly the readout of a character with every listed resource |
| `Text.WordCountGlue` | crates/forge-kernel/src/content.rs:4701-4703 | text glued to a word without a space makes it longer, not two words |
| `Text.JoinSpaceWords` | crates/forge-kernel/src/content.rs:1507-1509 | texts joined by single spaces have the sum of their words |
| `Text.DecimalReads` | crates/forge-kernel/src/content.rs:208-227 | the printed form of an amount reads back as the amount, with a sign exactly for negative ones and no leading zero |
| `Schedule.ValidateEventSchedule` | crates/forge-kernel/src/content.rs:1894-2018 | reports no issue if and only if the ledger's scheduler records are a run of the one-shot (due, id) queue from the authored absolute events, the stored queue is what that run leaves, and nothing is overdue; `ScheduleLaws.AdmittedExactly` says which states these are without the machine |
| `Schedule.FirstPending` | crates/forge-kernel/src/content.rs:1983-1987 | the scan returns the least pending entry by due time, then id |
| `Schedule.AdmitScheduled` | crates/forge-kernel/src/content.rs:1934-1967 | a schedule record is admitted exactly when the queue machine can place that template at that time, which is exactly its delay after the record (`ScheduleLaws.ScheduledRecordsAreTemplates`) |
| `Schedule.AdmitResolved` | crates/forge-kernel/src/content.rs:1968-1994 | a resolution record is admitted exactly when it names the head of the queue and its due time has come |
| `Schedule.RebuildPending` | crates/forge-kernel/src/content.rs:1897-1997 | the rebuilt table represents the queue of the machine's run, and the replay fails exactly when the machine does |
| `Schedule.NothingOverdue` | crates/forge-kernel/src/content.rs:1998-2006 | the pass over the rebuilt table finds an overdue entry exactly when there is one |
| `Schedule.QueueInvariant` | crates/forge-kernel/src/content.rs:1894-2018 | every admitted ledger leaves the queue sorted, with distinct entries whose ids are all used |
| `Schedule.OneShotConservation` | crates/forge-kernel/src/content.rs:1894-2018 | over every admitted ledger an id is placed as often as it is resolved or pending, and at most once ever |
| `Schedule.AdmittedResolvesOnce` | crates/forge-kernel/src/content.rs:1894-2018 | in an admitted state an event was resolved exactly when it was placed and is no longer pending, and then once |
| `ScheduleLaws.AdmittedExactly` | crates/forge-kernel/src/content.rs:1894-2018 | a state is admitted if and only if, read off its ledger alone: every schedule record names a template not scheduled before, with its kind and at exactly its delay after the record; every resolution record names the earliest entry placed and not yet resolved, which has come due; and the stored queue is what is still open, in order, all in the future |
| `ScheduleLaws.ScheduledRecordsAreTemplates` | crates/forge-kernel/src/content.rs:1934-1967 | every schedule record of an admitted ledger names a deferred template with its kind, due exactly its delay after the turn of the record |
| `ScheduleLaws.ResolvedRecordsAreDue` | crates/forge-kernel/src/content.rs:1968-1994 | every resolution record of an admitted ledger comes at or after the due time its id was placed at |
| `Timeline.ReachableAdmitted` | crates/forge-kernel/src/reducer.rs:965-1061 | every state a canonical run reaches passes the scheduler validator |
| `Timeline.ResolveAllKeepsStep` | crates/forge-kernel/src/reducer.rs:1017-1061 | due entries are resolved in queue order, once each, and the ledger stays a run of the queue machine |
| `Timeline.QuietEffect` | crates/forge-kernel/src/reducer.rs:1096-1116 | an effect that may not advance time, schedule or transfer leaves clock and queue alone and writes no scheduler record, on every branch |
| `Validation.CheckedIsQuiet` | crates/forge-kernel/src/content.rs:3677-3778 | although the separate walkers stop at the depth limit, an accepted event program can neither advance time, schedule nor transfer stock on any branch |
| `Validation.EventProgramExactly` | crates/forge-kernel/src/content.rs:3677-4163 | the walkers together accept an event program exactly when no tree is deeper than the limit, no chance exceeds a hundred percent, and every effect some draw can reach is one an event may hold, with known references |
| `Validation.ActionProgramExactly` | crates/forge-kernel/src/content.rs:3857-4163 | the same for the program of an action, in which every kind of effect may stand |
| `Ownership.ApplyConserves` | crates/forge-kernel/src/content.rs:2020-2240 | a transfer conserves every item over all owners, a recipe changes totals by exactly its outputs less its inputs |
| `Lineage.ValidateProductionInventory` | crates/forge-kernel/src/content.rs:2020-2240 | reports no issue if and only if the ledger is a run of the ownership machine from the authored genesis and the final maps equal its balances |
| `Lineage.ConsumeInputs` | crates/forge-kernel/src/content.rs:2182-2196 | the loop takes every input or fails exactly when some input is short |
| `Lineage.ProduceOutputs` | crates/forge-kernel/src/content.rs:2200-2210 | the loop adds every output or fails exactly when one leaves u32 |
| `Lineage.BookNpcTransfer` | crates/forge-kernel/src/content.rs:2085-2118 | a transfer record from an NPC is booked exactly when the ownership machine can make that move |
| `Lineage.BookStorageTransfer` | crates/forge-kernel/src/content.rs:2119-2164 | a storage record is booked in its direction exactly when the machine can make that move |
| `Lineage.BookRecipe` | crates/forge-kernel/src/content.rs:2165-2213 | a recipe record is booked exactly when its maps are the compiled recipe and the machine can fire it |
| `Lineage.BookRecord` | crates/forge-kernel/src/content.rs:2084-2216 | one record updates the rebuilt balances exactly as the ownership machine moves stock |
| `Lineage.RebuildBooks` | crates/forge-kernel/src/content.rs:2047-2218 | the rebuilt balances are those of the machine after the whole ledger |
| `Lineage.LedgerConserves` | crates/forge-kernel/src/content.rs:2020-2240 | per item the total over all owners equals genesis plus recipe outputs minus recipe inputs |
| `Lineage.LedgerPrefixes` | crates/forge-kernel/src/content.rs:2020-2240 | every prefix of an admitted ledger keeps all balances in u32, with the same owners and no zero entries |
| `LineageLaws.LineageExactly` | crates/forge-kernel/src/content.rs:2020-2240 | a state is admitted if and only if every record is lawful by balances read off the ledger, namely genesis plus all that earlier records bring an owner minus all they take, and the final inventories are those balances |
| `LineageRuns.ReachableLineage` | crates/forge-kernel/src/reducer.rs:1096-1638 | every state a canonical run reaches passes the inventory validator, from an authored starting inventory |
| `LineageRuns.StockRecord` | crates/forge-kernel/src/reducer.rs:1096-1638 | an inventory effect writes exactly one record, of the move it makes |
| `Guards.StockGuaranteed` | crates/forge-kernel/src/content.rs:4165-4208 | a condition that holds in a state implies the stock it is said to guarantee, which is the strongest such stock (`GuardsTight.StockIsStrongest`) |
| `GuardsTight.StockIsStrongest` | crates/forge-kernel/src/content.rs:4165-4208 | the guarantee is the strongest one: it promises at least n of an item if and only if every inventory the condition allows, as far as the depth limit lets it be read, holds at least n |
| `GuardsTight.HoldsAllows` | crates/forge-kernel/src/content.rs:4165-4208 | what a state that satisfies the condition carries is allowed by it |
| `GuardsTight.AllowsHolds` | crates/forge-kernel/src/content.rs:4165-4208 | for conditions built of items, all and any within the limit, the condition allows exactly the inventories that satisfy it |
| `Guards.EffectHasStock` | crates/forge-kernel/src/content.rs:4219-4300 | on every outcome a guarded effect has the stock its recipes need and keeps what remains guaranteed |
| `Guards.DueEventsHaveStock` | crates/forge-kernel/src/content.rs:4210-4217 | in guarded content no due event, from any state and with any draws, fails for want of stock |
| `Guards.CertainIssueIsReal` | crates/forge-kernel/src/content.rs:4219-4300 | conversely, a program without draws for which the analysis reports an issue does fail from any state holding just the guarantee |
| `GuardsTight.StockIssueIsReal` | crates/forge-kernel/src/content.rs:4219-4300 | with draws too: when a deferred program is reported, there is a stream of draws on which it fails from a state carrying just the guarantee |
| `Guards.DeferredInventoryAfter` | crates/forge-kernel/src/content.rs:4219-4300 | the in-place walk ends with the guarantee of the recursive analysis, and reports exactly its issues |
| `Guards.ValidateDeferredRecipeGuards` | crates/forge-kernel/src/content.rs:4210-4217 | reports no issue exactly when the program's stock is guarded by what its condition guarantees; what it reports does fail on some stream of draws (`GuardsTight.StockIssueIsReal`) |
| `Guards.KnowledgeGuaranteed` | crates/forge-kernel/src/content.rs:4349-4401 | a condition that holds in a state implies the facts it is said to guarantee |
| `GuardsTight.KnowledgeIsStrongest` | crates/forge-kernel/src/content.rs:4349-4401 | the guaranteed facts are the strongest: a fact is guaranteed if and only if it is among the facts of every collection the condition allows |
| `GuardsTight.HoldsAllowsFacts` | crates/forge-kernel/src/content.rs:4349-4401 | what everybody knows in a state that satisfies the condition is allowed by it |
| `Guards.EffectIsInformed` | crates/forge-kernel/src/content.rs:4414-4512 | on every outcome a guarded effect finds each named source already knowing the fact it teaches, and the guaranteed facts are known afterwards |
| `Guards.StepIsInformed` | crates/forge-kernel/src/content.rs:4403-4412 | in guarded content no transition, from any state and with any draws, fails for want of an informed source |
| `Guards.KnowledgeAfterEffects` | crates/forge-kernel/src/content.rs:4414-4512 | the in-place walk ends with the facts of the recursive analysis, and reports exactly its issues |
| `GuardsTight.KnowledgeIssueIsReal` | crates/forge-kernel/src/content.rs:4414-4512 | when a program is reported, there is a stream of draws on which it fails from a state that knows no more than the guaranteed facts |
| `Guards.ValidateKnowledgeTransfers` | crates/forge-kernel/src/content.rs:4403-4412 | reports no issue exactly when the program's sources are guarded |
| `StockBounds.EffectForetold` | crates/forge-kernel/src/reducer.rs:624-720 | if the interval analysis admits an effect, then on every branch a draw can take it does not fail for stock, room or a used identity, and every holding stays in its range |
| `StockBounds.MergeBrackets` | crates/forge-kernel/src/reducer.rs:551-575 | merging the ranges of two branches loses no outcome of either, including an owner only one branch touched |
| `StockBounds.IntervalsSound` | crates/forge-kernel/src/reducer.rs:577-588 | a whole program the analysis admits runs without a shortage from the state it was admitted in |
| `StockBounds.DueAreCraftless` | crates/forge-kernel/src/reducer.rs:592-615 | when the screen finds no pending or new program that touches stock, no event due after the action crafts on a branch a draw can take |
| `StockBounds.OfferedNeverShort` | crates/forge-kernel/src/reducer.rs:577-622 | an action offered in the legal set, with every event it makes due, never fails for want of stock, room or a fresh event identity, whatever is drawn |
| `StockBounds.StepNeverShort` | crates/forge-kernel/src/reducer.rs:965-1015 | in validated content no transition, from any state of the supported entropy algorithm, fails that way |
| `OfferedExactly.EffectTight` | crates/forge-kernel/src/reducer.rs:624-720 | conversely, an effect that fails on no explored path is admitted, and every end of every range is a count some path really has, even after branches rejoin |
| `OfferedExactly.PreflightIsAvailable` | crates/forge-kernel/src/reducer.rs:577-622 | the interval analysis and its screens refuse nothing the path preflight admits |
| `OfferedExactly.OfferedExactly` | crates/forge-kernel/src/reducer.rs:178-270 | in every admitted state of validated content, a legal candidate that no draws can make fail is offered, and an offered one never fails for want of stock, room or a fresh event identity |
| `PreflightPaths.PreflightSound` | crates/forge-kernel/src/reducer.rs:776-817 | a program the path preflight admits, with its due events, succeeds for every stream of draws |
| `PreflightPaths.PreflightComplete` | crates/forge-kernel/src/reducer.rs:776-894 | for a program it refuses there are draws for which the program or a due event fails |
| `PreflightPaths.PreflightIsExact` | crates/forge-kernel/src/reducer.rs:773-894 | the preflight admits a program if and only if every stream of draws lets it and its due events succeed |
| `DeferredOracle.ValidateDeferredExpectations` | crates/forge-verify/src/deferred_evidence.rs:35-110 | accepts exactly what the specified oracle accepts: named, chronological, once-only schedules, resolutions of the earliest entry when due, and the remaining queue as the pending one |
| `DeferredOracle.ValidateDeferredHistory` | crates/forge-verify/src/deferred_evidence.rs:112-189 | accepted exactly when the log without the surge is the expected history and the queue without the surge is the expected one, entry by entry |
| `DeferredOracle.OracleAgrees` | crates/forge-verify/src/deferred_evidence.rs:35-110 | when the surge is the only absolute event, projecting it out of any ledger the scheduler validator admits gives a history and queue the oracle accepts |
| `OracleLaws.AcceptsExactly` | crates/forge-verify/src/deferred_evidence.rs:35-110 | a history is accepted with its pending records if and only if, read off the history alone: turns never fall, every schedule names an id for the first time and a later due time, every resolution names the earliest outstanding entry once due, and the pending records are what is outstanding |
| `OracleLaws.PlacedOnce` | crates/forge-verify/src/deferred_evidence.rs:44-56 | an accepted history schedules no id twice |
| `OracleLaws.HistoryIsTheLedger` | crates/forge-verify/src/deferred_evidence.rs:112-170 | the history taken from a ledger is all its scheduler records but the resolutions of the surge, in their order, word for word |
| `Replay.Session.constructor` | crates/forge-replay/src/lib.rs:278-290 | a session holds the state and trace it was begun with |
| `Replay.Session.Record` | crates/forge-replay/src/lib.rs:363-402 | a successful record takes the kernel's step and appends its claims to the trace; a failed one changes nothing |
| `Replay.CheckStep` | crates/forge-replay/src/lib.rs:470-560 | one claimed step passes exactly when it equals the step recorded from the reconstructed state and receipt |
| `Replay.Verify` | crates/forge-replay/src/lib.rs:425-570 | accepts exactly the traces that re-execution of their own genesis and actions reproduces, and returns the state reached |
| `Replay.VerifyIsExact` | crates/forge-replay/src/lib.rs:425-570 | for production content a trace is accepted if and only if it is field for field what a session records from that start with those actions; no injectivity of hashes is used |
| `ReplayLaws.AcceptsExactly` | crates/forge-replay/src/lib.rs:425-570 | a trace of any content is accepted if and only if its genesis claims what content says of its state and there are states through which its steps lead one by one: each step legal where it was taken, with the digest of that legal set, the events, draws, identities and observation of its transition, its place in the order, and a receipt over exactly these claims chained to the one before |
| `ReplayLaws.AcceptedStep` | crates/forge-replay/src/lib.rs:470-560 | every step of an accepted trace is such a link, from the genesis state to the state the trace claims to end in |
| `Replay.AcceptedUnrecorded` | crates/forge-replay/src/lib.rs:648-707 | for any content the only accepted traces no session records are those that label a state with an authored origin as a fixture |
| `Replay.FixtureLabelIsAccepted` | crates/forge-replay/src/lib.rs:681-707 | such a trace exists: in any kernel a fixture label on the state of a preset is accepted and no session records it |
| `Replay.RecordedAccepted` | crates/forge-replay/src/lib.rs:425-570 | whatever a session records is accepted |
| `Replay.Resume` | crates/forge-replay/src/lib.rs:578-592 | resuming succeeds exactly for accepted traces and restores the session that recorded them |
| `Replay.PrefixParity` | crates/forge-replay/src/lib.rs:578-592 | stopping, resuming the recorded prefix and recording the remaining actions gives the same state and trace as never stopping |
| `Replay.ResumePlayerTrace` | crates/forge-replay/src/lib.rs:594-646 | the loop rebuilds the session by looking every saved identity up in the legal set of the reconstructed state, and fails exactly where the specification does |
| `Replay.SaveRoundTrip` | crates/forge-replay/src/lib.rs:594-646 | with distinct identities in each legal set, resuming the save of a session that has an authored origin rebuilds the identical session |
| `Replay.SavedAgain` | crates/forge-replay/src/lib.rs:594-646 | saving a resumed session gives back the very save it was resumed from |
| `Service.SessionService.constructor` | crates/forge-server/src/service.rs:243-271 | a service serves the record it is given |
| `Service.SessionService.Act` | crates/forge-server/src/service.rs:138-226 | the answer and the record afterwards are those of the specified request handling: ledger first, then closure, then revision, and nothing stored unless every check passed; whenever the record changes, the answer shows what content observes of the transition the requested action takes from the state the old save resumes to, and the first page of the state reached |
| `Service.SessionService.Close` | crates/forge-server/src/service.rs:237-241 | closing keeps the ledger, the save and the view |
| `Service.SessionService.Observe` | crates/forge-server/src/service.rs:95-102 | the view shown is the one answered to the latest accepted action, at the revision of the save, and shows the last action of the save, or the first state when there is none; refused once closed |
| `Service.SessionService.Save` | crates/forge-server/src/service.rs:230-233 | the text of a save that resumes to the session last shown, even after close |
| `Service.SessionService.Catalog` | crates/forge-server/src/service.rs:104-136 | a page is served if and only if the session is open, the state is the current one, the bounds are within limits and the page of the session rebuilt from the save fits |
| `Service.OpenedIsValid` | crates/forge-server/src/service.rs:243-271 | a session starts with an empty ledger that accounts for its revision and view |
| `Service.CommitAdvances` | crates/forge-server/src/service.rs:168-225 | an accepted request adds exactly one action to the save and one entry to the ledger, and its answer is the new view |
| `Service.AnswerShowsAction` | crates/forge-server/src/service.rs:168-187 | the view of an accepted request carries what content observes of the transition that the requested action takes from the state the old save resumes to, and the first catalog page of the state it reaches |
| `Service.KeptShowsLatest` | crates/forge-server/src/service.rs:319-342 | the stored view shows the observation of the last action of the save, or the first state when there is none |
| `ServiceLaws.OpenedShows` | crates/forge-server/src/service.rs:243-271 | a game just started shows the observation of its first state at revision zero, and the first catalog page of that state |
| `ServiceLaws.TakesEffectExactly` | crates/forge-server/src/service.rs:138-226 | a request takes effect if and only if it is well shaped, its command is new, the session is open at exactly the revision and state it names, the action can be recorded in the session the save resumes to, and the resulting save, view and ledger entry fit their limits |
| `Service.SaveStaysKept` | crates/forge-server/src/service.rs:168-225 | whatever is asked of a session, its stored text encodes its save and its save resumes to a session with the stored view |
| `Service.AtMostOnce` | crates/forge-server/src/service.rs:138-226 | over every run of requests the save's actions and the ledger grow together and no command id is entered twice |
| `Service.AcceptedIsFinal` | crates/forge-server/src/service.rs:143-154 | an accepted command is answered with its original view after any further operations, even close, and changes nothing |
| `Service.RefusedIsFinal` | crates/forge-server/src/service.rs:156-166 | a refused request whose expected revision had been reached is never accepted later, whatever other requests arrive, unless one of them has its command id and fingerprint |
| `Service.ConfusedIsAnswered` | crates/forge-server/src/service.rs:143-154 | that exception is real: once such a request is accepted, its answer is given to the refused one too |
| `Service.EarlyRequestIsRefused` | crates/forge-server/src/service.rs:159-166 | right after an accepted request another one takes effect if and only if it names exactly the new revision and state and commits; it was then refused as stale before |
| `Service.RefusedThenAccepted` | crates/forge-server/src/service.rs:159-166 | in any kernel with a state and an action there is a session, faithful and valid, that refuses a request one revision early and then accepts it |
| `Registry.SessionRegistry.constructor` | crates/forge-server/src/registry.rs:142-149 | a registry starts empty |
| `Registry.SessionRegistry.Open` | crates/forge-server/src/registry.rs:130-150 | a registry is made, empty, exactly when its limits leave room for an active session within the total |
| `Registry.SessionRegistry.Create` | crates/forge-server/src/registry.rs:155-220 | start and resume: a known creation id is answered from its record or as a conflict; otherwise limits are checked before a record with an unused session id is published |
| `Registry.SessionRegistry.Act` | crates/forge-server/src/registry.rs:263-272 | an action reaches only the session it names |
| `Registry.SessionRegistry.Close` | crates/forge-server/src/registry.rs:281-292 | closing marks the named session closed and leaves the others alone |
| `Registry.SessionRegistry.Current` | crates/forge-server/src/registry.rs:234-248 | with one active session allowed, the answer is that session with its current view, or none when all are closed |
| `Registry.SessionsAreIndependent` | crates/forge-server/src/registry.rs:338-348 | over every run a session evolves by exactly the operations that name it, and keeps its identities and creation response |
| `Registry.CreationIsFinal` | crates/forge-server/src/registry.rs:155-186 | an accepted creation is answered with its original response for ever and makes no second session |
| `Registry.RefusedCreationRecovers` | crates/forge-server/src/registry.rs:155-219 | exactly which refusals are final: a refused creation is accepted after some further operations if and only if its id and request are well formed, nobody holds the id, the registry has room for another record and any active capacity at all, and the request, or one with its fingerprint, opens a session with a fitting answer under some unused session id |
| `Registry.RefusedCreationIsFinal` | crates/forge-server/src/registry.rs:155-219 | where no other request shares the fingerprint, the request itself must be able to open: bad input, a taken id, a full registry and a failing start are final, lack of active capacity or of an unused session id is not |
| `Registry.ClosingRecovers` | crates/forge-server/src/registry.rs:298-309 | a creation refused at full active capacity succeeds once one session is closed |
| `Registry.AnySaveReopens` | crates/forge-server/src/registry.rs:186-219 | whatever a registry has been through, the save text of any session, open or closed, resumes to a session with the same save and view |
| `Client.GameClient.constructor` | browser/src/controller.ts:161-168 | a client boots from the stored journal |
| `Client.GameClient.PersistPending` | browser/src/controller.ts:970-982 | a request becomes pending only when the journal could be stored |
| `Client.GameClient.Act` | browser/src/controller.ts:267-305 | the request carries the shown revision and state and the command id drawn for it, and is sent only after it was journaled |
| `Client.GameClient.Create` | browser/src/controller.ts:195-265 | a creation is sent only after it was journaled |
| `Client.GameClient.Close` | browser/src/controller.ts:382-419 | a close is sent only after it was journaled |
| `Client.GameClient.Retry` | browser/src/controller.ts:307-328 | a retry sends the journaled request unchanged |
| `Client.GameClient.Boot` | browser/src/controller.ts:511-566 | a boot replays the journaled request of the same server instance, and none of another |
| `Client.GameClient.HandlePendingFailure` | browser/src/controller.ts:830-906 | only a closed session or a definitive failure clears the pending request; an unknown session leads to a restart; anything else keeps it |
| `Client.GameClient.FinishWithView` | browser/src/controller.ts:588-695 | an acknowledged request stays pending until the state behind it was read back |
| `Client.GameClient.Hear` | browser/src/controller.ts:568-586 | an answer is used only for the request that is still pending |
| `Client.SentIsJournaled` | browser/src/controller.ts:970-982 | whatever is sent is in the journal, and sending never displaces a pending request |
| `Client.HearingKeepsOrSettles` | browser/src/controller.ts:568-586 | a pending request leaves the journal only with an outcome drawn from an answer to it |
| `Client.RefusedActionSettles` | browser/src/controller.ts:104-113 | hearing how its session refused an action, a stale one included, clears the pending request if and only if the journal could be written and the refusal was not a failure of the server itself |
| `Client.RefusedCreationSettles` | browser/src/controller.ts:104-113 | the same for a refused creation, which stays pending also when no session identity could be found |
| `ServiceLaws.ShownActionIsNotStale` | browser/src/controller.ts:267-305 | what a ready client sends for the view it shows is never refused as stale by a session that is at that view |
| `ServiceLaws.PendingIsResent` | browser/src/controller.ts:307-328 | a request left pending is sent again unchanged by a retry and by a page load against the same server instance, and by none against another |
| `ServiceLaws.ReadBackIsShown` | browser/src/controller.ts:588-695 | once the state behind an acknowledgement is read back it is shown, and the client is ready with nothing pending and the session noted as open |
| `Protocol.ExactlyOnce` | browser/src/controller.ts:267-301 | under loss, duplication, delay, reload, retry, close and restart, for every fingerprint function: a command is applied at most once; one filed as acknowledged is applied exactly once and still answered with its view; one filed as rejected is refused for good unless the client sent another request with its command id and fingerprint |
| `Protocol.RejectedNeverApplied` | browser/src/controller.ts:830-906 | when no command id is drawn twice, a command filed as rejected was never applied and never will be, for every fingerprint function |
| `Protocol.NothingForgotten` | browser/src/controller.ts:568-586 | every request ever sent is pending in the journal, filed with an outcome, or given up at a restart |
| `Protocol.OneSessionPerCreation` | crates/forge-server/src/registry.rs:155-219 | in every run of the world no two sessions share a creation id or a session id, and both limits hold |
| `Catalog.CollectActions` | browser/src/controller.ts:802-814 | a page's actions are added in order, or the assembly fails at an unnamed or repeated one |
| `Catalog.CompleteCatalog` | browser/src/controller.ts:759-828 | against any server at most total + 1 requests are made; success gives exactly the announced number of distinct actions beginning with the first page; if the opening page is a slice of one legal sequence, of any size, and every later page a slice of the requested size, it returns that sequence |
| `Catalog.SliceDistinct` | crates/forge-kernel/src/content.rs:1546-1626 | a served slice continues the slices before it without repeating an action |
| `Entropy.SplitMixBijective` | crates/forge-kernel/src/entropy.rs:100-105 | the mixer is a bijection of the 64-bit words |
| `Entropy.DistinctDraws` | crates/forge-kernel/src/entropy.rs:68-80 | for one seed, draws at different cursors are different words |
| `Entropy.ChainAdvances` | crates/forge-kernel/src/entropy.rs:54-80 | a chain of draws succeeds exactly while the cursor has room, advances it by one each time and never wraps |
| `Entropy.DistinctSeeds` | crates/forge-kernel/src/entropy.rs:68-80 | at one cursor different seeds draw different words |
| `Entropy.StreamStepsByGamma` | crates/forge-kernel/src/entropy.rs:70-80 | the preimages of consecutive words differ by the golden gamma, and the first one is the seed |
| `Entropy.ReferenceWords` | crates/forge-kernel/src/entropy.rs:111-123 | the first four words of seed 42 are those of the reference vectors |
| `Entropy.ChainDistinct` | crates/forge-kernel/src/entropy.rs:68-80 | no word repeats within a chain |
| `Entropy.ChainResumes` | crates/forge-kernel/src/entropy.rs:82-98 | continuing from a stored state draws what an uninterrupted chain would have drawn |
| `EntropyRuns.ReachableDraws` | crates/forge-kernel/src/reducer.rs:1604-1635 | every run records exactly one draw per cursor value, from zero up to its cursor |
| `EntropyRuns.NoDrawRepeats` | crates/forge-kernel/src/entropy.rs:68-105 | in no run does the ledger record the same random word twice |
| `JsonScanner.ScanJsonForDuplicateKeys` | browser/src/journal.ts:117-240 | the scan of the whole text terminates and accepts exactly what the specification accepts |
| `JsonScanner.Scanner.SkipWhitespace` | browser/src/journal.ts:120-122 | the index moves past all white space and no further |
| `JsonScanner.Scanner.ReadString` | browser/src/journal.ts:124-151 | a string is read just behind its closing quote, or refused |
| `JsonScanner.Scanner.ReadValue` | browser/src/journal.ts:153-182 | one value of any kind is read, or the text refused |
| `JsonScanner.Scanner.ReadObject` | browser/src/journal.ts:184-216 | an object is read if its members are separated by commas and no decoded name repeats |
| `JsonScanner.Scanner.ReadMember` | browser/src/journal.ts:193-208 | one member is read up to its separator, with its decoded name not among the names so far |
| `JsonScanner.Scanner.ReadArray` | browser/src/journal.ts:218-235 | an array is read if its elements are separated by commas |
| `JsonGrammar.ScannerIsExact` | browser/src/journal.ts:117-240 | the scanner accepts exactly the texts of the grammar of sections 2 to 7 of RFC 8259, with the wider white space of the language, whose objects all have distinct decoded names |
| `JsonGrammar.PrintedIsAccepted` | browser/src/journal.ts:106-115 | a value without duplicate names printed as JSON, with any white space, is accepted |
| `JsonNames.PrintedExactly` | browser/src/journal.ts:117-240 | a value printed as JSON with any white space is accepted if and only if no object in it, however deep, repeats a decoded name |
| `JsonNames.RespelledIsRefused` | browser/src/journal.ts:193-208 | two names of one object that decode alike refuse it, however differently they are spelled |
| `JsonNames.UnicodeReads` | browser/src/journal.ts:134-141 | every code unit is what its four hexadecimal digits stand for, in small or capital letters |
| `JsonNames.NamedEscapes` | browser/src/journal.ts:136-147 | a backslash may be followed by exactly the eight named characters, which stand for themselves or for their control characters |
| `JsonNames.SpelledReads` | browser/src/journal.ts:117-151 | every name has a spelling in escapes alone that decodes to it |
| `Creation.CanonicalSelection` | crates/forge-kernel/src/content.rs:1230-1284 | the three loops accept and order exactly the selections the specification does |
| `Creation.CanonicalizeExact` | crates/forge-kernel/src/content.rs:1230-1284 | a selection is accepted if and only if it lists, in some order, exactly one known choice per slot, and the result is that list in slot order |
| `Creation.MergeCharacterMap` | crates/forge-kernel/src/content.rs:4838-4852 | the values are added key by key unless one of the keys is already there |
| `Creation.ApplyCharacterPatch` | crates/forge-kernel/src/content.rs:4756-4852 | a patch merges every field or reports a conflict |
| `Creation.CustomFromCanonical` | crates/forge-kernel/src/content.rs:1312-1360 | the base and the chosen patches are merged in order; the character must end with lineage, origin and background |
| `Creation.CanonicalizeFixpoint` | crates/forge-kernel/src/content.rs:1230-1284 | canonicalisation is idempotent |
| `Creation.CanonicalizeIgnoresOrder` | crates/forge-kernel/src/content.rs:1230-1284 | the order in which choices are listed does not matter |
| `CreationRules.CheckWrites` | crates/forge-kernel/src/content.rs:3049-3192 | the owner table filled writer by writer reports no conflict exactly when no two differently named writers share a target |
| `CreationRules.PatchMerges` | crates/forge-kernel/src/content.rs:4756-4852 | a patch merges into a character exactly when it writes no target the character already holds |
| `CreationRules.PatchesMerge` | crates/forge-kernel/src/content.rs:4756-4852 | a sequence of patches merges exactly when no two of them share a target |
| `CreationRules.CustomIsMerge` | crates/forge-kernel/src/content.rs:1312-1360 | a canonical selection materializes exactly when the base and the chosen patches share no target |
| `CreationLaws.CustomIsUnion` | crates/forge-kernel/src/content.rs:4756-4852 | the character a canonical selection materializes is the union of the base and the chosen patches, field by field: every set holds what some patch puts into it, every map entry is that of a patch, every single value is that of the patch giving it, and nothing else is there |
| `CreationLaws.SlotsAreOrdered` | crates/forge-kernel/src/content.rs:893-905 | compiled slots are the authored ones ordered by number, then by id |
| `CreationRules.CreationTotal` | crates/forge-kernel/src/content.rs:3049-3192 | validated creation materializes every canonical selection if and only if no slot named "base" rewrites what the base patch writes |
| `CreationRules.CollidingSelection` | crates/forge-kernel/src/content.rs:3049-3192 | when such a slot does, some canonical selection collides with the base although validation passed |
| `CreationRules.SelkieFails` | crates/forge-kernel/src/content.rs:3049-3192 | a concrete definition with a slot named "base" passes every check, and one of its canonical selections fails with a conflict |
| `Chronicle.ReachableTold` | crates/forge-kernel/src/reducer.rs:1096-1640 | in every state of every run the ledger accounts for the state: time is the sum of the recorded advances, resources and relationships are the start plus the recorded amounts, every flag is what its last record says, everybody is where the last move took them, knowledge, memories and deeds are those recorded, moves start where the last one ended, records are ordered by turn, and no other field of the character ever differs from the start |
| `Chronicle.StepTells` | crates/forge-kernel/src/reducer.rs:952-1061 | one transition, with all due events and any draws, keeps the ledger accounting for the state |
| `EffectLaws.EffectEstablishes` | crates/forge-kernel/src/reducer.rs:1096-1640 | an effect that succeeds makes the condition about its subject hold: a flag is on after the effect that sets it and off after the one that clears it, a mover is there, a taught fact is known with its provenance, a remembered memory is remembered, transferred items are held |
| `EffectLaws.AdjustmentShifts` | crates/forge-kernel/src/reducer.rs:1152-1171 | a threshold on a resource moves by exactly the amount of its adjustment |
| `EffectLaws.DepositShifts` | crates/forge-kernel/src/reducer.rs:1408-1497 | after a deposit the character holds n of the item exactly when it held n plus the deposit before |
| `EffectLaws.ChanceShare` | crates/forge-kernel/src/reducer.rs:1604-1635 | a chance of p percent succeeds for exactly p of every full hundred of drawn values |
| `NpcPositions.ValidateNpcPositions` | crates/forge-kernel/src/content.rs:2242-2312 | reports no issue if and only if every recorded move takes a known NPC from where it was to another known place, in order and not in the future, and everybody is where the last move took them |
| `NpcPositions.FollowMoves` | crates/forge-kernel/src/content.rs:2247-2301 | the loop accepts exactly the lawful moves and ends with the place each NPC was last moved to |
| `NpcPositions.ReachablePositions` | crates/forge-kernel/src/content.rs:1776-1866 | in every state of every run of validated content the move history is lawful and the entity index of every place lists exactly the NPCs that are there |
| `NpcPositions.StepUnbroken` | crates/forge-kernel/src/reducer.rs:1185-1258 | so no transition of a run ever fails on a broken entity index, whatever is drawn |

## Left out

- Saturating arithmetic on `usize` word counts is modelled on unbounded naturals: a saturated sum is far above every limit it is compared with.
- `known_inventory_operations` answers true for every effect that exists, so its fallback branch in `item_words_with_closure` has no input to model.
- `validate_state` re-runs after each transition; the model proves its scheduler, inventory and NPC position parts hold in every reachable state instead of calling them.
- Effects emit the list of entropy draws beside the events; the model keeps the recorded draw events only, which carry the same values.
- Text lint rules (sentence splitting, label lengths, titles, id syntax beyond namespaced ids) and the wording and number of reported issues: acceptance is "no issue reported".
- Graph connectivity and per-location choice counts would only add members of the same kind as the modelled checks.
- The subjects and known sources of memories and knowledge (`validate_npc_record`): `Chronicle` proves when each entry was recorded, not who is named in it.
- Compilation also sorts the choices of a slot by id; the model keeps the authored order, which no lookup by id can tell apart.
- Enumeration order and the action set digest: a candidate is modelled by its parameters, and the catalog by its pages.
- Patch write targets are pairs of a field and a key instead of formatted strings; character names and provenance fields outside patches are fixed data.
- Hashes, receipts, state identities, JSON sizes and the save encoding are uninterpreted functions, and no member assumes a hash without collisions. `Registry.RefusedCreationIsFinal` asks it of the one request it is about, `Replay.SaveRoundTrip` of the action identities within one legal set, `Registry.AnySaveReopens` that a save text decodes to what was encoded, and `EntropyRuns.NoDrawRepeats` that reading a word as a number is injective.
- The build, action, post-state and entropy identities that `observe_after_transition` compares before the ledger suffix: a transition of the model carries none of them twice.
- The steps of the replay kernel are abstract deterministic functions whose reports are faithful to their inputs (`FaithfulSteps`, `FaithfulStarts`); `Kernel` is the concrete reducer.
- Fixture content outside `Replay`: hand-made fixture states obey none of the run invariants.
- Allocation failures (`try_reserve`), poisoned locks, and lock interleavings inside one request: every critical section is one atomic step.
- Malformed session ids: the registry answers them as bad input, the model as unknown sessions.
- Random session identities are a list of candidates the host offers, of which an unused one is taken.
- The two journal writes of one completed request share one `stored` flag; labels, messages, generations of superseded reads, and the save download are not modelled.
- Decimal strings in catalog pages are numbers; a page refused as malformed text is a page whose fields do not match.
- A journal's instance comes from the health endpoint; HTTP, sockets, React rendering, the crawler, the sandbox probe, the agent tools, build manifests and the Split Tide content are not part of this model.
- Library sorts and map clones are functions with the sorted or copied result.
- Validation.StructureValid: the checks of `validate_draft` that no modelled property needs (labels, categories, parameters of actions, provenance text) are not in it, so the theorems hold for more content than the compiler accepts.
- Windows.MaximumEventWords: start times range over all integers, which includes every u64 start.
- Cohorts.MaximumResultWords: offsets are naturals; the source drops a template whose offset leaves u64 to the independent sum, and so does the model.
- PreflightPaths.PreflightIsExact: the set of explored states stands for the source's vector without duplicates.
- The reducer, the interval walk and the path preflight are recursive functions on values instead of methods that mutate a staged state and vectors: a failed transition leaves its input unchanged by construction.
