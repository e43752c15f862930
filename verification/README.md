# Overcenter: a verified model of the authority kernel and its analyses

Overcenter keeps its authority in an append-only log of facts: graph patches, claims, rotations of execution authority,
effect reservations, releases and receipts. Any number of clients read a head, replay its history, decide, and append one
record by compare-and-swap. This project models that protocol and the analyses built beside it, and proves what they promise.

**The kernel.** `Facts`, `Adapter`, `Graph`, `Lifecycles`, `TransactionAdmission` and `Replay` are the reducer: one function per
kind of fact, in the order of the source's checks; `Derivation` is the memoised derivation of lifecycles. `Invariants` holds what
every accepted record keeps, `RunSafety` the safety of runs over whole histories. `Statuses`, `SemanticKeys`, `Acceptance` and
`Settlements` say, in terms of the facts alone, what each lifecycle status and key means, exactly which records are accepted, and
how a receipt settles its run. `Engine`, `PatchPlanning` and `Writer` are the writer's decisions and the proof that the reducer
accepts exactly what an honest writer decides; `Decisions` and `PatchDecisions` say exactly when each call decides to write, and
what. `Protocol` is the system of clients over one head, `ExecutionAuthority` who may write for a run, `Incremental` and `Kernel`
the replay in pieces and the objects with their cache and retry loop. `Frames` and `Pairing` say what a lifecycle can depend on
and when a run may reserve twice. `Scheduling` and `Bypass` are the choice of the next work item and its fairness.
`FourByFour`, `HistoryTables`, `Provenance`, `ReadersAgree` and `TableContents` are the second reader of the log. `Counterexamples` and
`Revival` give concrete inputs for promises that hold only under a condition.

**The analyses.** `Bits`, `Topology`, `StaticEffects`, `Admission` and `Snapshot` are the bitmask indexes; `AdapterProtocol`,
`TwinProduct`, `Verdicts`, `Delays` and `Diagnosability` the twin-product analysis of adapter protocols; `EvidenceSearch` and
`EvidencePlanning` the two cover searches; `SemanticSpans` and `SemanticScaling` the accounting of semantic size;
`RelationalExplanation` and `Recovery` the requirement closure and the recovery permissions derived from it.
`Ordering` and `Collections` hold one total order on ids and a fact about finite sets.

**Hypotheses.** A canonical digest is an injective constructor. What an observation proves is an arbitrary `Oracle`, so the
protocol results hold for every such function. Commit ids are distinct hex strings and `append` records the expected head as
parent (`Protocol.Chained`, `Protocol.Fresh`). What the writer relies on without checking is the predicate `Engine.Honest`: fresh
run ids, diagnostics that leave the refresh key alone, release witnesses minted for the reservation they name, and obligation
ids without NUL. Each of them is shown to be needed: `Writer.AcceptedIffHonest` is an equivalence.

**Promises that hold only under a condition.**

- One effect per run fails in the reducer for a release written with another run's receipt
  (`Counterexamples.TwoEffectsForOneRun`); `Pairing.SecondEffectIffMispaired` gives the exact condition. The same kind of record
  ends the other run's reservation without a verified DONE or a release of its own (`Counterexamples.ReservationEndedByOther`);
  `RunSafety.BlindEndIffOther` gives the exact condition. The writer always pairs them, so neither happens in any behaviour
  of the system (`Protocol.SystemOneEffectPerRun`, `Protocol.SystemNoBlindReplay`).
- A writer's record is refused for a NUL in a bound id (`Counterexamples.NulIdRefused`) and for a diagnostic that uses the refresh
  key (`Counterexamples.RefreshKeyRefused`); `Writer.AcceptedIffHonest` gives the exact condition.
- The bypass bound by obligations fails when an obligation that was claimed and retired is bound again with the same meaning,
  because its service age is the old claim (`Revival.PassedWithNothingAhead`, from records honest writers make).
  `Bypass.PassedByAheadOrRevival` shows that exactly these revivals fall outside the bound, and `Bypass.BypassBounded` gives the
  bound that holds in every case.
- A requirement cycle that avoids the root is not refused (`RelationalExplanation.OtherCyclesPass`); the closure is refused exactly
  when the root requires itself or something required is unknown.
- The union of spans can be accepted where the marginal is refused (`SemanticScaling.UnionWithoutMarginal`);
  `SemanticScaling.MarginalSum` says exactly when the marginal exists, and then the union does too.
- The derived recovery route differs from the legacy one on conflicting terminal facts (`Recovery.RoutingAgreesIff`).

## Model

| member | source | states |
|---|---|---|
| `Adapter.RegistryForbidsReplay` | src/effect-adapter.ts:79-138 | under the registry as written no absence evidence makes a reserved effect replayable, for any work and any kind of evidence |
| `Adapter.ReplaySafeIff` | src/effect-adapter.ts:210-221 | in any registry a reserved effect is replayable exactly on evidence that the first adapter registered for its contract lists as terminal, for work that this adapter verifies |
| `Adapter.EffectsConflictIff` | src/semantics.ts:88-106 | two derived effects conflict exactly if the postconditions are statuses of one commit and context with different states, or branch updates of one pull request |
| `Graph.ValidIffOrdered` | src/graph/topology.ts:27-70 | a project graph is valid exactly when its obligations can be listed with every dependency bound and before its dependents |
| `Graph.DependsOnIffWalk` | src/authority/admission.ts:89-107 | an obligation is an ancestor of another exactly when a walk of one or more dependency edges leads from the other to it |
| `Lifecycles.LivesSolve` | src/authority/project-state.ts:205-302 | the derived lifecycles and keys satisfy their defining equation at every obligation, each computed from the final values of all others |
| `Lifecycles.SolvesIffDerived` | src/authority/project-state.ts:205-302 | over a valid graph a table of lifecycles and keys satisfies the defining equation at every obligation if and only if it is the derived one |
| `Derivation.DerivedIsAcyclic` | src/authority/project-state.ts:205-302 | an obligation whose derivation succeeds lies on no cycle of semantic dependencies |
| `Derivation.RealizationSearch.Visit` | src/authority/project-state.ts:219-291 | the memoised recursion succeeds exactly when the recursive definition does, with its value; the table only ever holds derivations, and the visiting set is restored |
| `Derivation.DeriveRealizationRelations` | src/authority/project-state.ts:205-302 | whatever order the obligations are visited in, the memoised derivation succeeds exactly when the recursive one does and yields the same table, on any graph |
| `Lifecycles.LivesOk` | src/authority/project-state.ts:205-302 | on a valid graph with available semantic edges the derivation never fails |
| `Lifecycles.ConsumedAgree` | src/graph/identity.ts:31-61 | the consumed identities are read from the semantic upstreams and nothing else |
| `Lifecycles.CurrentFacts` | src/authority/project-state.ts:236-287 | what each status says about the run a lifecycle names: its meaning, its latest disposition, and how a newer generation reopens a waiting run |
| `Lifecycles.UnrealizedFacts` | src/authority/project-state.ts:236-287 | an unrealized obligation with a known key has no run of that meaning, or its newest one is settled READY |
| `Lifecycles.PrerequisitesIff` | src/authority/project-state.ts:174-203 | a claim's prerequisites hold under a key exactly if the obligation is unrealized, everything it depends on is DONE, and that key is its known one |
| `Statuses.StatusIff` | src/authority/project-state.ts:236-287 | the lifecycle of a run's obligation names that run as executing, waiting, in recovery or DONE exactly if the run has the obligation's current meaning and no receipt or a waiting one of an older generation, a waiting one of its generation, a recovery one, a DONE one |
| `Statuses.UnrealizedIff` | src/authority/project-state.ts:236-287 | an obligation is unrealized exactly if every run of its current meaning is settled READY |
| `Statuses.InFlightIff` | src/authority/project-state.ts:706-708 | something is in flight exactly if some run of a current meaning executes, waits or needs recovery |
| `SemanticKeys.KeyIs` | src/graph/identity.ts:31-61 | a key is unknown exactly if some semantic upstream is not DONE; a known one holds the id, packet and postcondition and pairs each semantic edge with the content its upstream's postcondition verifies or the commit that settled it |
| `SemanticKeys.SameKeyIff` | src/graph/identity.ts:41-60 | two known keys, in any two states, are equal exactly if id, packet and postcondition agree and the semantic edges with what their upstreams provide form the same multiset |
| `SemanticKeys.DoneIff` | src/authority/project-state.ts:236-287 | an obligation is DONE exactly if a run of its current key is settled DONE |
| `SemanticKeys.ChangedInputChangesKey` | src/graph/identity.ts:31-61 | when what one semantic upstream provides changes, the key changes |
| `SemanticKeys.StaleInputReopens` | src/authority/project-state.ts:205-302 | work whose upstream provides something else is DONE again only by a run claimed under the new key |
| `SemanticKeys.ChangedFileIsChanged` | src/semantics.ts:58-86 | a DONE file obligation re-bound to other content provides another identity to what consumes its content |
| `Frames.OnlyDoneMatters` | src/authority/project-state.ts:205-302 | if the DONE runs of the current meanings stay the same, every key stays the same and every lifecycle is the one its own runs give |
| `Invariants.PatchIs` | src/authority/replay.ts:184-216 | a successful graph patch field by field: definitions added, retired ids gone, bound ids materialized and stamped with the record's ordinal, graph valid |
| `Invariants.PatchKeeps` | src/authority/replay.ts:184-216 | a patch keeps every obligation the materialization of its registered definition and changes no run |
| `Invariants.ClaimedMeaningIsFree` | src/authority/replay.ts:222-273 | a claim is accepted only while the meaning has no run or its newest run is settled READY |
| `Acceptance.ClaimAcceptedExactly` | src/authority/replay.ts:222-273 | a record with a claim and nothing else is accepted if and only if its obligation is bound, unrealized and depends only on DONE obligations, and the claim names its known key, a new run, well-formed ids and the record's parent |
| `Acceptance.HistoryClaimsStartable` | src/authority/replay.ts:222-273 | the same condition held where any claim of any accepted history was accepted, in the graph its record leaves |
| `Acceptance.RotationAcceptedExactly` | src/authority/replay.ts:275-295 | a rotation is accepted if and only if its run is open under a current meaning and it names the run's obligation, next generation and present authority |
| `Acceptance.ReservationAcceptedExactly` | src/authority/replay.ts:297-316 | a reservation is accepted if and only if its run executes under a current meaning without one and it names the run's obligation, generation and authority |
| `Acceptance.ReleaseAcceptedExactly` | src/authority/replay.ts:318-351 | a release with its receipt is accepted if and only if its run executes under a current meaning, the release names the held reservation with fresh evidence of no dispatch under the status contract, and the receipt may be received once the reservation is gone |
| `Acceptance.WitnessSafeIff` | src/effect-adapter.ts:223-271 | a release witness is safe exactly for work and contract of commit statuses, for fresh evidence of no dispatch that the observation shows |
| `Acceptance.ReceiptAcceptedExactly` | src/authority/replay.ts:353-432 | a receipt is accepted if and only if it names the run's claim and authority and, by its kind: an observation that can be judged of an open run or a refresh of a DONE one, a judgment or retry of an executing run without a reservation, an integration of one with, a termination of an executing run, no dispatch with a release |
| `Acceptance.PatchAcceptedExactly` | src/authority/replay.ts:184-216 | a patch is accepted if and only if no run of a current meaning executes, waits or needs recovery, it is well formed, introduces only new definitions, retires only bound obligations, binds only known definitions, and the graph it leaves can be ordered |
| `Settlements.SettledAs` | src/authority/replay.ts:88-133 | what every accepted receipt makes its run's latest: for an observation DONE iff verified, READY iff not verified, no unresolved effect and the absence its postcondition accepts, else recovery; waiting for a judgment, recovery for a termination, DONE for an integration, READY for a retry or no dispatch |
| `Settlements.HistorySettledAs` | src/authority/replay.ts:88-133 | the same for every receipt of every accepted history |
| `Settlements.RefreshReplaces` | src/authority/replay.ts:363-378 | an accepted refresh is an observation that names the DONE settlement it replaces, of a run without a reservation |
| `Settlements.ReceiptsGrow` | src/authority/replay.ts:420-432 | receipts are kept in order, and only an accepted receipt adds one, its run's latest |
| `Invariants.ClaimKeeps` | src/authority/replay.ts:222-273 | a claim keeps the run invariants, in particular at most one live run per meaning |
| `Invariants.AuthorityKeeps` | src/authority/replay.ts:275-295 | a rotation keeps the run invariants |
| `Invariants.ReservedRunIsOpen` | src/authority/replay.ts:297-316 | a reservation is accepted only for a run without a receipt or with a waiting one |
| `Invariants.ReservationKeeps` | src/authority/replay.ts:297-316 | a reservation keeps the run invariants: held reservations name claimed runs that have no terminal receipt |
| `Invariants.ReleaseKeeps` | src/authority/replay.ts:318-351 | a release keeps the run invariants |
| `Invariants.ReadyIsFinal` | src/authority/replay.ts:353-434 | no receipt is accepted for a run that is settled READY |
| `Invariants.ReceiptKeeps` | src/authority/replay.ts:353-434 | a receipt keeps the run invariants |
| `Invariants.StepKeeps` | src/authority/replay.ts:181-434 | every record the reducer accepts keeps the whole invariant and advances the ordinal by one |
| `Invariants.HistoryInv` | src/authority/replay.ts:181-434 | every accepted history satisfies the invariant, and the ordinal counts its records |
| `RunSafety.ReadyForever` | src/authority/replay.ts:360-419 | a run settled READY stays so in every extension of the history |
| `RunSafety.OneLiveRunPerMeaning` | src/authority/project-state.ts:236-287 | for every obligation and key all claimed runs but the newest are settled READY, now and forever |
| `RunSafety.LiveRunUnique` | src/authority/replay.ts:222-273 | two runs of one meaning are never both in flight or DONE |
| `RunSafety.SpentStays` | src/authority/replay.ts:297-351 | once a run has reserved, or has been settled or sent to recovery, no paired record lets it reserve again |
| `RunSafety.OneEffectPerRun` | src/authority/replay.ts:297-316 | in every accepted history with paired releases each run has at most one reservation, whatever crashes, rotations and refreshes occur |
| `RunSafety.ReceiptOnHeld` | src/authority/replay.ts:88-133 | a receipt for a run with an unresolved reservation is DONE only if verified, and READY only in a record with a release or on an observation whose own absence evidence the adapter lists as terminal |
| `RunSafety.HeldOrResolved` | src/authority/replay.ts:318-434 | any accepted record leaves a reservation exactly as it was, or ends it by a verified DONE, by a release bound to it and safe for the run's own work, or by settling its run with another run's release; the last never counts as the others |
| `RunSafety.BlindEndIffOther` | src/authority/replay.ts:339-351 | a record ends a reservation without a verified DONE or a bound release if and only if it settles the run with another run's release |
| `RunSafety.NoBlindReplay` | src/authority/replay.ts:318-434 | over any extension of any accepted history a reservation survives unchanged until a record ends it by a verified DONE, a release bound to it, or another run's release; rotations, terminations and absence evidence never end it |
| `RunSafety.GenerationCountsRotations` | src/authority/replay.ts:275-295 | a run's generation is one plus its accepted rotations |
| `RunSafety.PresentsCurrent` | src/authority/transaction-admission.ts:45-114 | every reservation, release and receipt in an accepted record carries exactly the run's generation |
| `RunSafety.Fenced` | src/authority/transaction-admission.ts:15-131 | after a rotation no later record presenting an older generation is accepted, and no permit check with one passes |
| `ExecutionAuthority.AuthorityIsLastGrant` | src/authority/replay.ts:222-295 | over every accepted history a run exists exactly if it was claimed; its capability, generation and authority commit are those of the last claim or rotation of it, everything else is as its claim found the obligation bound |
| `Decisions.ClaimDecidedIff` | src/authority/engine.ts:284-338 | a claim is decided if and only if the head is the expected one and the obligation may be claimed; it names that head, a startable key and the digest of the secret |
| `Decisions.AcquireDecidedIff` | src/authority/engine.ts:353-396 | a rotation is decided if and only if the run is open under a current meaning; it carries the digest of the secret |
| `Decisions.ReserveDecidedIff` | src/authority/engine.ts:398-439 | a reservation is decided if and only if the caller presents the secret and coordinates of the run's present authority and claim, and the run executes under a current meaning without a reservation |
| `Decisions.ReleaseDecidedIff` | src/authority/engine.ts:475-549 | a release is decided if and only if the caller holds that permit, the run executes with a reservation, and fresh evidence names that very attempt under the status contract |
| `Decisions.ResolveDecidedIff` | src/authority/engine.ts:607-619 | a resolution is decided if and only if the caller holds the permit of an open run and the observation can be judged |
| `Decisions.SettleDecidedIff` | src/authority/engine.ts:798-870 | a settlement without observation is decided if and only if the caller holds the permit of an executing run, judgment and retry without a reservation, integration with one and valid evidence, the last two for source work |
| `Decisions.IntegrateDecidedIff` | src/authority/engine.ts:551-579 | an integration also needs the integration contract and evidence that names the run, its key and its source revision |
| `Decisions.RefreshDecidedIff` | src/authority/engine.ts:241-282 | a refresh is decided if and only if the head is the expected one and a run of the obligation's current meaning is DONE, not by integration, without a reservation, and the observation can be judged |
| `Decisions.DecidedSaysAsked` | src/authority/engine.ts:241-870 | whatever is decided records what the command asks for, about the run it presents, and nothing else |
| `PatchDecisions.PatchDecidedIff` | src/authority/engine.ts:660-777 | a patch is decided if and only if no run of a current meaning is open, no id is empty or named twice, only bound obligations are retired, something changes, and the graph asked for can be ordered, has available semantic edges and no unordered conflict |
| `PatchDecisions.PatchWritesAsked` | src/authority/engine.ts:660-777 | the patch that is written describes exactly the graph asked for |
| `PatchDecisions.PatchLeaves` | src/authority/replay.ts:184-216 | only a patch changes the graph, and it leaves exactly the graph it describes |
| `ExecutionAuthority.WritesNeedPermit` | src/authority/transaction-admission.ts:15-39 | a command that presents a permit decides to write only with the secret, generation, authority, claim, revision and key of the run |
| `ExecutionAuthority.WritesNeedLastSecret` | src/authority/transaction-admission.ts:15-39 | over every accepted history those are the ones of the last claim or rotation of the run and of the claim that opened it |
| `Writer.ClaimAcceptedIff` | src/authority/engine.ts:284-338 | the claim the writer decides is accepted by the reducer exactly when its run id is well formed and new |
| `Writer.AcquireAccepted` | src/authority/engine.ts:353-396 | the rotation the writer decides is always accepted |
| `Writer.ReserveAccepted` | src/authority/engine.ts:398-439 | the reservation the writer decides is always accepted |
| `Writer.ReleaseAcceptedIff` | src/authority/engine.ts:475-549 | the release the writer decides is accepted exactly when its diagnostic leaves the refresh key alone and its witness was minted for the held reservation |
| `Writer.ResolveAcceptedIff` | src/authority/engine.ts:607-619 | the observation receipt the writer decides is accepted exactly when its diagnostic leaves the refresh key alone |
| `Writer.SettleAcceptedIff` | src/authority/engine.ts:798-870 | the same for the settlements without observation |
| `Writer.RefreshAccepted` | src/authority/engine.ts:241-282 | the refresh the writer decides is always accepted |
| `PatchPlanning.PlanApplies` | src/authority/engine.ts:660-777 | the patch the writer plans in place leads the reducer to exactly the state the writer validated |
| `PatchPlanning.PatchAcceptedIff` | src/authority/engine.ts:660-777 | the planned patch is accepted exactly when no bound id holds a NUL, and the state it leads to is admissible |
| `Writer.PatchRecordIff` | src/authority/engine.ts:660-777 | the same for the whole record at the writer's head |
| `Writer.AcceptedIffHonest` | src/authority/engine.ts:284-870 | for every command the record the writer decides is accepted by the reducer if and only if the writer's unchecked hypotheses hold |
| `Writer.WriteKeeps` | src/authority/engine.ts:284-870 | an honest write keeps the writer's invariant: an admissible graph, a projection that succeeds, hex settlement commits |
| `Protocol.NextKeeps` | src/authority/store.ts:3-12 | every read, append and crash of every client keeps the system invariant |
| `Protocol.BehaviorInv` | src/authority/store.ts:3-12 | the invariant holds in every state of every behaviour of any number of clients |
| `Protocol.EveryHeadReplays` | src/authority/engine.ts:284-870 | every head reachable in any interleaving replays without error |
| `Protocol.EveryRecordMade` | src/authority/engine.ts:284-870 | every record of every behaviour is the decision of an honest command at the head it was appended to |
| `ExecutionAuthority.OnlyTheLastSecretWrites` | src/authority/engine.ts:353-549 | in every behaviour, whoever made a record that reserves, releases or settles a run presented the very secret given out by whoever last claimed or acquired that run |
| `ExecutionAuthority.EveryClaimWasClaimable` | src/authority/engine.ts:284-338 | in every behaviour every claim was of an obligation that could be claimed at the head it was appended to |
| `Protocol.HistoryImmutable` | src/authority/store.ts:3-12 | a later log extends every earlier one |
| `Protocol.SystemOneEffectPerRun` | src/authority/engine.ts:398-439 | in every behaviour each run has at most one reservation |
| `Protocol.SystemNoBlindReplay` | src/authority/engine.ts:398-549 | in every behaviour a reservation present at one moment is unchanged at any later one, or was resolved by a verified DONE or a bound release |
| `Incremental.ReplayProjection` | src/authority/replay.ts:135-452 | the reducer's loop computes the fold of the records followed by the final refresh, from any base projection; every projected item carries the last commit, and replaying nothing changes nothing |
| `Incremental.FoldSplit` | src/authority/replay.ts:181-434 | folding a concatenation is folding the second part from the result of the first |
| `Incremental.IncrementalEqualsFull` | src/authority/replay.ts:436-456 | replaying a+b succeeds exactly when replaying a and then b on top does, with the same projection |
| `Incremental.StuckProjection` | src/authority/replay.ts:181-434 | while the projection fails no accepted record changes what it is derived from |
| `Kernel.FactStore.History` | src/authority/store.ts:3-12 | the history of a commit is the log up to it |
| `Kernel.FactStore.Append` | src/authority/store.ts:3-12 | an append succeeds exactly under the expected head, and then extends the chain by one stamped record |
| `Kernel.Advance` | src/authority/replay.ts:454-456 | advancing a cached prefix record by record yields the full replay |
| `Kernel.OutcomeEnds` | src/authority/engine.ts:353-439 | a call ends at its first attempt that fails a guard or meets no rival, or with its attempts exhausted; the log is then what the rivals left, and its own record if it won |
| `Kernel.KernelCore.HistoricalProjection` | src/authority/engine.ts:878-899 | the cached projection of any head, asked for in any order, is the full replay of its history |
| `Kernel.KernelCore.Perform` | src/authority/engine.ts:353-439 | a writing call, with one attempt for claims, refreshes and patches and 16 for the others, against any schedule of rivals ends in that way and leaves a log the writers can have produced |
| `Pairing.PairedReleaseSpends` | src/authority/replay.ts:318-351 | a release with its own run's receipt leaves the run unable to reserve again |
| `Pairing.MispairedReopens` | src/authority/replay.ts:339-343 | a release with another run's receipt leaves the run executing and able to reserve |
| `Pairing.SecondEffectIffMispaired` | src/authority/replay.ts:339-343 | after an accepted release the released run can reserve again if and only if the receipt belongs to another run |
| `Counterexamples.TwoEffectsForOneRun` | src/authority/replay.ts:339-343 | a concrete accepted history in which one run reserves twice |
| `Counterexamples.ReservationEndedByOther` | src/authority/replay.ts:339-351 | a concrete accepted history in which a reservation ends with another run's release, without a verified DONE or a release of its own |
| `Counterexamples.NulIdRefused` | src/authority/facts.ts:203 | a concrete patch the writer decides and the reducer refuses |
| `Counterexamples.RefreshKeyRefused` | src/authority/replay.ts:73-86 | a concrete resolution the writer decides and the reducer refuses |
| `Scheduling.ReadyWork` | src/authority/project-state.ts:655-685 | the selected item has the smallest (service age, id) among the bound obligations that are unrealized, depend only on DONE ones, have a known key, are not left to the operator and have no unordered conflict; none is selected only if there is no such obligation |
| `Scheduling.ClaimableIff` | src/authority/project-state.ts:304-359 | the derived claimability accepts exactly those obligations |
| `Scheduling.StepService` | src/authority/replay.ts:222-273 | a record changes the last service of a meaning exactly by claiming it, to the record's ordinal |
| `Bypass.StepBindings` | src/authority/replay.ts:204-213 | a record leaves a binding ordinal alone or stamps it with its own ordinal |
| `Bypass.SelectedIsStale` | src/authority/project-state.ts:655-685 | whatever is selected while a claimable obligation is passed over had an older meaning at the start and was not selected since |
| `Bypass.BypassBounded` | src/authority/project-state.ts:655-685 | a continuously claimable obligation is passed over at most once per meaning that was older at the start, however many obligations are bound meanwhile |
| `Bypass.PassedByAheadOrRevival` | src/authority/project-state.ts:655-685 | a selection that passes an obligation over is of one that was ahead at the start, if and only if it does not revive a retired meaning |
| `Bypass.BypassBoundedByIds` | src/authority/project-state.ts:655-685 | without revivals the bound is the number of obligations with a smaller (service age, id) at the start |
| `Revival.PassedWithNothingAhead` | src/authority/project-state.ts:655-685 | a concrete run in which an obligation with none ahead of it is passed over by a re-bound one |
| `Revival.WritersMakeTheRun` | src/authority/engine.ts:660-777 | after the initial commit every record of that run is what an honest writer decides at the head it is appended to |
| `FourByFour.ProjectDurableEffectHistory` | src/authority/effect-history-projection.ts:391-630 | the builder run over a history yields the fold's tables, or the fold's error |
| `HistoryTables.TablesClosed` | src/authority/effect-history-projection.ts:391-630 | for every history the second reader accepts, both ends of every permits, asserts, supports and requires edge are recorded, and every item lies at a recorded coordinate |
| `HistoryTables.FactsBookedOnce` | src/authority/effect-history-projection.ts:502-626 | for every such history with distinct commits: exactly one event and one asserts edge per receipt, one event and one permits edge per reservation, one supports edge per release, no others, each saying what its fact says; a receipt asserts no dispatch if its record releases, else what was observed or the fact itself |
| `ReadersAgree.RecordAgrees` | src/authority/effect-history-projection.ts:402-627 | the second reader accepts every record the reducer accepts, keeps holding each run's current authority, and adds a permits edge exactly for a reservation |
| `ReadersAgree.ReadersAgreeOn` | src/authority/effect-history-projection.ts:391-630 | every accepted history is accepted by the second reader, and its permits edges are exactly those of the reservations, each once |
| `ReadersAgree.ReservationPermitted` | src/authority/effect-history-projection.ts:502-533 | each reservation has exactly one permits edge, from the authority object of the run's generation, one more than its rotations so far |
| `ReadersAgree.AcceptedHistoryBooked` | src/authority/effect-history-projection.ts:391-630 | every history the reducer accepts has closed tables in which each reservation, release and receipt is booked exactly once |
| `TableContents.ClaimsRequired` | src/authority/effect-history-projection.ts:334-367 | over every accepted history the requirement edges are exactly those of the claims: for each run from its obligation to the postcondition and to each dependency as bound when it was claimed, at the claim's coordinate |
| `TableContents.ReceiptsSettled` | src/authority/effect-history-projection.ts:369-390 | over every accepted history each receipt has its event at its run's claim, the authority it names and its commit; evidence supports an observation exactly if that observation retains it |
| `Provenance.CoordinatesSourced` | src/authority/effect-history-projection.ts:150-161 | for every history the second reader accepts, a coordinate names a fact as its source exactly if an object, event or proposition that lies at it comes from that fact |
| `Provenance.EveryFactBacked` | src/authority/effect-history-projection.ts:478-590 | in every history the second reader accepts, each reservation and receipt names a generation that the claim or rotation of that commit gave out for its run, and each release the very reservation it ends |
| `Topology.EdgeLists` | src/graph/topology.ts:27-41 | upstream and downstream lists are exact and without repeats; it fails exactly on an unbound dependency |
| `Topology.Place` | src/graph/topology.ts:46-54 | placing one obligation counts down exactly its dependents and queues those with nothing left to wait for |
| `Topology.BuildGraphIndex` | src/graph/topology.ts:27-66 | succeeds exactly on valid graphs with a valid index, and otherwise reports an unknown dependency or a cycle |
| `Topology.GraphDependsOn` | src/graph/topology.ts:72-86 | the search answers true exactly for the obligation itself and for what a walk of dependencies leads to |
| `StaticEffects.IndexEffects` | src/authority/admission.ts:55-87 | each effect gets its own bit; the masks mark exactly the effects on a resource and those that commute |
| `StaticEffects.Accumulate` | src/authority/admission.ts:89-107 | one pass in dependency order accumulates exactly the bits of everything reachable |
| `StaticEffects.AboveStep` | src/authority/admission.ts:89-97 | what an obligation depends on is its upstreams and what they depend on |
| `StaticEffects.BelowStep` | src/authority/admission.ts:99-107 | what depends on an obligation is its downstreams and what depends on them |
| `StaticEffects.BuildStaticEffectIndex` | src/authority/admission.ts:51-135 | over any valid graph index the built index answers every conflict question |
| `StaticEffects.UnorderedMaskIs` | src/authority/admission.ts:146-152 | the mask expression marks exactly the obligations that conflict by the pairwise rule on postconditions and are unordered |
| `StaticEffects.StaticConflictIff` | src/authority/admission.ts:137-166 | a conflict is reported exactly when another obligation on the resource conflicts and neither depends on the other; it names the smallest, and the inconsistency error is never raised |
| `StaticEffects.ValidateStaticEffectOrdering` | src/authority/admission.ts:168-175 | passes exactly when no conflicting pair exists, and otherwise names one |
| `Admission.ValidateSemanticEdges` | src/authority/admission.ts:12-28 | passes exactly when every semantic edge has a bound upstream, a known selector and an available output |
| `Admission.ValidateAdmission` | src/authority/admission.ts:177-184 | accepts exactly the admissible states: valid graph, available semantic edges, no unordered conflict |
| `Snapshot.SetBit` | src/authority/effect-admission-snapshot.ts:11-15 | sets exactly one bit, and 32-bit truncation loses nothing |
| `Snapshot.IndexRuns` | src/authority/effect-admission-snapshot.ts:47-58 | the loop indexes every run and marks exactly the executing and the reserved ones |
| `Snapshot.EffectAdmissionSnapshot.constructor` | src/authority/effect-admission-snapshot.ts:38-64 | the snapshot answers every run id, known or unknown, as the maps do |
| `Snapshot.ExecutingInIff` | src/authority/effect-admission-snapshot.ts:47-58 | in every projection the runs marked executing are those of a current meaning without a receipt, or with a request for judgment that a newer generation has overtaken |
| `Snapshot.BuildEffectAdmissionSnapshot` | src/authority/effect-admission-snapshot.ts:80-85 | in every state that satisfies the reducer's invariant the unresolved set is the reducer's |
| `Snapshot.ReservedRunsAreClaimed` | src/authority/replay.ts:297-316 | after every accepted history the invariant holds and reserved runs are claimed runs |
| `AdapterProtocol.NextIs` | scripts/adapter-diagnosability.ts:119-163 | the product edges of a pair are exactly the silent moves of either side and the joint moves with one observation |
| `AdapterProtocol.OccurredIs` | scripts/adapter-diagnosability.ts:112-115 | in a valid protocol the mutation looked up for a listed state is that state's own |
| `AdapterProtocol.LookupsDifferIff` | scripts/adapter-diagnosability.ts:112-115 | in a valid protocol the lookups for a pair differ exactly if two listed states with these ids disagree about the mutation |
| `TwinProduct.WalkToRuns` | scripts/adapter-diagnosability.ts:103-187 | a walk of the product is a pair of runs with equal observations whose events its steps list |
| `TwinProduct.RunsToWalk` | scripts/adapter-diagnosability.ts:103-187 | any two runs with equal observations are a walk of the product |
| `TwinProduct.BuildProduct` | scripts/adapter-diagnosability.ts:103-172 | the queue loop records the edges of every pair found and an earlier predecessor for each |
| `TwinProduct.SeenIffTwins` | scripts/adapter-diagnosability.ts:103-187 | a pair is in `seen` if and only if two runs from the initial state reach it with equal observation sequences |
| `TwinProduct.PathTo` | scripts/adapter-diagnosability.ts:174-184 | the path to a pair is the steps of a walk from the start to it |
| `Verdicts.Follow` | scripts/adapter-diagnosability.ts:196-206 | expanding one frame returns a cycle or leaves every edge handled, with less work left |
| `Verdicts.SearchFrom` | scripts/adapter-diagnosability.ts:193-208 | the search from one pair ends, and finds a cycle exactly when an ambiguous walk returns to the pair |
| `Verdicts.FindAmbiguousCycle` | scripts/adapter-diagnosability.ts:189-211 | finds a real ambiguous cycle exactly when the reachable ambiguous pairs have one |
| `Verdicts.DelaySearch.Visit` | scripts/adapter-diagnosability.ts:217-232 | the memoised recursion returns the most observations on any ambiguous walk from the pair, and fails only on a cycle |
| `Verdicts.MaxAmbiguousDelay` | scripts/adapter-diagnosability.ts:213-235 | without an ambiguous cycle it never fails and returns the longest observable delay over all reachable ambiguous walks |
| `Delays.AcyclicIffBounded` | scripts/adapter-diagnosability.ts:189-235 | the reachable ambiguous pairs have no cycle if and only if some bound limits the length of every ambiguous walk |
| `Diagnosability.ValidateAdapterProtocol` | scripts/adapter-diagnosability.ts:71-101 | accepts exactly the protocols with distinct states, a known initial state, known transition ends and no blank names |
| `Diagnosability.UnsafeWitnesses` | scripts/adapter-diagnosability.ts:242-260 | one real witness per consequential action enabled in a reachable ambiguous pair, for all such actions, in order |
| `Diagnosability.AnalyzeAdapterProtocol` | scripts/adapter-diagnosability.ts:237-278 | every verdict is exact: diagnosable if and only if no ambiguous cycle, if and only if ambiguous walks are bounded; safely diagnosable, the number of ambiguous pairs, the longest delay, the witnesses |
| `Diagnosability.BoundedAmbiguousObservationSequences` | scripts/adapter-diagnosability.ts:280-312 | the count is the number of observation sequences shown by two runs of that length that disagree about the mutation |
| `Diagnosability.OracleImpliesAmbiguous` | scripts/adapter-diagnosability.ts:280-312 | an observation sequence the oracle counts implies an ambiguous pair in `seen` |
| `EvidenceSearch.LexTotal` | src/authority/assurance-relations.ts:38-45 | the comparison of sorted selections is a strict total order |
| `EvidenceSearch.LexIff` | src/authority/assurance-relations.ts:38-45 | among selections of one size the first id that differs decides |
| `EvidenceSearch.TakenBeforeSkipped` | src/authority/assurance-relations.ts:99-106 | among selections of one size, those that take the next candidate come before those that skip it |
| `EvidenceSearch.MinimumSearch.Search` | src/authority/assurance-relations.ts:86-109 | each call explores its whole subtree, and the recorded sets are exactly the smallest covers explored, each once, despite pruning and clearing |
| `EvidenceSearch.SmallestAreMinimum` | src/authority/assurance-relations.ts:86-114 | the smallest covers among candidates are the minimum covers among all objects |
| `EvidenceSearch.CoverSearch.Search` | src/architecture/change-planner.ts:108-125 | the first improvement kept is the smallest and lexicographically least cover explored |
| `EvidenceSearch.ForemostIsLeast` | src/architecture/change-planner.ts:106-127 | over all candidates it is the least sufficient selection among all objects |
| `EvidenceSearch.PlannersAgree` | src/architecture/change-planner.ts:85-128 | with one order on ids and equal coverage the two planners select the same set |
| `EvidencePlanning.CoverageOf` | src/authority/assurance-relations.ts:71-77 | the coverage table holds exactly the supports at the coordinate for pending propositions |
| `EvidencePlanning.MinimumSufficientEvidenceSet` | src/authority/assurance-relations.ts:51-137 | fails exactly when a pending proposition has no support; otherwise all minimum sufficient sets, each once, in lexicographic order, the least selected |
| `EvidencePlanning.MinimumEvidenceCover` | src/architecture/change-planner.ts:85-128 | fails exactly when an obligation has no evidence; otherwise the least sufficient set |
| `SemanticSpans.OutermostUnique` | src/analysis/tcb-semantic-loc.ts:94-135 | the outermost spans of a family are determined by the family |
| `SemanticSpans.MaximalSemanticSpans` | src/analysis/tcb-semantic-loc.ts:94-135 | accepts exactly the families of one file that have outermost spans, and returns them left to right |
| `SemanticSpans.NormalizeSemanticSpans` | experiments/semantic-scaling/measure.ts:296-308 | the same over all files |
| `SemanticScaling.SemanticLoc` | experiments/semantic-scaling/measure.ts:310-312 | the size of the outermost spans, independent of their order |
| `SemanticScaling.UnionSemanticSpans` | experiments/semantic-scaling/measure.ts:314-318 | accepts exactly when both families together have outermost spans, and returns those |
| `SemanticScaling.CoveredIs` | experiments/semantic-scaling/measure.ts:327-352 | the inner loop accepts exactly the spans that no prior span straddles and with which every containing one agrees; it yields the whole size of a contained span, else the sizes of the prior spans inside it |
| `SemanticScaling.MarginalSum` | experiments/semantic-scaling/measure.ts:320-365 | the marginal exists exactly when every current span fits the prior ones; its size is that of the uncontained current spans less the prior spans they contain, and its spans are exactly the new parts |
| `SemanticScaling.DefinedIff` | experiments/semantic-scaling/measure.ts:320-365 | whether the marginal exists does not depend on which normal forms are taken |
| `SemanticScaling.MarginalSemanticSpans` | experiments/semantic-scaling/measure.ts:320-365 | accepts exactly when both families have normal forms and every current span fits; returns exactly the new part of each current span |
| `SemanticScaling.Conservation` | experiments/semantic-scaling/measure.ts:314-365 | whenever the marginal exists the union is accepted, and its size is the prior size plus the marginal size |
| `SemanticScaling.UnionConserves` | experiments/semantic-scaling/measure.ts:545-605 | the same in terms of the span functions, for any normal forms |
| `SemanticScaling.MeasureSemanticScaling` | experiments/semantic-scaling/measure.ts:536-605 | accepts exactly the plans in which every task has a marginal over what came before; up to any task the marginal sizes add up to the size of the union measured so far |
| `SemanticScaling.UnionWithoutMarginal` | experiments/semantic-scaling/measure.ts:346-359 | a concrete pair of families whose union is accepted while the marginal is refused |
| `RelationalExplanation.RequirementSearch.Visit` | src/authority/relational-explanation.ts:57-76 | the recursion records only reachable requirements, leaves every visited one closed, and fails only if the root requires itself or an unknown is required |
| `RelationalExplanation.RequirementClosure` | src/authority/relational-explanation.ts:57-77 | the closure is exactly the propositions reachable from the root; refused exactly when the root is among them or one is unknown |
| `RelationalExplanation.OtherCyclesPass` | src/authority/relational-explanation.ts:59-77 | a cycle that avoids the root is not refused |
| `RelationalExplanation.ExplainRelationalEvent` | src/authority/relational-explanation.ts:37-144 | succeeds exactly when everything named is known and placed and the closure exists; the permitting objects are those at the event's coordinate, the stale ones those elsewhere, and a requirement is supported exactly by an object at its own coordinate, unsupported exactly if none supports it |
| `Recovery.EventPermitted` | src/authority/recovery.ts:118-176 | the explanation of one event in one world permits it exactly as designed |
| `Recovery.RecoveryEventsPermittedInAllWorlds` | src/authority/recovery.ts:178-190 | an event is listed exactly when every world permits it, and only reconciling for no world |
| `Recovery.ExactPermissions` | src/authority/recovery.ts:178-190 | retry (settle) is permitted exactly when every world is at the current coordinate and not dispatched (asserts the postcondition) |
| `Recovery.WorldsOnlyNarrow` | src/authority/recovery.ts:178-190 | more worlds never permit more, and retry and settle are never permitted together |
| `Recovery.DeriveRecoveryPlan` | src/authority/recovery.ts:77-204 | the plan settles exactly if the postcondition is asserted and neither no dispatch nor a replay-safe absence is shown, and retries exactly if one of those is shown and the postcondition is not asserted |
| `Recovery.RoutingAgreesIff` | src/authority/recovery.ts:206-221 | the derived route is the legacy one exactly when the postcondition is not asserted beside a shown retry; there the legacy route settles and the derived one reconciles |

## Left out

- JSON shape validation, canonical JSON and SHA-256: facts are datatypes and a digest is an injective constructor; generation numbers have no largest safe integer.
- Observation semantics, absence evidence and source-integration evidence: arbitrary functions in `Facts.Oracle`.
- `localeCompare` and the default sort are one total order, `Ordering.Before`; an order of dependencies or sources inside a fact is taken as canonical.
- GitHub status contexts are compared as given, without case normalization.
- Which error is raised first when several obligations fail to project: `Lifecycles.Lives` fails with one code.
- Incremental.IncrementalEqualsFull: compares success and projections; the error code of a failing replay in pieces may differ from that of the full one.
- Kernel.KernelCore.Perform: covers one call with its retry loop; asynchronous observation inside `resolveAsync` is the observation parameter.
- Judgments of historical realizations, an optional parameter of the projection that replay and the writer leave out; explanations of work items and `settled_at` time stamps, which feed no decision.
- FourByFour: the roles of receipts are not separate fields, and evidence retained from an observation is an arbitrary function.
- ReadersAgree.ReadersAgreeOn: assumes distinct commit ids, as the store guarantees.
- SemanticSpans.MaximalSemanticSpans: says which families are accepted, not which of the three errors a rejected one raises.
- SemanticScaling.MeasureSemanticScaling: the breakdown by scope role, digests and introduced assumptions of a task are not modelled.
- EvidencePlanning.MinimumSufficientEvidenceSet: the per-proposition explanations are not modelled.
- The impact fixpoint of `deriveAffectedAssuranceProperties`, the recovery decision policy with its fallback and the effect-admission explanation: they would only add easy members.
- Storage backends, Git, SQLite, GitHub, Kubernetes, containers, the command line, the site generator and the hosted experiments: input and output.
- SQL queries and TypeScript syntax-tree tools: they rest on engines outside the repository.
