# Crash-tolerant protocols of comms, proved

This project models the parts of comms that move state in small durable steps, and proves what they
promise for every length, every number of jobs, rows, epochs or steps, and every schedule of crashes.

Each protocol has the same three layers.

1. **A state machine.** One event is one transaction, one check, one call to the outside or one volatile
   move, so a crash is possible between any two, and so is what others do. An event that is not enabled changes nothing, so a run is *any*
   sequence of events and a theorem about `Run` is a theorem about every schedule.
2. **Invariants and theorems** over every run, built from one small lemma per event, and **outcomes**: what each
   operation comes to, in terms of what went in and not of the machine's own functions, and what a whole
   undisturbed run comes to.
3. **The code as it runs**: classes with the fields the program updates, methods with its loops and
   branches, and a free choice (`*`) wherever a crash, a clock, a provider or an anchor may intervene.
   Each method keeps its fields equal to what the machine makes of a ghost trace, so the theorems hold of
   the code and not only of the machine.

| files | what they model |
|---|---|
| `relay_*.dfy` | the WhatsApp relay mailbox (a Durable Object) and the collector that empties it |
| `audit_*.dfy` | the audit chain: append, seal, checkpoint, truncate, verify, anchor verdict, repair, damaged tables |
| `mutation_*.dfy` | durable mutation records, the executor's saga, replay and startup recovery |
| `campaign_*.dfy` | the campaign core rules, with any number of jobs and generations and any retry cap |
| `canonical_*.dfy` | the canonical JSON encoder under every digest and MAC |
| `cutover_*.dfy` | the resumable cutover from the legacy chain to the comms chain |
| `credential_*.dfy` | provider credential rotation and revocation |
| `staged_*.dfy` | staged media uploads with their five-minute life |

Cryptography is ideal: a MAC is the term it covers, a signature names its signer and its content, a
ciphertext is its recipient and its plaintext, a digest is its preimage. `Unforged` is the hypothesis
that only the writer makes MACs and signatures that verify. Time, minted refs, provider answers and
anchor failures are arbitrary.

## False as one would first put it, and the exact condition

- *Acks stop on batch boundaries.* Progress stands inside a delivery exactly when the collector last moved it
  by giving up on a half-pulled batch once the mailbox is drained (`CutsFallBetweenDeliveries`), which it does
  only after a purge took the rest of that batch; `ProgressInsideAPurgedBatch` is such a run. Nothing unpurged
  is lost by it.
- *A mutation is re-invoked at most once* (`src/comms/services/mutations.py:15-18`). Two invocations per
  step is the bound in every run in which no request resumes a mutation that is still IN_FLIGHT with a started
  `retry_same_key` step (`CarefulRunsInvokeTwiceAtMost`). In every other run that step can be invoked any
  number of times, from the first such request on, without a trace in the records (`NoBoundOtherwise`;
  `ReinvokedWithoutBound` gets there by bookkeeping that raises after the provider call, with no restart
  between).
- *No provider call starts while the audit trail is degraded.* The latch is tested first and the call started
  after: only a latch set at the test stops it (`Executor.Arm`).
- *A finished cutover is anchored.* COMPLETE implies an anchored genesis, but the head is anchored exactly
  when the last refresh succeeded (`RevocationDecidesTheAnchor`, `CompleteUnanchored`): the last phase does
  not refresh it again.
- *A differing seal digest never completes.* Once the reported seal differs from the recorded one, the cutover
  can still complete exactly when its last check of the seal is behind: the check passed in the run still
  going, or the revocation is recorded (`DifferingSealCompletesOnlyPastTheChecks`).
  `CompletesWithADifferingSeal` replaces the seal right after that check; a process at rest before that point
  does not move at all (`DifferingSealNeverCompletes`).
- *The cutover event is the comms chain's first* (`src/comms/core/audit/cutover.py:284-286`). It is exactly when
  nobody appended between the emptiness test and the commit of the genesis (`GenesisIsFirst`); otherwise the
  cutover completes all the same (`IntrudedCompletes`). An occupied chain stops it iff no run still going has
  passed that test (`OccupiedChainBlocks`, `AlwaysResumable`).
- *The anchor only moves to a descendant of the row it named.* Where tables may be replaced or rolled back
  by anything that can be had without the writer's keys, a repair moves it so (`PlannedIsLed`). A restart that
  finds the anchor one event behind does exactly when the anchored row is still stored
  (`RecoveryDescendsExactly`), which the code does not compare; `RestartCanLeaveTheBranch` is a run in which
  it is not. A commit does exactly when the head it found has the place and MAC of a row on the branch
  (`CommitDescendsExactly`), in tables that pass and a head of the same epoch when the anchored row is still
  stored (`CommitOnReplacedTables`). Under these conditions all anchored heads lie on one branch
  (`HeadsStayOnOneBranch`).
- *Version numbers are never reused.* A registered number never is (`RegisteredIsForGood`). An unregistered
  one is, exactly when the last attempt failed its proof and its candidate was deleted; after a crash between
  the two it is not (`NumberIsReusedExactlyAfterADroppedCandidate`, `NumberReused`).
- *A candidate that failed its re-check is not ACTIVE afterwards.* The ACTIVE version failed its re-check
  exactly when the roll-back is still due or was lost to a crash (`FailedCandidatesAreNotActive`,
  `CrashLeavesFailedCandidateActive`; `FailedCandidateLeftActive` is such a run).
- *At most one message per job* needs every "not sent" verdict to be truthful, and one untruthful verdict on
  a job that may be retried does produce a second message (`AtMostOneMessage`,
  `UntruthfulVerdictDuplicates`; `DuplicateMessage` is such a campaign).

## Model

| member | source | states |
|---|---|---|
| RelayMail.SplitThenJoin | relay/src/mailbox.ts:90-100 | joining the parts cut from a body of any length, the empty one included, gives the body back, and no part exceeds the part bound |
| RelayMail.WholeBatch | src/comms/runtime/relay.py:231-249 | genuine rows with consecutive seqs and parts 0, 1, 2, ... that reach their own count are exactly one stored delivery, never a mix |
| RelayProtocol.WholeBatchOpens | src/comms/runtime/relay.py:250-261 | a whole batch that opens and verifies yields exactly the stored body, and Meta signed it |
| RelayProtocol.DeliveryOpensExactly | src/comms/runtime/relay.py:59-84 | the rows of a delivery open to its body and signature iff it was sent to one of our identities, its signature header is ASCII, it is within the bound and Meta signed it; otherwise the reason is that of the first of these that fails |
| RelayProtocol.BatchOpensExactly | src/comms/runtime/relay.py:246-264 | any batch, row by row: it opens to what its envelopes join to, or is refused for its first bad row, or for its size or signature |
| RelaySafety.RunKeeps | src/comms/runtime/relay.py:149-264 | every run of stores, purges, losses, acks, pulls, takes, advances and crashes keeps the invariant relating mailbox, inbox, quarantine, gaps and the tick in memory |
| RelaySafety.NothingLost | src/comms/runtime/relay.py:149-201 | each stored row is in the mailbox, behind a purge, settled, dropped by a faulty mailbox, or in a recorded gap |
| RelaySafety.AckedIsAccounted | src/comms/runtime/relay.py:203-229 | under arbitrary row loss every seq at most `acked_through` is settled, purged, or inside a recorded gap |
| RelaySafety.AckDeletesOnlyAccounted | relay/src/mailbox.ts:150-153 | an ack deletes no row that is neither settled, purged nor in a recorded gap |
| RelaySafety.QuarantineIsBounded | src/comms/runtime/relay.py:127-145 | over every run the quarantine keeps at most its bound of ciphertext |
| RelayProtocol.KeptWhileItFits | src/comms/runtime/relay.py:127-145 | refused rows keep their ciphertext as long as everything fits the bound |
| RelayProtocol.OneRowIsKept | src/comms/runtime/relay.py:127-145 | a single refused row is held under its reason, with its ciphertext iff it fits |
| RelaySafety.InboxIsWholeAndSigned | src/comms/runtime/relay.py:231-264 | every body in the inbox is the body of one stored delivery, with its signature |
| RelayHonest.PurgeEndsADelivery | relay/src/mailbox.ts:155-170 | an age purge cuts between two deliveries, without any assumption that times rise with seqs |
| RelayHonest.HonestRelayLosesNothing | src/comms/runtime/relay.py:149-229 | with an honest mailbox each stored row is held, purged by age or settled, and no gap is ever recorded |
| RelayHonest.CutsFallBetweenDeliveries | src/comms/runtime/relay.py:188-196 | purges end where a delivery ends, and progress stands inside a delivery iff it was last moved by giving up on a half-pulled batch, always below `purged_through` |
| RelayHonest.ProgressInsideAPurgedBatch | src/comms/runtime/relay.py:188-192 | a concrete honest run whose progress stops inside a delivery |
| RelayArrival.GoodMailArrives | src/comms/runtime/relay.py:231-264 | with an honest mailbox, once the collector is past a good delivery that no purge touched, its body is in the inbox and none of its rows is in quarantine |
| RelayArrival.BadMailIsHeld | src/comms/runtime/relay.py:248-260 | and every row of one that cannot be taken is in quarantine for its own reason, unless the same body came in another delivery |
| RelayMailbox.Mailbox.TakeToken | relay/src/mailbox.ts:80-87 | an attempt spends at most what was there and was earned since, tokens are lost only at the brim, and a delivery is refused iff less than one token is left |
| RelayMailbox.DeliveriesWithinTheRate | relay/src/mailbox.ts:80-87 | over any span of a clock that does not go back at most 60 deliveries plus the refill of that span are accepted |
| RelayMailbox.Mailbox.Store | relay/src/mailbox.ts:90-116 | 200 appends exactly the rows of one delivery under the next seqs; 429 changes no row |
| RelayMailbox.Mailbox.Pull | relay/src/mailbox.ts:123-148 | the page is the longest prefix of the rows after the cursor within the row and byte bounds, at least one row |
| RelayMailbox.Mailbox.Ack | relay/src/mailbox.ts:150-153 | a row stays iff its seq is above `through`, and repeating the ack deletes nothing more |
| RelayMailbox.Mailbox.Alarm | relay/src/mailbox.ts:155-170 | rows up to the last expired one go and `purged_through` never falls |
| RelayCollector.Collector.Quarantine | src/comms/runtime/relay.py:127-145 | every row is quarantined under its seq, an earlier entry is never replaced, and ciphertext is kept only while the total fits the bound |
| RelayCollector.Collector.Open | src/comms/runtime/relay.py:59-81 | opening rows in order gives the first refusal or the joined body with the first signature |
| RelayCollector.Collector.Take | src/comms/runtime/relay.py:231-264 | one row is taken exactly as the machine's step says |
| RelayCollector.Collector.Gap | src/comms/runtime/relay.py:214-222 | a gap is recorded exactly between the greater of cursor and purge and the row |
| RelayCollector.Collector.Consume | src/comms/runtime/relay.py:178-187 | one row of a page either advances progress to its seq or joins the batch in memory |
| RelayCollector.Collector.Pages | src/comms/runtime/relay.py:159-187 | the loop over the pages refines the machine, counts exactly what it did, and settles new mail within its forty pages |
| RelayCollector.PageGoesForward | src/comms/runtime/relay.py:174-175 | this mailbox never serves a page from behind the cursor, so the refusal of one is not reached |
| RelayCollector.Collector.RunOnce | src/comms/runtime/relay.py:149-201 | a tick is a run of the machine and its report counts what it pulled, stored and quarantined; with an honest mailbox holding new mail, no failure and no purge during the tick, it strictly raises `acked_through` |
| RelayTally.EveryRowIsCountedOnce | src/comms/runtime/relay.py:178-192 | conservation: over every run the rows taken are those of stored bodies, those quarantined, those a tick that ended early gave back, and those in memory |
| RelayTally.StoredIsShown | src/comms/runtime/relay.py:231-264 | one body is counted as stored iff a completed batch opens, and then and only then it is put in the inbox |
| RelayTally.QuarantinedIsShown | src/comms/runtime/relay.py:231-260 | the rows counted as quarantined are those added to it |
| AuditChain.Seals | src/comms/core/audit/chain.py:332-337 | the seal of each epoch is found, and an epoch with two is refused |
| AuditChain.CheckRows | src/comms/core/audit/chain.py:361-403 | the loop accepts iff every row continues its predecessor, opens its epoch or is the root, has a good MAC, and every epoch ends at its seal |
| AuditChain.VerifyUnder | src/comms/core/audit/chain.py:295-403 | with or without public keys and reasons, no error iff the tables are accepted, in both directions |
| AuditChain.VerifyChain | src/comms/core/audit/chain.py:295-403 | the same for the comms profile with its public keys |
| AuditHistory.ChosenIsGreatestEligible | src/comms/core/audit/retention_root.py:21-60 | the chosen root is the greatest signed checkpoint at or before the cutoff that names a stored row, or none is eligible |
| AuditHistory.ChooseRoot | src/comms/core/audit/retention_root.py:36-60 | the loop returns that root; what it reports as skipped does not verify, and every candidate above the root that does not verify is reported |
| AuditHistory.TruncationIsExact | src/comms/core/maintenance/retention.py:310-333 | the machine step in the same terms: no eligible checkpoint, or the root does not recompute: unchanged; otherwise the rows from the root's position on, in their order |
| AuditHistory.TruncateKeeps | formal/audit_model.py:95-125 | truncation cuts at a signed row, keeps the history invariant and never touches the head |
| AuditHistory.RunKeeps | src/comms/core/audit/chain.py:174-256 | every sequence of appends, seals, checkpoints and truncations keeps the stored rows a suffix of the issued chain from its start or a signed row |
| AuditExact.AcceptedIsABlock | src/comms/core/audit/chain.py:295-403 | accepted rows are a block of the issued chain starting at genesis or a signed row, even with checkpoints deleted or forged |
| AuditExact.SuffixVerifies | src/comms/core/audit/verify_all.py:71-89 | every suffix of the issued chain from its start or a signed row verifies |
| AuditExact.VerifyIsExact | src/comms/core/audit/verify_all.py:188-212 | after any deletion or edit of event rows, verify plus anchor-equals-head passes iff the rows are such a suffix ending at the anchored head |
| AuditExact.OperationsKeepVerifiability | src/comms/core/audit/chain.py:174-256 | the tables verify after every sequence of operations |
| AuditExact.EngineRefinesModel | formal/audit_model.py:60-86 | the engine over MACs, links and signatures gives the verdict the abstract model gives over positions alone |
| AuditIntegrity.AuditTables.AppendEvent | src/comms/core/audit/chain.py:174-198 | one row carrying the event is added, linked to the head in its epoch and with a MAC under the epoch key, or the first row of epoch 1; refused iff the epoch has no key, and then nothing changes |
| AuditIntegrity.AuditTables.InsertCheckpoint | src/comms/core/audit/chain.py:412-441 | one checkpoint is added that names the head and carries the signer's signature over it, the time and the reason; refused iff the chain is empty, and then nothing changes |
| AuditIntegrity.AuditTables.SealAndOpenEpoch | src/comms/core/audit/chain.py:201-256 | iff the head verifies under its epoch's key and the new key differs, the head is sealed and the first event opens the next epoch under the new key; otherwise nothing changes |
| AuditIntegrity.AuditTables.TruncateBefore | src/comms/core/maintenance/retention.py:310-333 | without an eligible checkpoint at the cutoff nothing is deleted; with one, exactly the rows before the greatest one's position go if its row recomputes to the signed MAC, and none if not |
| AuditIntegrity.CheckComms | src/comms/core/audit/verify_all.py:188-212 | no problem is reported iff the chain verifies and the anchor names its head |
| AuditIntegrity.DeriveIntegrity | src/comms/core/audit/anchor.py:142-174 | exactly when the verdict is CLEAN and exactly when it is RECOVERY_REQUIRED |
| AuditIntegrity.VerdictIsExact | src/comms/core/audit/anchor.py:142-174 | with the latest head anchored the verdict is CLEAN iff the stored rows are the issued chain, and FAIL_CLOSED otherwise |
| AuditIntegrity.RecoveryIsOneBehind | src/comms/core/audit/anchor.py:166-174 | RECOVERY_REQUIRED means the rows are the issued chain up to the row after the anchored one, in its epoch |
| AuditIntegrity.VerifyForRepair | src/comms/core/audit/repair.py:55-101 | repair is planned iff the anchor names a retained row of a chain that verifies, with good checkpoints and lineage |
| AuditIntegrity.RepairClimbs | src/comms/core/audit/repair.py:104-118 | after a planned repair the chain still verifies, its new head is the anchored one, and it lies above the row the old anchor named |
| AuditClimb.AnchoredHeadsClimb | src/comms/core/audit/repair.py:55-118 | with the tables left to the writer, over every run of commits, anchor failures, truncations and planned repairs the anchored heads strictly climb, each an ancestor of the next (with damage: `HeadsStayOnOneBranch`) |
| AuditClimb.AnchoredIsForGood | src/comms/core/audit/writer.py:1-9 | what was anchored once stays on the chain where it was, whatever follows |
| AuditClimb.RepairIsPlannedExactly | src/comms/core/audit/repair.py:55-101 | in such a run a repair is planned iff the anchored row is still stored |
| AuditClimb.RepairAnchorsTheHead | src/comms/core/audit/repair.py:104-118 | a planned repair whose refresh succeeds anchors the head it made, above the last one |
| AuditDescent.OneAncestorPerPlace | src/comms/core/audit/chain.py:174-256 | descent through rows and seals the writer made: at each place of a row's epoch, and of every earlier one if no epoch was ended twice, a single row is its ancestor |
| AuditDescent.LeadsFromStored | src/comms/core/audit/chain.py:295-403 | in rows that pass, within an epoch stored from its first row on, every ancestor of a stored row is stored |
| AuditDamage.HeadsStayOnOneBranch | src/comms/core/audit/repair.py:55-118 | tables replaced or rolled back between acts by anything had without the writer's keys, no commit on damaged tables, no recovering restart with the anchored row gone: each anchored head is an ancestor of every later one, through rows and seals the writer made |
| AuditDamage.NoOtherAncestor | src/comms/core/audit/repair.py:55-118 | in such a run no other row at an earlier head's place leads to a later head of its epoch, nor of a later epoch if no epoch was ended twice |
| AuditDamage.PlannedIsLed | src/comms/core/audit/repair.py:55-101 | a repair is planned only where the very row last anchored is stored and leads, through rows the writer made, to the stored head |
| AuditDamage.RecoveryDescendsExactly | src/comms/runtime/state.py:104-107 | a restart that finds the anchor one event behind moves it to a descendant of the anchored row iff that row is still stored; the code does not ask for that |
| AuditDamage.RestartCanLeaveTheBranch | src/comms/core/audit/anchor.py:166-174 | for all events there is a run, guarded up to its last act, in which such a restart anchors a row that is no descendant: rolled back, continued otherwise, rolled forward |
| AuditDamage.CommitDescendsExactly | src/comms/core/audit/writer.py:158-171 | on any non-empty tables, a commit that anchors what it appends keeps to the branch iff the head it found has the place and MAC of a row the anchored one leads to |
| AuditDamage.CommitOnReplacedTables | src/comms/core/audit/writer.py:158-171 | after any guarded run, on replaced tables of any length that pass from their genesis, with a head in the anchored row's epoch, a commit keeps to the branch iff they hold the anchored row |
| AuditDamage.CommitOnEmptiedTables | src/comms/core/audit/writer.py:158-171 | on emptied tables a commit never keeps to it |
| MutationSafety.RunKeeps | src/comms/services/mutations.py:197-453 | every run of requests, crashes, anchor failures, latch changes and recoveries keeps the invariant relating records, call log and executor |
| MutationSafety.AtMostOnce | src/comms/services/mutations.py:323-357 | a step whose policy is not `retry_same_key` is invoked at most once over any run |
| MutationSafety.SagaShape | src/comms/services/recovery.py:61-96 | a mutation settled NOT_ATTEMPTED was never invoked, and every other one has steps SUCCEEDED*, at most one other, PENDING* |
| MutationSafety.SucceededWasAnswered | src/comms/services/mutations.py:385-397 | a SUCCEEDED mutation had every step's last call answered SUCCEEDED with the recorded code, and calls go through the steps in order |
| MutationSafety.FailedWasAnswered | src/comms/services/mutations.py:357-397 | over every run a FAILED step of a mutation that was attempted was last answered FAILED, with the recorded code |
| MutationSafety.RecordTells | src/comms/services/mutations.py:363-397 | a step is recorded FAILED iff answered so, SUCCEEDED iff answered so and not an unnamed last step, unknown otherwise; with the code of the answer, and no other step changes |
| MutationSafety.OutcomeIsShown | src/comms/services/mutations.py:385-397 | what is settled, and what is being closed, is what the steps show: all succeeded, one failed with that code, or one unknown (a retried unknown outcome apart) |
| MutationSafety.RecoveryReadsTheSteps | src/comms/services/recovery.py:61-96 | which state recovery gives, read off the steps: SUCCEEDED iff all succeeded, OUTCOME_UNKNOWN iff one was started or is unknown, FAILED iff none was tried or one failed and none is unknown |
| MutationSafety.RecoverySettlesTheSteps | src/comms/services/recovery.py:61-96 | untried steps are settled as NOT_ATTEMPTED, started ones as unknown, and no others change |
| MutationSafety.RecoveredCodeIsTheFirst | src/comms/services/recovery.py:84-88 | a recovered FAILED carries the code of the first step that failed |
| MutationSaga.RecoveryWrites | src/comms/services/recovery.py:61-96 | recovery writes what the steps show, changes no other record, calls nobody, and latches when its commit is not anchored |
| MutationSaga.LocalWriteCommitsWhole | src/comms/services/mutations.py:144-193 | a new local write on a healthy daemon leaves one SUCCEEDED record with what it made and nothing pending; with the latch set, or a known id, nothing |
| MutationSaga.NewWriteComesToItsAnswer | src/comms/services/mutations.py:197-397 | undisturbed, a new write calls each step once in order up to the first that does not succeed, and record and answer are exactly what was answered, with what was made |
| MutationSaga.RepeatedWriteComesToItsAnswer | src/comms/services/mutations.py:268-289 | a request repeated for an interrupted write, or the one retry of an unknown outcome, calls the steps from the first not yet succeeded on, and comes to its answer likewise |
| MutationSaga.RepeatedWriteIsUnknown | src/comms/services/mutations.py:331-341 | where that step was started and may not be repeated, nothing is called and the answer is OUTCOME_UNKNOWN |
| MutationSafety.RecoveryIsExact | src/comms/services/recovery.py:61-96 | recovery leaves IN_FLIGHT exactly the sagas of form SUCCEEDED+ PENDING+, unchanged, and is idempotent |
| MutationReplay.FinalIsStable | src/comms/services/mutations.py:268-270 | once SUCCEEDED or FAILED the record and its replay answer never change and no later event invokes the adapter for it |
| MutationReplay.UnknownIsRetriedOnce | src/comms/services/mutations.py:271-278 | after OUTCOME_UNKNOWN is recorded each step is invoked at most once more, and not at all unless the policy allows the retry |
| MutationReplay.OtherDigestChangesNothing | src/comms/services/mutations.py:237-239 | at any later time a request under a recorded id with another digest changes nothing |
| MutationReplay.CarefulRunsInvokeTwiceAtMost | src/comms/services/mutations.py:15-18 | no step is invoked more than twice in a run in which no request resumes a mutation in flight with a started `retry_same_key` step |
| MutationReplay.NoBoundOtherwise | src/comms/services/mutations.py:344-397 | every other run, from the first such request on, can be led to any number of invocations of that step with the records unchanged, whatever the latch |
| MutationReplay.ReinvokedWithoutBound | src/comms/services/mutations.py:358-384 | such runs exist from the empty database, for every number of invocations |
| MutationExecutor.Executor.Local | src/comms/services/mutations.py:144-193 | a local write is one transaction that commits whole; another digest is refused, a recorded request is answered from its record and changes nothing, and a new answer is anchored |
| MutationExecutor.Executor.Provider | src/comms/services/mutations.py:197-303 | refused as reuse iff the digest differs; a final record is answered word for word with no call; every answer is the record; an answer that is not a replay is anchored, if others leave the latch alone meanwhile |
| MutationExecutor.Executor.Serve | src/comms/services/mutations.py:126-303 | over any sequence of requests with restarts and latch changes between them, a step that may not be repeated is called at most once and what was final still answers the same |
| MutationExecutor.Executor.RunSteps | src/comms/services/mutations.py:305-397 | the loop over the steps refines the machine and its answer is what the record says |
| MutationExecutor.Executor.Arm | src/comms/services/mutations.py:344-353 | the step has left PENDING durably before the call, and only if the latch was clear at the test; a latch that others set right after the test does not stop it |
| MutationExecutor.Executor.RecordStep | src/comms/services/mutations.py:399-421 | the step is recorded FAILED iff answered FAILED, SUCCEEDED iff answered SUCCEEDED and not an unnamed last step, unknown otherwise, with the code; a failed anchor sets the latch |
| MutationExecutor.Executor.CloseMutation | src/comms/services/mutations.py:423-444 | the mutation is finished with its result, or the known state is answered as degraded |
| MutationExecutor.Executor.MarkAndAnswer | src/comms/services/mutations.py:446-453 | the mutation is marked degraded and the known state answered |
| MutationExecutor.KindOf | src/comms/services/recovery.py:61-96 | the counter a mutation falls under is the one its recovered record belongs to |
| MutationExecutor.Executor.RecoverMutations | src/comms/services/recovery.py:61-96 | a completed recovery has settled every record by what it proves, called no provider, left only resumable sagas, and its counters add up |
| CampaignSafety.RunKeeps | formal/campaign_model.py:174-272 | every run of operations keeps the bookkeeping invariant over jobs, keys and monitors |
| CampaignSafety.SummaryIsExact | formal/campaign_model.py:121-134 | what each of the six summaries says about the jobs, both ways |
| CampaignSafety.BooksBalance | formal/campaign_model.py:300-318 | in every reachable state the summary is the recomputed one, SENDING has an active job and COMPLETE none, no monitor is set, attempts stay within max(1, cap), no early update is lost, and a (generation, job) key names one content |
| CampaignSafety.ClaimsAreDue | formal/campaign_model.py:225-239 | a claim happens not before the send time, of an unblocked job, and sends iff the job is eligible |
| CampaignSafety.DeliveredIsForGood | formal/campaign_model.py:87-118 | DELIVERED is absorbing over the rest of the campaign |
| CampaignOutcomes.RecordedAsAnswered | formal/campaign_model.py:245-252 | over every run, recording what the last provider call came back with leads to FAILED_TRANSIENT, OUTCOME_UNKNOWN, FAILED_PERMANENT, ACCEPTED or DELIVERED exactly as it was answered, with an early status applied on top |
| CampaignOutcomes.ClaimTries | formal/campaign_model.py:225-239 | a claim tries the eligible job once more and skips the other for good |
| CampaignOutcomes.ResolveDecides | formal/campaign_model.py:266-272 | a verdict on an unknown outcome makes it ACCEPTED or FAILED_TRANSIENT and unblocks it |
| CampaignOutcomes.UpdateCounts | formal/campaign_model.py:253-258 | the first status is kept until the reference is bound; then a delivery raises ACCEPTED and a failure fails it |
| CampaignOutcomes.StatusRaises | formal/campaign_model.py:87-95 | on any job a reported success raises and never lowers, and a failure counts only for the current attempt and what is in flight, accepted or unknown |
| CampaignOutcomes.RetryReopens | formal/campaign_model.py:198-204 | exactly the transiently failed jobs with attempts left are PENDING again, and the campaign sends |
| CampaignOutcomes.CancelStops | formal/campaign_model.py:185-197 | while sending exactly the jobs not yet tried are cancelled; before that the campaign is withdrawn |
| CampaignOutcomes.RecoverBlocks | formal/campaign_model.py:205-212 | after a crash exactly the jobs in flight become unknown and blocked |
| CampaignOutcomes.FreezeStarts | formal/campaign_model.py:152-175 | a new generation has one fresh job for each endpoint and one key for each job |
| CampaignOutcomes.CampaignComesToItsSummary | formal/campaign_model.py:121-135 | a campaign of any size, each job tried once, ends COMPLETE with every job as it was answered and the summary that follows |
| CampaignMessages.MessagesAreHeld | formal/campaign_model.py:240-252 | with truthful verdicts the messages received for an index are exactly the one the provider holds, or none |
| CampaignMessages.AtMostOneMessage | formal/campaign_model.py:174-272 | at most one message per job index over all generations, retries and crashes, if every "not sent" verdict is truthful |
| CampaignMessages.UntruthfulVerdictDuplicates | formal/campaign_model.py:266-271 | one untruthful verdict on a job that may be retried leads to a second message |
| CampaignMessages.DuplicateMessage | formal/campaign_model.py:240-271 | a concrete campaign in which the provider receives two messages for one job |
| CampaignMessages.DeliveriesAreSeparated | formal/campaign_model.py:98-118 | between two deliveries of one job lies a recorded transient failure or a "not sent" resolution of it |
| CanonicalInjective.EscapedUnique | src/comms/core/canonical.py:49-54 | escaped strings followed by a quote can be read in one way only |
| CanonicalInjective.WriteUnique | src/comms/core/canonical.py:49-54 | no written value followed by anything but a digit can be read as another value |
| CanonicalInjective.OrderIsUnique | src/comms/core/canonical.py:52-53 | there is one ascending listing of the keys, so insertion order does not matter |
| CanonicalInjective.DumpsIsInjective | src/comms/core/canonical.py:16-54 | two canonicalizable values with the same bytes are the same value |
| CanonicalReader.DumpsReadsBack | src/comms/core/canonical.py:48-54 | the bytes are UTF-8 and decode to a JSON text that a reader made from the grammar of RFC 8259 reads as the value, to the last character |
| CanonicalReader.WriteReadsBack | src/comms/core/canonical.py:52-54 | what is written, followed by anything but a digit, reads back as the value and no further |
| CanonicalReader.EscapesAreShortest | src/comms/core/canonical.py:52-54 | the short escape is used wherever there is one, the six-character one only for other control characters and in lower case, and nothing else is escaped |
| CanonicalReader.Utf8Decodes | src/comms/core/canonical.py:54 | a decoder after section 3 of RFC 3629 gives the text back |
| CanonicalReader.RefusedExactly | src/comms/core/canonical.py:17-45 | exactly floats, lone surrogates, keys that are not ASCII strings, what JSON does not have, and what contains one of these is refused |
| CanonicalInjective.DomainsSeparate | src/comms/core/domains.py:28-49 | messages under two NUL-terminated domains are equal only if domain and rest are equal |
| CanonicalInjective.RequestBodyBinds | src/comms/services/mutations.py:83-85 | the request digest binds the tool, every argument and every target |
| CanonicalInjective.OpBodyBinds | src/comms/services/mutations.py:97-99 | the operation key binds the client and the request id |
| CanonicalInjective.MacMessageBinds | src/comms/core/audit/chain.py:109-125 | the MAC preimage binds domain, epoch, sequence number, previous MAC and every column |
| CanonicalReader.MacMessageLayout | src/comms/core/audit/chain.py:109-125 | read from the front the preimage is the domain, eight octets of epoch, eight of sequence number, the previous MAC and the columns as a JSON object |
| CanonicalReader.RequestBodyReads | src/comms/services/mutations.py:83-85 | the bytes under a request digest are a JSON object of exactly tool, arguments and targets |
| CutoverSafety.PhaseMovesForward | src/comms/core/audit/cutover.py:134-145 | over any later schedule the phase only moves forward, and the cut ref and the digest never change once set |
| CutoverSafety.OneStepForward | src/comms/core/storage/migrations.py:242-246 | one event moves the phase to its exact next one or not at all |
| CutoverSafety.CompleteOnce | src/comms/core/audit/cutover.py:274-347 | COMPLETE means one genesis event, one revocation event and one lineage row bound to the recorded digest and to that genesis, which is anchored, whatever happened to the legacy side |
| CutoverSafety.GenesisIsFirst | src/comms/core/audit/cutover.py:295-322 | once committed, the cutover event is the comms chain's first iff nobody appended between the emptiness test and that commit |
| CutoverSafety.IntrudedCompletes | src/comms/core/audit/cutover.py:297-347 | a concrete run to COMPLETE whose comms chain begins with another event |
| CutoverSafety.CompleteMatchesTheSeal | src/comms/core/audit/cutover.py:194-209 | with the legacy side left alone exactly one seal was made, and the lineage row carries its epoch, head, digest and key id and the cut's ref |
| CutoverSafety.RevocationIsRecorded | src/comms/core/audit/cutover.py:330-341 | the one revocation event carries the cut's ref and the count and security epoch that the last revocation of the legacy clients reported |
| CutoverSafety.DifferingSealNeverCompletes | src/comms/core/audit/cutover.py:252-271 | before its last check, a process at rest whose seal is not the recorded one stays in its phase under every later run |
| CutoverSafety.DifferingSealCompletesOnlyPastTheChecks | src/comms/core/audit/cutover.py:330-347 | with a differing seal the cutover can still complete iff the last check of the seal passed in the run still going, or the revocation is recorded |
| CutoverSafety.CompletesWithADifferingSeal | src/comms/core/audit/cutover.py:330-347 | a concrete run to COMPLETE in which the seal is replaced after its last check and before the clients are revoked |
| CutoverSafety.CrashesLeaveNoTrace | src/comms/core/audit/cutover.py:350-360 | a cutover that completes under any schedule of crashes and reruns leaves what some uninterrupted one leaves |
| CutoverSafety.AlwaysResumable | src/comms/core/audit/cutover.py:157-210 | from every interrupted state the cutover can be completed if, before its genesis, the comms chain is empty or the run still going found it so |
| CutoverSafety.OccupiedChainBlocks | src/comms/core/audit/cutover.py:297-303 | otherwise it never gets past LEGACY_ANCHORED |
| CutoverSafety.RevocationDecidesTheAnchor | src/comms/core/audit/cutover.py:330-346 | after the revocation the head stays anchored iff that transaction's refresh succeeded |
| CutoverSafety.CompleteUnanchored | src/comms/core/audit/cutover.py:343-346 | a concrete run to COMPLETE with an unanchored head |
| CutoverRun.Cutover.SealOnce | src/comms/core/audit/cutover.py:194-201 | an existing seal is reused, and the recorded digest is that of the seal that was read |
| CutoverRun.Cutover.CheckLineage | src/comms/core/audit/cutover.py:260-271 | passes iff there is one row equal to this seal with a digest that recomputes |
| CutoverRun.Cutover.AdvanceLegacy | src/comms/core/audit/cutover.py:157-210 | refines the machine whatever others do at every seam, between a check and its act too; the phase passes draining and verification only if the legacy side reported them; done means the legacy side is anchored, and a conflict means the seal is not the recorded one |
| CutoverRun.Cutover.AdvanceComms | src/comms/core/audit/cutover.py:274-347 | refines the machine whatever others do at every seam, between a check and its act too; done means COMPLETE, and before LEGACY_ANCHORED nothing happens |
| CutoverRun.Cutover.CommitLineage | src/comms/core/audit/cutover.py:304-319 | the lineage is that of the seal that was read, and the cutover event goes behind whatever the chain holds by then |
| CutoverRun.Cutover.RunCutover | src/comms/core/audit/cutover.py:350-360 | done means COMPLETE, and no run moves the phase back |
| CredentialSafety.RunKeeps | src/comms/core/credentials.py:89-169 | every sequence of rotations, revocations and crashes keeps the invariant over slots, secrets and attempts |
| CredentialSafety.ActiveIsUniqueAndStored | src/comms/core/credentials.py:70-79 | at most one version is ACTIVE and its material is stored under the registered id |
| CredentialSafety.RegisteredIsForGood | src/comms/core/credentials.py:103-118 | a registered number is never handed out again and never names another credential |
| CredentialSafety.NumberIsReusedExactlyAfterADroppedCandidate | src/comms/core/credentials.py:103-121 | the next rotation takes a number handed out before iff the last attempt failed its proof and its candidate was deleted |
| CredentialSafety.NumberReused | src/comms/core/credentials.py:119-121 | a concrete run that hands out one number twice |
| CredentialSafety.FailedCandidatesAreNotActive | src/comms/core/credentials.py:119-148 | the ACTIVE version passed its proof, and it failed its re-check iff the roll-back is due or was lost to a crash |
| CredentialSafety.CrashLeavesFailedCandidateActive | src/comms/core/credentials.py:135-148 | a crash between the failed re-check and the roll-back leaves the candidate ACTIVE |
| CredentialSafety.FailedCandidateLeftActive | src/comms/core/credentials.py:135-148 | such a run from the empty tables |
| CredentialSafety.DeletedOnlyAfterTheRecheck | src/comms/core/credentials.py:149-169 | registered material is deleted only by a revocation or as the predecessor of an ACTIVE, stored version that passed its re-check |
| CredentialOutcomes.RotationReplaces | src/comms/core/credentials.py:89-153 | both checks pass: the candidate is ACTIVE with its material, its predecessor DESTROYED and its material gone, nothing else changed |
| CredentialOutcomes.FailedProofLeavesNothing | src/comms/core/credentials.py:119-121 | the proof fails: tables as before |
| CredentialOutcomes.FailedRecheckRollsBack | src/comms/core/credentials.py:135-148 | the re-check fails: the predecessor is ACTIVE again with its material, the candidate ORPHAN |
| CredentialOutcomes.UnanchoredRotationLatches | src/comms/core/credentials.py:122-134 | a registration that is not anchored stands, and the latch stops the next rotation |
| CredentialOutcomes.RevocationDestroys | src/comms/core/credentials.py:156-169 | the active version's slot is DESTROYED and its material gone, nothing else changed |
| CredentialStore.Credentials.NextVersion | src/comms/core/credentials.py:103-117 | one more than the greatest number in either table |
| CredentialStore.Credentials.ActiveCredential | src/comms/core/credentials.py:70-79 | none iff no version is ACTIVE, otherwise the stored material of the ACTIVE version |
| CredentialStore.Credentials.Rotate | src/comms/core/credentials.py:89-153 | success leaves the new version active and its predecessor destroyed; a failed check that ran to its end leaves the working credential working |
| CredentialStore.Credentials.RevokeActive | src/comms/core/credentials.py:156-169 | refused iff nothing is active; afterwards nothing is, its slot is DESTROYED, its material gone, and nothing else changed |
| Base64.RoundTrip | src/comms/services/uploads.py:60-70 | what is encoded decodes to itself, for every length |
| Base64.DecodesExactly | src/comms/services/uploads.py:60-70 | a text decodes iff it is whole groups of four of the alphabet with at most two equals signs at the very end |
| Base64.AlphabetIsExact | src/comms/services/uploads.py:60-70 | a digit is its place in table 1 of RFC 4648 |
| Base64.GroupIsTheSameBits | src/comms/services/uploads.py:60-70 | four digits and three bytes are the same twenty-four bits |
| StagedMediaModel.DecodeB64 | src/comms/services/uploads.py:60-70 | accepts exactly strict base64 of 1 to `limit` bytes, so the length guard before decoding refuses nothing that would have fitted |
| StagedMediaModel.PieceArrives | src/comms/services/uploads.py:60-70 | every piece within the limit can be sent and arrives as it was |
| StagedMediaSafety.RunKeeps | src/comms/services/uploads.py:89-165 | every sequence of calls with a monotone clock keeps the invariant over uploads, replies, taken files and their history |
| StagedMediaSafety.PiecesAreTheUpload | src/comms/services/uploads.py:134-144 | the bytes received are the accepted pieces in order, never more than declared, and no request contributes two |
| StagedMediaSafety.ReplayAppendsNothing | src/comms/services/uploads.py:89-100 | while the upload lives a replayed chunk finds its stored reply and appends nothing |
| StagedMediaSafety.TakenIsTheFile | src/comms/services/uploads.py:146-165 | a file that is taken has the declared length, digest and type, and goes to the client that began it |
| StagedMediaSafety.OneTakerEver | src/comms/services/uploads.py:146-165 | at most one (client, request id) ever obtains a staged file, and always the same bytes |
| StagedMediaSafety.HeldIsWhatWasPutThere | src/comms/services/uploads.py:167-174 | whoever pages through a download gets the file the same client put there last, within its life |
| StagedMediaArrival.BegunExactly | src/comms/services/uploads.py:116-125 | an upload begins iff media type, size and digest are well-formed, empty and for five minutes |
| StagedMediaArrival.ChunkTakenExactly | src/comms/services/uploads.py:127-144 | over every run a chunk is taken iff the caller owns the live upload, it is the next one, decodes to 1 byte to 32 KiB and fits the declared size; the reply counts what was accepted and says whether that is all |
| StagedMediaArrival.TakenExactly | src/comms/services/uploads.py:146-165 | a first take succeeds iff the caller owns the live upload, the accepted pieces make up the declared size and have the declared digest; it is gone from staging either way |
| StagedMediaArrival.TakenAgainExactly | src/comms/services/uploads.py:146-156 | a taken file is served again iff this request obtained it, with the same bytes |
| StagedMediaArrival.HeldExactly | src/comms/services/uploads.py:167-174 | a held download is found iff five minutes have not passed |
| StagedMediaArrival.WholeUploadArrives | src/comms/services/uploads.py:116-165 | any file of up to 16 MiB sent in any pieces of up to 32 KiB is handed over byte for byte with its media type |
| StagedStore.StagedMedia.Sweep | src/comms/services/uploads.py:105-114 | exactly the entries that expire after the reading remain |
| StagedStore.StagedMedia.Begin | src/comms/services/uploads.py:116-125 | a new upload under a new ref, or a refusal that stages nothing |
| StagedStore.StagedMedia.Chunk | src/comms/services/uploads.py:134-144 | the piece is appended iff the caller owns the upload, the sequence number is the next one, and it fits |
| StagedStore.StagedMedia.Replayed | src/comms/services/uploads.py:89-100 | a staging call is one step of the machine, replayed iff its reply is still stored |
| StagedStore.StagedMedia.TakeFile | src/comms/services/uploads.py:146-165 | taking is one step of the machine |
| StagedStore.StagedMedia.HoldDownload | src/comms/services/uploads.py:167-169 | the file becomes the last one this client put there under that name, with a new life |
| StagedStore.StagedMedia.HeldDownload | src/comms/services/uploads.py:171-174 | a page is served only from the last file this client put there |

## Left out

- Cryptography itself (HMAC, Ed25519, age, SHA-256, SQLCipher): ideal functions and the `Unforged` hypothesis stand in for it.
- Relay: error classification and clock skew of a failed pull, the `on_verified` hook, rows altered by the relay (it may lose rows, not forge them), and Worker routing.
- Relay progress uses the Worker's body bound of 8 MiB, which lies outside `mailbox.ts`.
- Audit: a missing chain key raised as a key-slot error, and the legacy section of `verify_all`; plain checkpoints never carry the seal's reason, and the writer appends only to an intact head. The lineage section is a list of pairs in `VerifyForRepair`.
- AuditIntegrity.DeriveIntegrity: takes no root, like the code, so it speaks of chains that start at genesis.
- Mutations: calls for one request id do not overlap (the code reads the steps once and takes no lock); argument validation, capability lookup and object refs are reduced to policies, an `unnamed` flag and an optional made ref; audit events appended by each transaction are not listed.
- Mutations: a replayed SUCCEEDED answer does not consult the audit status, so "anchored" is claimed of non-replayed answers only.
- Campaign: `explore` and the bounds of its search (two jobs, two generations, cap two) are replaced by induction over runs of any size.
- Canonical JSON: which of several faults an unencodable value is refused for; `_digestible` replaces file bytes by digest and size before encoding.
- AuditClimb: the tables are left to the writer; `AuditDamage` has them replaced between acts. There the anchor file itself is not touched, nobody but the writer makes MACs or signatures under its keys (`Genuine`), and whether a commit waits for a restart or a repair after damage is the hypothesis `Guarded`.
- Cutover: one process at a time runs it; polling and timeouts of the drain are one free choice, file anchors are a count of anchored events, and chain domains are constants.
- Credentials: one purpose (rows of other purposes are separate), one rotation or revocation at a time, and the confirmed-in-operation flags.
- Staged media: `Staged` is a value in the dictionary, not an object of its own (nothing else holds it); the decoder, like the library's strict mode, does not ask unused bits to be zero.
- Random refs are new values; file permissions, sockets, leases, OAuth, tool catalogues and provider adapters add only wiring.
- `formal/keys_model.py`, `formal/model.py` and `formal/operations_model.py` would add only easy members.
