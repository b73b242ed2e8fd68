# Verified models of the SACM control plane

SACM runs software-delivery work on a fleet of remote executors, keeps an explainable history of
every project, and prepares bounded context for its agents. This project models the parts of it
whose correctness depends on interleavings, crashes or arithmetic, and proves what they promise.

Check everything with `dafny verify dfyconfig.toml`.

## Parts

- **Leases** (`LeaseRecords`, `LeaseSpec`, `LeaseInvariant`, `LeaseRuns`, `LeaseWitnesses`, `SplitClaim`,
  `UnlockedRuns`, `ControlPlane`). The
  execution plane and the credential service as one protocol over shared tables. Each call is a
  function from tables to tables and a reply; a run is any sequence of calls and clock ticks. The
  class `ControlPlane.Service` changes the tables in place, with the loops of the services, and is
  proved equal to those functions. `SplitClaim` and `UnlockedRuns` take apart the calls that the
  database does not lock: the claim on SQLite, and the exchange of credential material.
- **Bounded search** (`GraphBall`, `BreadthFirst`, `ContextTraversal`, `ImpactAnalysis`). The two
  breadth-first searches, compared with the ball defined by walks.
- **JSON pre-flight** (`JsonPreflight`). The one-pass scanner, compared with the tree of every text.
- **Crash-safe files** (`NodeCache`, `ScipCache`). The shared npm snapshot and the SCIP index with
  its manifest, as state machines of single file-system steps; every process can fail or die
  between any two.
- **Cognitive history** (`CognitiveLog`, `CognitiveHistory`, `CognitiveStore`). The append-only log,
  its snapshots, time travel and the event chain.
- **Evidence** (`EvidenceChecksums`, `EvidenceChain`). The checksum file and the chain of packs.
- **Commit queue** (`CommitQueue`, `CommitQueueService`). The leased retry queue joined with the log.
- **Token budget** (`TokenBudget`, `PackageLength`, `ContextCompiler`). Compiling a context within a budget.

## Assumptions

- Lease and worker tokens are fresh. Hashes and signatures are injective: free constructors, or in
  `EvidenceChecksums` an injective function parameter.
- Every service method is one atomic transaction with one clock reading, except the claims and
  exchanges in `UnlockedRuns` and the commits inside recording a result. The clock never runs
  backwards; in the cognitive log and the pack chain it never shows the same time twice.
- Calls into code outside the model are parameters: whether a run and its step exist, whether a
  provider returned material, whether a result is accepted downstream and committed on the way, whether
  an analytics refresh failed, to what a commit name is resolved at an
  attempt, what a JSON parser makes of an
  index, which characters beyond ASCII are printable.

## Where the code does not do what its text suggests

Each of these has a lemma that shows it and one that says exactly when it happens.

- A result is accepted after its lease has expired until a recovery has run, because `_owned_job` does
  not look at the expiry (sacm/core/execution_plane_service.py:1041-1059):
  `LeaseWitnesses.LateResultIsAccepted`, `LeaseRuns.FirstResultAcceptedIff`.
- An acquisition looks only at the first hundred eligible jobs, so it can answer that there is no
  work although a later job matches: `LeaseWitnesses.NoWorkDespiteMatch`, `LeaseRuns.AcquireIsFifo`.
- On SQLite a claim can lose an attempt, or lease to an executor that was revoked after the candidate
  was read: `SplitClaim.LedgerCanBreak`, `SplitClaim.LedgerSurvivesIff`, `SplitClaim.RevokedCanBeLeased`,
  `UnlockedRuns.InvThroughoutIff`.
- An exchange checks a credential, fetches and then writes without a lock, so two of them can hand out the
  material of one credential, and one can hand it out after a revocation: `UnlockedRuns.MaterialTwice`,
  `UnlockedRuns.HandedAtMostOnceIff`, `UnlockedRuns.MaterialAfterRevocation`, `UnlockedRuns.HandOutIsNeverRefused`.
- The keys of `reasons` after a traversal, stored as `seed_node_ids`
  (sacm/core/context_engine_service.py:102), are all nodes that got a distance, not the seeds:
  `ContextTraversal.SeedKeysExample`, `ContextTraversal.ReasonKeysAreSeedsIff`.
- Time travel fails after the public event endpoint records a creation of an indexed commit
  (apps/api/routes/cognitive_state.py:56-68): `CognitiveHistory.RecreationExample`,
  `CognitiveHistory.TimeTravel`. The same event is the only way to index a commit twice:
  `CognitiveHistory.DoubleIndexExample`, `CognitiveHistory.IngestionIsIdempotent`, `CommitQueue.RetriesIndexOnce`.
- The comment on delivery snapshots (sacm/core/cognitive_state_service.py:508-510) says that they
  include the delivery; with an indexed commit they do not: `CognitiveHistory.DeliverySnapshotAtCommit`,
  `CognitiveHistory.DeliverySnapshotNow`.
- Verifying a pack from before chaining that has a predecessor reports an invalid chain without an
  error, and verifying the whole chain then reports a valid one: `EvidenceChain.ValidChainOverInvalidPack`,
  `EvidenceChain.ChainVerdictAgrees`.
- The token budget can be exceeded by mandatory text, or by a package whose reason is written with many
  escapes: `ContextCompiler.MandatoryCanOverrun`, `ContextCompiler.HeaderCanOverrun`,
  `ContextCompiler.WithinBudgetIff`. The program itself compiles packages with three short reasons only
  (sacm/core/context_briefing_service.py:33, sacm/core/orchestrator.py:328-335), so as it stands only
  mandatory text can exceed the budget: `ContextCompiler.ProgramStaysWithinBudget`.

## Model

| member | source | states |
|---|---|---|
| `LeaseInvariant.StepKeepsInv` | sacm/core/execution_plane_service.py:302-1109 | Every call of the execution plane and the credential service, whoever makes it and whatever it carries, keeps the joint invariant of the job, executor and credential tables. |
| `LeaseInvariant.AcquireKeepsInv` | sacm/core/execution_plane_service.py:608-665 | An acquisition (recovery of expired leases, choice, grant) keeps the joint invariant. |
| `LeaseInvariant.FinishKeepsInv` | sacm/core/execution_plane_service.py:874-1024 | Completing or failing a job, with revocation of its credentials, analytics and a scheduled retry, keeps the joint invariant. |
| `LeaseInvariant.RevokeExecutorKeepsInv` | sacm/core/execution_plane_service.py:465-496 | Revoking an executor, which releases its jobs and revokes its credentials, keeps the joint invariant. |
| `LeaseInvariant.ReleaseKeepsInv` | sacm/core/execution_plane_service.py:1076-1109 | Releasing any set of active jobs to the queue or the dead-letter state keeps the joint invariant. |
| `LeaseInvariant.CancelKeepsInv` | sacm/core/run_service.py:402-437 | Cancelling the open jobs of a run keeps the joint invariant. |
| `LeaseInvariant.CredentialStepKeepsInv` | sacm/core/credential_lease_service.py:174-435 | Issuing, exchanging, renewing and revoking credentials keep the joint invariant. |
| `LeaseRuns.ReachableInv` | sacm/core/execution_plane_service.py:302-1109 | The joint invariant holds after every run: any executors, any interleaving, any passage of time. |
| `LeaseRuns.LeaseTable` | sacm/core/execution_plane_service.py:608-665 | In every reachable state the lease columns are filled exactly while a job holds or finished under a lease, attempts stay within the limit, active work is never owned by a revoked executor, and a result is stored exactly for finished jobs. |
| `LeaseRuns.CredentialsFollowLeases` | sacm/core/credential_lease_service.py:437-467 | In every reachable state an unrevoked credential belongs to a leased or running job whose owner is that credential's executor, and that executor is not revoked. |
| `LeaseRuns.CredentialsAreShortLivedAndSingle` | sacm/core/credential_lease_service.py:186-236 | In every reachable state a credential expires within 900 seconds of its issue, through any renewals, and at most one live unused credential exists per job, executor and requirement. |
| `LeaseRuns.StepEvolves` | sacm/core/execution_plane_service.py:608-1109 | No job row disappears, every row changes only in one of the listed ways, and calls of the credential service change no job. |
| `LeaseRuns.Fencing` | sacm/core/execution_plane_service.py:1041-1074 | Once a job has let go of a lease token, every later call presenting that token, on any job, by anyone, after any interleaving, is rejected and changes nothing. |
| `LeaseRuns.DeadForever` | sacm/core/execution_plane_service.py:629-663 | A token held by no job is never held again. |
| `LeaseRuns.DeadIsRejected` | sacm/core/credential_lease_service.py:551-598 | Start, heartbeat, finish, issue, exchange and renew all reject a token that no job holds, without any effect. |
| `LeaseRuns.AttemptLedger` | sacm/core/execution_plane_service.py:1076-1102 | Until its attempts are reset by hand, a job that was not cancelled has used one attempt per recovery plus one if it holds or finished under a lease. |
| `LeaseRuns.BoundedStateChanges` | sacm/core/execution_plane_service.py:617-642 | Without a manual requeue a job changes state at most three times per allowed attempt, plus once for a cancellation, in every run; an acquisition that releases and leases the same job again counts twice. |
| `LeaseRuns.ResultsAreWriteOnce` | sacm/core/execution_plane_service.py:874-945 | After a job is finished no run changes its state, result contract, result hash or signature. |
| `LeaseRuns.ResubmissionIsIdempotent` | sacm/core/execution_plane_service.py:887-898 | The owner of a finished job who submits again is acknowledged exactly when outcome and result are the stored ones; anything else is rejected without effect. |
| `LeaseRuns.FirstResultAcceptedIff` | sacm/core/execution_plane_service.py:882-960 | For the owner of an active job a first result is acknowledged exactly when hash, identity, outcome and signature check, it is accepted downstream and its retry is not refused, and stored exactly then or when it was committed before a refusal; otherwise nothing changes. The expiry of the lease plays no part. |
| `LeaseRuns.ResultsComeUnderHeldTokens` | sacm/core/execution_plane_service.py:1041-1059 | After any run, a result that is acknowledged, however late, was presented under a token that is not lost, for the job it was issued for. |
| `LeaseWitnesses.LateResultIsAccepted` | sacm/core/execution_plane_service.py:882-886 | A reachable state whose lease has expired and whose result is acknowledged and stored. |
| `LeaseWitnesses.NoWorkDespiteMatch` | sacm/core/execution_plane_service.py:617-630 | A reachable state with a hundred queued jobs the executor cannot do and one it can, in which it is told that there is no work. |
| `SplitClaim.StaleClaimKeepsInvIff` | sacm/core/execution_plane_service.py:642-652 | The claim on SQLite, after any calls between reading a candidate and updating it, keeps the joint invariant exactly unless it leases to an executor revoked meanwhile. |
| `SplitClaim.OneHolder` | sacm/core/execution_plane_service.py:642-652 | After such a claim a second one does nothing, and an executor and token pass the checks exactly if they are those of the claim and the claimer is online. |
| `SplitClaim.LedgerSurvivesIff` | sacm/core/execution_plane_service.py:633-652 | The attempt ledger survives such a claim exactly when the attempt that was read is still that of the row. |
| `SplitClaim.LedgerCanBreak` | sacm/core/execution_plane_service.py:633-652 | A reachable interleaving (read, lease, expiry, recovery, update) after which an attempt is lost. |
| `SplitClaim.RevokedCanBeLeased` | sacm/core/execution_plane_service.py:642-652 | A reachable interleaving (read, revocation, update) after which a revoked executor owns an active job. |
| `UnlockedRuns.InvThroughoutIff` | sacm/core/execution_plane_service.py:642-652 | Over every run that mixes any number of unlocked claims and exchanges with the other calls, the joint invariant holds throughout exactly if no claim leases to a revoked executor. |
| `UnlockedRuns.UnlockedCredentialsFollowLeases` | sacm/core/credential_lease_service.py:437-467 | In such a run every unrevoked credential belongs to an active job owned by its executor, who is not revoked. |
| `UnlockedRuns.UnlockedFencing` | sacm/core/execution_plane_service.py:1041-1074 | Over every mixed run, without that condition, whatever presents a token that its job has let go of is refused and changes nothing. |
| `UnlockedRuns.HandedAtMostOnceIff` | sacm/core/credential_lease_service.py:269-312 | Over every mixed run, material is handed out at most once for a credential exactly if every unlocked exchange finds it still unused when it writes. |
| `UnlockedRuns.HandLedger` | sacm/core/credential_lease_service.py:269-312 | Over every mixed run a credential is marked used exactly if its material was handed out. |
| `UnlockedRuns.MaterialTwice` | sacm/core/credential_lease_service.py:269-312 | A reachable mixed run in which two sessions read an unused credential and both hand out its material. |
| `UnlockedRuns.HandOutIsNeverRefused` | sacm/core/credential_lease_service.py:285-312 | The write of an exchange hands out material exactly if its session has read the credential; it checks nothing again. |
| `UnlockedRuns.MaterialAfterRevocation` | sacm/core/credential_lease_service.py:285-312 | A reachable mixed run in which material is handed out after the executor and its credential were revoked. |
| `LeaseRuns.ExchangedAtMostOnce` | sacm/core/credential_lease_service.py:263-342 | Over a whole run of atomic calls, material is handed out at most once per credential lease. |
| `LeaseRuns.ExchangeStep` | sacm/core/credential_lease_service.py:269-312 | From any tables, handing out material and consuming an unused lease happen in the same call or not at all, no other call does either, and no credential row is lost. |
| `LeaseRuns.RevokedForever` | sacm/core/execution_plane_service.py:302-316 | A revoked executor stays revoked in every run. |
| `LeaseRuns.RevokedOwnsNothing` | sacm/core/execution_plane_service.py:465-496 | From revocation on an executor owns no active job and no unrevoked credential, in every continuation. |
| `LeaseRuns.OrphanRecoveryIsComplete` | sacm/core/execution_plane_service.py:758-828 | Orphan recovery leaves no expired, ownerless or otherwise orphaned lease in its organization, and touches no job outside it. |
| `LeaseRuns.AcquireIsFifo` | sacm/core/execution_plane_service.py:608-665 | A granted job is the earliest-queued one that is eligible and matches; the answer is no work exactly when none of the first hundred eligible jobs matches, and a job beyond those has a hundred eligible jobs before it. |
| `LeaseRuns.FifoChoice` | sacm/core/execution_plane_service.py:1122-1130 | The candidate loop stops at the first match in query order, and no matching job precedes it, seen or unseen. |
| `LeaseSpec.QueueOrdered` | sacm/core/execution_plane_service.py:619-628 | The candidate query lists every eligible job once, ordered by queueing time and then identifier. |
| `ControlPlane.Service.RevokeForJob` | sacm/core/credential_lease_service.py:437-452 | The loop revokes exactly the unrevoked credentials of one job and counts them. |
| `ControlPlane.Service.RevokeAllForExecutor` | sacm/core/credential_lease_service.py:454-467 | The loop revokes exactly the unrevoked credentials of one executor and counts them. |
| `ControlPlane.Service.ReleaseOrExpire` | sacm/core/execution_plane_service.py:1076-1109 | In place: the job goes back to the queue or to the dead-letter state, its lease is cleared and its credentials are revoked. |
| `ControlPlane.Service.RecoverExpiredLeases` | sacm/core/execution_plane_service.py:740-756 | The loop releases exactly the active jobs whose lease has expired and reports them. |
| `ControlPlane.Service.RecoverOrphanedLeases` | sacm/core/execution_plane_service.py:758-828 | The loop releases exactly the orphaned jobs of the organization; recovered is their number and the sum of requeued and dead-lettered, and dead-lettered is the number of those that had used up their attempts. |
| `ControlPlane.Service.RevokeExecutorById` | sacm/core/execution_plane_service.py:465-496 | In place: revokes the executor, releases its active jobs and revokes its credentials; idempotent, with the error cases. |
| `ControlPlane.Service.ScheduleJob` | sacm/core/execution_plane_service.py:498-606 | In place: a known idempotency key returns the stored job or a conflict; otherwise one new queued job. |
| `ControlPlane.Service.AcquireLease` | sacm/core/execution_plane_service.py:608-665 | In place: recovery, then the first matching candidate is leased under the fresh token; meets the specification that the run theorems are about. |
| `ControlPlane.Service.StartJob` | sacm/core/execution_plane_service.py:667-700 | In place: leased becomes running, running is acknowledged, a lapsed lease is released and the call refused. |
| `ControlPlane.Service.HeartbeatJobLease` | sacm/core/execution_plane_service.py:702-722 | In place: sets the expiry of a live lease from now, which can also shorten it. |
| `ControlPlane.Service.FinishJob` | sacm/core/execution_plane_service.py:874-1024 | In place: the checks in order, the idempotent resubmission, the first result and its consequences; an exception rolls back to the last commit, so a result committed on the way stays. |
| `ControlPlane.Service.RequeueDeadLetter` | sacm/core/execution_plane_service.py:844-872 | Not found, conflict or success exactly for an unknown, another and a dead-lettered job; a refusal changes nothing; success queues that row alone, with or without a reset of its attempts, and leaves its recovery count and request. |
| `ControlPlane.Service.CancelRunJobs` | sacm/core/run_service.py:402-437 | The loop cancels exactly the queued, leased and running jobs of a run and revokes their credentials. |
| `ControlPlane.Service.IssueCredential` | sacm/core/credential_lease_service.py:174-261 | In place: a live unused credential for the same purpose is returned again; otherwise a new one within the lifetime limits. |
| `ControlPlane.Service.ExchangeCredential` | sacm/core/credential_lease_service.py:263-342 | Material is handed out exactly to the live lease holder for its own live, unused, declared credential with an enrolled key and fetched material; then that row alone is consumed and never extended; any other call is refused without effect. |
| `ControlPlane.Service.RenewCredential` | sacm/core/credential_lease_service.py:344-375 | A renewal succeeds exactly for the live lease holder, an unused live credential, positive lifetimes and an issue less than 900 seconds ago; then that row alone gets a later-than-now expiry within ttl, configuration, absolute limit and the lease of the job; any other call is refused without effect. |
| `ControlPlane.Service.RevokeCredentialById` | sacm/core/credential_lease_service.py:404-435 | Success exactly for a permitted caller of the credential's organization; that row alone is revoked, an already revoked one is left as it is; any other call is refused without effect. |
| `ContextTraversal.Traverse` | sacm/core/context_engine_service.py:228-268 | Whatever the role's sort key, the result is duplicate-free, has exact undirected distances in nondecreasing order, skips no closer node, has min(max_nodes, size of the ball) nodes, and truncated is false exactly when all seeds are nodes and the whole ball is listed; reasons record an edge from a listed node one step closer. |
| `ContextTraversal.TraversalIsRight` | sacm/core/context_engine_service.py:228-268 | The finished search meets that selection promise for every graph, seed set, depth, limit and neighbour order. |
| `ContextTraversal.CountsAndTruncation` | sacm/core/context_engine_service.py:267-268 | The number of nodes kept is the smaller of the limit and the ball, and the truncation flag is exact. |
| `ContextTraversal.ReasonKeysAreSeedsIff` | sacm/core/context_engine_service.py:102 | After a traversal the keys of the reasons are the seeds exactly when no listed and expanded node has a neighbour that is no seed. |
| `ContextTraversal.SeedKeysIff` | sacm/core/context_engine_service.py:102 | With room for all seeds, they are the seeds exactly when the depth is zero or one step from the seeds reaches nothing else. |
| `ContextTraversal.SeedKeysExample` | sacm/core/context_engine_service.py:102 | Two joined nodes and one seed: the other node is among the keys too. |
| `BreadthFirst.TurnKeeps` | sacm/core/context_engine_service.py:246-266 | Every turn of the first-in-first-out loop keeps depths exact and the queue within two consecutive levels. |
| `BreadthFirst.NothingCloserSkipped` | sacm/core/context_engine_service.py:246-266 | A node closer than one already listed is itself listed. |
| `BreadthFirst.Drained` | sacm/core/context_engine_service.py:246-266 | When the queue is empty, exactly the nodes within the radius have been listed. |
| `GraphBall.BallIsWalks` | sacm/core/context_engine_service.py:228-268 | A node is in the ball of radius k exactly when a walk of at most k steps joins it to a seed: the reference the searches are compared with. |
| `ImpactAnalysis.Impact` | sacm/core/cognitive_state_service.py:756-782 | The impact search sees exactly the nodes at undirected distance at most three, whatever the order of set iteration. |
| `ImpactAnalysis.SweepFindsBall` | sacm/core/cognitive_state_service.py:773-782 | The sweep without distances ends with the same nodes as the exact search. |
| `ImpactAnalysis.ImpactGrows` | sacm/core/cognitive_state_service.py:917-925 | More relations can only widen the impact of a file. |
| `JsonPreflight.Preflight` | sacm/adapters/code_intelligence.py:589-624 | The loop with its early exits accepts exactly the texts that the byte automaton accepts. |
| `JsonPreflight.PreflightMeasuresTheTree` | sacm/adapters/code_intelligence.py:589-624 | For every JSON value and every text for it under RFC 8259 (any white space, any escapes), the scanner accepts exactly when nesting depth, container count and comma count of the tree are within the limits. |
| `JsonPreflight.ScanValue` | sacm/adapters/code_intelligence.py:595-623 | Scanning any text of a value adds exactly the measures of its tree to the counters, or rejects exactly when a limit is passed. |
| `NodeCache.StepKeepsInv` | sacm/adapters/codex_executor_adapter.py:201-235 | Every file-system step of every process, every failure and every crash keeps the invariant of the shared caches. |
| `NodeCache.ActKeepsOk` | sacm/adapters/repository_adapter.py:324-387 | Each step of restore and publish keeps what holds of its process and of the cache it has locked. |
| `NodeCache.MarkerMeansComplete` | sacm/adapters/repository_adapter.py:350-387 | In every reachable state a ready marker vouches that the cached tree is exactly that of a successful install for its key. |
| `NodeCache.RestoreIsComplete` | sacm/adapters/repository_adapter.py:324-348 | A process that reports a shared hit has in its worktree exactly the tree of a successful install for its key. |
| `NodeCache.PublishIsVisible` | sacm/adapters/repository_adapter.py:350-387 | A process that reports an installation has published exactly its own worktree, and the cache is ready. |
| `NodeCache.OneAtATime` | sacm/adapters/repository_adapter.py:281-306 | No two processes are inside the protocol for the same key. |
| `NodeCache.SnapshotIsFrozen` | sacm/adapters/repository_adapter.py:281-306 | While a process is inside the protocol no step of another, and no stray copy, changes the snapshot, marker or lock of its key. |
| `NodeCache.CacheIsNeverStuck` | sacm/adapters/repository_adapter.py:350-387 | Whatever earlier crashes left behind, the lock holder can still publish any tree it installs. |
| `ScipCache.StepKeepsInv` | sacm/core/code_intelligence_service.py:104-223 | Every step of any number of unlocked writers and readers, and every crash, keeps the invariant: no partial file, and every manifest describes a run that took place. |
| `ScipCache.ImportsAreCurrent` | sacm/adapters/code_intelligence.py:137-229 | Everything ever imported into a graph was produced by an indexing run for exactly the revision and workspace hash it was imported for, even when manifest and index were read at different moments. |
| `ScipCache.ReuseIsCurrent` | sacm/core/code_intelligence_service.py:393-423 | A reused index was produced by a run for exactly the requested state by exactly the selected indexers. |
| `ScipCache.OnlyAcceptanceChangesTheGraph` | sacm/adapters/code_intelligence.py:137-229 | A graph changes only when the gate accepts, and then by exactly the index content that was read. |
| `ScipCache.GateAcceptsMatchingPair` | sacm/adapters/code_intelligence.py:137-229 | On any files that runs and crashes can leave, the gate accepts exactly an index and manifest of one run for the state asked about, within the size and structure limits. |
| `ScipCache.ReuseAcceptsMatchingPair` | sacm/core/code_intelligence_service.py:393-423 | The reuse check accepts exactly an index and manifest of one run for the state and the indexers asked about. |
| `ScipCache.UndisturbedRunIsReusable` | sacm/core/code_intelligence_service.py:190-223 | From any files whatever, one undisturbed run leaves its own index accepted by the reuse check. |
| `CognitiveLog.StepKeepsInv` | sacm/core/cognitive_state_service.py:82-281 | Every transaction keeps creation times increasing, relations tied to their event, the hash chain intact, and every snapshot equal to the state as of an event that indexed its commit. |
| `CognitiveLog.AfterExtends` | sacm/core/cognitive_state_service.py:82-281 | Over any history the log only grows, and only with times later than any recorded before. |
| `CognitiveLog.PastIsFrozen` | sacm/core/cognitive_state_service.py:917-925 | What a query sees as of a past time never changes again. |
| `CognitiveLog.TimeForCommitFound` | sacm/core/cognitive_state_service.py:935-950 | The time of a commit is that of the last event that created it; there is none exactly when the commit is not indexed. |
| `CognitiveLog.NewestIsLast` | sacm/core/cognitive_state_service.py:92-97 | Under increasing times, the newest event is the one recorded just before. |
| `CognitiveHistory.TimeTravel` | sacm/core/cognitive_state_service.py:572-612 | Over every history, all stored snapshots equal the state recomputed at their commit exactly when every event recorded from outside was harmless. |
| `CognitiveHistory.TimeTravelStep` | sacm/core/cognitive_state_service.py:82-124 | One transaction keeps that agreement exactly if it held and the transaction is not a re-creation of a commit after something new became known. |
| `CognitiveHistory.RecreatedCommitSpoilsItsSnapshot` | apps/api/routes/cognitive_state.py:56-68 | For any log and indexed commit: a snapshot, a relation of something new, and the commit recorded as created again leave a stored snapshot the log contradicts. |
| `CognitiveHistory.RecreationExample` | sacm/core/cognitive_state_service.py:82-124 | The smallest such history, of four transactions from an empty log. |
| `CognitiveHistory.IngestionIsIdempotent` | sacm/core/cognitive_state_service.py:166-192 | Over every history, a commit has at most one creation event exactly when no event recorded from outside creates an indexed commit. |
| `CognitiveHistory.DoubleIndexExample` | sacm/core/cognitive_state_service.py:82-124 | The smallest history that indexes a commit twice: its creation recorded two times. |
| `CognitiveHistory.StateAtCommitIsReplay` | sacm/core/cognitive_state_service.py:802-806 | Stored or recomputed, the state reported for an indexed commit is the relation log as of that commit; nothing is reported for any other. |
| `CognitiveHistory.ThePastDoesNotChange` | sacm/core/cognitive_state_service.py:802-806 | No continuation that leaves every commit indexed once changes the state reported for an indexed commit, or the relations seen as of it. |
| `CognitiveHistory.TimeTravelsOn` | sacm/core/cognitive_state_service.py:572-612 | A continuation after which every commit is still indexed once keeps every stored snapshot in agreement with the log. |
| `CognitiveHistory.NotRecreatingIsHarmless` | sacm/core/cognitive_state_service.py:82-124 | Only recording the creation of an indexed commit can spoil a stored snapshot. |
| `CognitiveHistory.WithoutRecreationTimeTravels` | sacm/core/cognitive_state_service.py:802-806 | In every reachable log of a history without such a recording, every snapshot agrees, every commit is indexed at most once and every reported state is a replay. |
| `CognitiveHistory.WithoutRecreationThePastStays` | sacm/core/cognitive_state_service.py:802-806 | And then what is reported of an indexed commit never changes again. |
| `CognitiveHistory.EarlierWithinLater` | sacm/core/cognitive_state_service.py:802-806 | The state at an earlier commit is contained in the state at a later one. |
| `CognitiveHistory.EarlierImpactWithinLater` | sacm/core/cognitive_state_service.py:756-782 | In any log, the impact of a file at an earlier commit is contained in its impact at a later one. |
| `CognitiveHistory.IngestAddsItsEvidence` | sacm/core/cognitive_state_service.py:238-251 | The state of a newly indexed commit is exactly what was known before and what its evidence names. |
| `CognitiveHistory.DeliverySnapshotAtCommit` | sacm/core/cognitive_state_service.py:465-507 | A delivery attached to an indexed commit is followed by a snapshot that holds the state as of the commit and none of the delivery's new relations. |
| `CognitiveHistory.DeliverySnapshotNow` | sacm/core/cognitive_state_service.py:465-507 | A delivery without a commit is followed by a snapshot that holds exactly the known state and the delivery's own entities. |
| `CognitiveHistory.EventsFormAChain` | sacm/core/cognitive_state_service.py:92-118 | In every reachable log each event carries the hash of the event just before it. |
| `CognitiveHistory.SameHeadSameHistory` | sacm/core/cognitive_state_service.py:92-118 | Two chains that end in the same hash are the same events, field by field, and equally long. |
| `CognitiveStore.Store.RecordEvent` | sacm/core/cognitive_state_service.py:82-124 | In place: appends one event linked to the newest, or reports a missing parent and changes nothing. |
| `CognitiveStore.Store.AddRelation` | sacm/core/cognitive_state_service.py:126-164 | In place: returns the relation that says the same, or records one event and one relation. |
| `CognitiveStore.Store.IngestCommit` | sacm/core/cognitive_state_service.py:166-281 | In place: a known commit changes nothing and returns its newest snapshot; otherwise evidence and then a snapshot are stored. |
| `CognitiveStore.Store.CreateSnapshot` | sacm/core/cognitive_state_service.py:572-612 | In place: stores the state as of the commit, or of everything, and the event about it; an unknown commit changes nothing. |
| `CognitiveStore.ValuesOf` | sacm/core/cognitive_state_service.py:981-999 | The loop collects exactly the two ends of every relation. |
| `EvidenceChecksums.ChecksumsRoundTrip` | sacm/core/evidence_service.py:1156-1162 | Splitting the checksum file again gives exactly the recorded pairs of hash and name, in order. |
| `EvidenceChecksums.ReportIsExact` | sacm/core/evidence_service.py:345-360 | Against any later directory the file reports exactly the listed files that were removed or altered, in order. |
| `EvidenceChecksums.NoReportIffIntact` | sacm/core/evidence_service.py:345-360 | Nothing is reported exactly when every listed file is still there, unchanged. |
| `EvidenceChecksums.LineBreakInName` | sacm/core/evidence_service.py:345-360 | A name with a line break is reported although nothing changed, so the condition on names is needed. |
| `EvidenceChecksums.VerifyChecksums` | sacm/core/evidence_service.py:345-360 | The loop over the lines, with its malformed-line branch, gathers exactly the errors of each line. |
| `EvidenceChain.BuildsPass` | sacm/core/evidence_service.py:225-238 | Any number of builds, after any packs of the older kind, pass the chain check. |
| `EvidenceChain.CheckPassesIffLinked` | sacm/core/evidence_service.py:413-438 | Under increasing creation times the chain check passes exactly when every hashed pack names the hash of the pack just before it and hashes its own fields. |
| `EvidenceChain.SameHeadSameChain` | sacm/core/evidence_service.py:413-438 | Two chains of hashed packs that pass and end in the same hash are equally long and agree on every hashed field of every pack. |
| `EvidenceChain.ChainVerdictAgrees` | sacm/core/evidence_service.py:458-490 | The verdict on the chain agrees with the verdicts on its packs exactly when no pack without a hash follows another pack, or some hashed pack is in error. |
| `EvidenceChain.ValidChainOverInvalidPack` | sacm/core/evidence_service.py:422-438 | Two packs without a hash: the second is invalid on its own, and the chain is reported valid. |
| `EvidenceChain.VerifyChain` | sacm/core/evidence_service.py:458-490 | The loop gathers the errors of every pack, and the chain is valid exactly when there are none. |
| `CommitQueue.StepKeepsInv` | sacm/core/cognitive_commit_queue_service.py:72-175 | Every claim, recovery, ingestion, report, passage of time and any other transaction on the log keeps the invariant of jobs, tokens and log. |
| `CommitQueue.LeasesAndAttempts` | sacm/core/cognitive_commit_queue_service.py:72-175 | With a positive bound, in every reachable state: queued means fewer attempts than the bound; running means a token, an expiry and 1 to the bound attempts; any other job holds no lease. |
| `CommitQueue.ClaimsAreBounded` | sacm/core/cognitive_commit_queue_service.py:103-145 | In every run a job is claimed at most as often as its bound, and at most once if the bound is not positive. |
| `CommitQueue.AttemptsCountClaims` | sacm/core/cognitive_commit_queue_service.py:103-145 | In every run the attempt count of a job is the number of times it was claimed. |
| `CommitQueue.RetriesIndexOnce` | sacm/core/cognitive_commit_queue_service.py:72-101 | However workers retry, die and overtake each other, a commit has at most one creation event exactly when nobody outside the queue records the creation of an indexed commit. |
| `CommitQueue.CompletedIsIndexed` | sacm/core/cognitive_commit_queue_service.py:72-101 | In every run a completed job was ingested by a worker it was leased to, and the commit that worker resolved at that attempt is indexed. |
| `CommitQueue.LostLeasesStayLost` | sacm/core/cognitive_commit_queue_service.py:171-175 | A token that no longer owns its job never owns it again, so its worker can neither complete nor fail it. |
| `CommitQueue.FinishedForever` | sacm/core/cognitive_commit_queue_service.py:147-169 | A completed or failed job never changes again. |
| `CommitQueue.ChooseIsFirst` | sacm/core/cognitive_commit_queue_service.py:103-114 | A claim takes an available job that no other available job precedes by availability and creation, and finds one whenever there is one. |
| `CommitQueue.BackoffGrows` | sacm/core/cognitive_commit_queue_service.py:156-169 | The wait after a failure is between 1 and 300 seconds and never shrinks with the attempts. |
| `CommitQueue.BackoffIsHonoured` | sacm/core/cognitive_commit_queue_service.py:156-169 | Over runs: from a failure until the next claim of the job, it is claimable exactly once the clock has advanced by the wait, so that claim comes no earlier. |
| `CommitQueueService.Service.Submit` | sacm/core/cognitive_commit_queue_service.py:32-70 | In place: one job per submitted commit name, and the event about it. |
| `CommitQueueService.Service.Claim` | sacm/core/cognitive_commit_queue_service.py:103-123 | In place: recovery, then the first available job is leased under the new token. |
| `CommitQueueService.Service.RecoverExpired` | sacm/core/cognitive_commit_queue_service.py:125-145 | The loop puts every job with an expired lease back in the queue or gives it up, and changes no other. |
| `CommitQueueService.Service.Complete` | sacm/core/cognitive_commit_queue_service.py:147-154 | Success exactly for the owner of a running job; then that job alone is completed and its token is spent, and no token gains a job; anybody else changes nothing. |
| `CommitQueueService.Service.Fail` | sacm/core/cognitive_commit_queue_service.py:156-169 | Success exactly for the owner of a running job; then that job alone is queued for 1 to 300 seconds later if attempts are left and failed otherwise, and its token is spent; anybody else changes nothing. |
| `TokenBudget.FitConserves` | sacm/core/context_compiler.py:127-135 | Fitting charges exactly what it keeps, never overdraws, keeps nothing without budget, and loses nothing while budget is left. |
| `TokenBudget.FitKeepsPrefixes` | sacm/core/context_compiler.py:127-135 | Texts are kept in order, each a prefix of its original, and only the last can be cut. |
| `TokenBudget.FitValues` | sacm/core/context_compiler.py:127-135 | The loop keeps exactly the texts, and leaves exactly the budget, that these laws are about. |
| `TokenBudget.TrimFits` | sacm/core/context_compiler.py:119-125 | A trimmed text is a prefix that fits, and a text is cut only if it then uses the whole budget. |
| `TokenBudget.KeepIsLongest` | sacm/core/context_compiler.py:152-166 | Each loop of the compaction keeps the longest run of items that fits throughout. |
| `TokenBudget.CompactFits` | sacm/core/context_compiler.py:137-247 | A compacted package never exceeds the larger of its share and its bare header. |
| `TokenBudget.CompactEdgesJoinItsNodes` | sacm/core/context_compiler.py:207-224 | Every edge of a compacted package was offered and joins two nodes that are in it. |
| `TokenBudget.CompactPackage` | sacm/core/context_compiler.py:137-247 | The five loops build exactly the payload those bounds are about. |
| `TokenBudget.ExcerptsConserve` | sacm/core/context_compiler.py:69-75 | Excerpts are charged exactly and never overdraw, and the files kept cost no more than was charged, also when a key repeats. |
| `ContextCompiler.Compile` | sacm/core/context_compiler.py:15-97 | The compilation produces exactly the sections the budget theorems are about. |
| `ContextCompiler.WithinBudgetIff` | sacm/core/context_compiler.py:25-75 | All metered sections together stay within the token budget exactly when the mandatory text does and the bare header of a package that gets a share fits what remains for it. |
| `ContextCompiler.NoRoomNoExtras` | sacm/core/context_compiler.py:33-75 | If the mandatory text uses up the budget, no optional section is included. |
| `ContextCompiler.MandatoryCanOverrun` | sacm/core/context_compiler.py:26-35 | A request whose mandatory text alone, with the two constraints that are always added, exceeds the budget. |
| `ContextCompiler.ShortReasonsStayWithinBudget` | sacm/core/context_compiler.py:50-60 | If the reason of a package is written with at most 450 characters, its header fits wherever it gets a share, so the budget is kept exactly when the mandatory text fits. |
| `ContextCompiler.OrdinaryReasonsAreShort` | sacm/core/context_compiler.py:140-151 | A reason of at most a hundred characters that are printable or below U+0100 is such a reason. |
| `ContextCompiler.ProgramStaysWithinBudget` | sacm/core/orchestrator.py:328-362 | With the three reasons that the orchestrator and the briefing service give, the budget is kept exactly when the mandatory text fits. |
| `ContextCompiler.HeaderCanOverrun` | sacm/core/context_compiler.py:55-60 | A package whose reason is a hundred unprintable characters beyond U+FFFF costs 330 tokens bare and exceeds a budget of 260 of which 245 remain. |
| `PackageLength.BareHeaderIsSmallest` | sacm/core/context_compiler.py:140-151 | No payload of a package is written shorter than its bare header. |
| `PackageLength.BareLength` | sacm/core/context_compiler.py:140-151 | The length of a bare header is 317 or 318 characters and the written reason. |

## Left out

- Enrollment tokens, sandbox, residency and network-boundary validation, update manifests, fleet health: independent checks, each settled by one branch.
- Capability and label values, payload contents and requirement declarations are opaque identifiers; only their comparison is modelled.
- The opaque credential handle as a second way to look up a lease; leases are looked up by identifier.
- Audit records, runtime events, timestamps other than those compared, failure texts and revocation reasons of the lease tables.
- The reconciliation of run steps during orphan recovery, and everything `RunService` does besides cancelling jobs.
- Concurrent ingestion of one commit by two transactions that both find it missing.
- LeaseRuns.ExchangedAtMostOnce: takes each exchange as one atomic call; `UnlockedRuns.HandedAtMostOnceIff` covers exchanges that come apart.
- UnlockedRuns.InvThroughoutIff: calls other than claims and exchanges are atomic, and a session that reads several candidates is several sessions.
- LeaseRuns.LeaseTable: the limit of attempts is max(0, max_attempts), because `schedule` does not validate the value.
- LeaseRuns.BoundedStateChanges: allows one state change more when a run is cancelled, which the code allows from any open state.
- ControlPlane.Service.ScheduleJob: requires that at most one stored job has a given idempotency key, which the invariant provides.
- ControlPlane.Service.IssueCredential: requires that at most one live unused credential exists per purpose, which the invariant provides.
- ContextTraversal.Traverse: the role-dependent sort key is an arbitrary comparison; building seeds, excerpts and the package around the search is not modelled.
- JsonPreflight.PreflightMeasuresTheTree: words and numbers are any runs of the bytes they can contain, and strings are not decoded, so the theorem covers more texts than RFC 8259 allows; texts that are no JSON are not measured.
- Importing documents, symbols and relationships after the SCIP gate; an import is recorded as the content it used.
- SCIP indexes and manifests that somebody other than the indexing service puts in place, and manifest fields of an unexpected JSON type.
- Changes to the repository while an indexer is running: the state is the one fingerprinted before the run.
- Power loss and the order of writes on disk; only processes fail.
- NodeCache.MarkerMeansComplete: covers the shared cache only; the per-worktree marker is not cleared before an install and is not modelled.
- NodeCache.RestoreIsComplete: each worktree is used by one process; an `npm` that outlives its killed parent is not modelled, a `cp` that does is.
- Package managers other than npm, which take no lock and have no snapshot.
- Memories, embeddings, context reconstruction, file explanations, passports and the parsing of commit messages.
- The sorted lists of a state are represented by the sets they list; upper-casing of kinds happens before the model; the state hash of a snapshot is not modelled.
- Parent events in other projects, and projects other than one.
- Signature checks, manifest parsing and the path check in verifying a pack; only checksums and the chain are modelled.
- EvidenceChecksums.ReportIsExact: names are looked up as they are, so a name that leads out of the directory is not resolved, and names must hold no line break.
- CommitQueueService.Service.Claim: requires a token that was never issued.
- CommitQueueService.Service.Fail: requires jobs in the state the invariant describes, so that a running job has been claimed.
- The event and the error text recorded after a commit job ends.
- TokenBudget.CompactPackage: edges that join left-out nodes are dropped first and the rest is then cut to size, which keeps the same edges as doing both in one loop.
- PackageLength.BareLength: only lengths of the written package are modelled, and the entries for nodes, edges and files bring their own text.
- The wording of the constraint that names a package, and of the constraints of a repository.
- Sections that are not metered: briefing, commands, task status.
- `ExternalAgentService`, HTTP, Git and Jira clients, the CLI, the dashboard and release scripts.
