/**
 The rows of the control-plane database that the execution plane and the credential-lease
 service read and write.  Identifiers are opaque numbers, time is a count of microseconds.
 Hashes and signatures are free constructors, so they are collision-free by construction.
 */
module LeaseRecords {
  import opened Common

  type Id = nat
  type Token = nat
  type Time = int

  const SECOND: int := 1_000_000
  const MAX_CREDENTIAL_SECONDS: int := 900
  const CANDIDATE_LIMIT: nat := 100

  /** The digest of "sacm:lease:v1:" followed by the token; both services compute the same one. */
  datatype LeaseHash = LeaseHash(token: Token)

  datatype JobState = Queued | Leased | Running | Completed | Failed | Cancelled | DeadLetter

  datatype Reason = LeaseExpired | OrphanedLeaseOwner | ExecutorRevoked | OrphanedLeaseToken | ManualRequeue

  datatype ScopeKey = ProjectScope(project: Id) | DeploymentScope(deployment: Id)

  datatype Scope = Scope(organization: Option<Id>, project: Option<Id>, deployment: Option<Id>)

  datatype AgentResult = AgentResult(runId: Id, stepId: Id, failed: bool, content: Id)

  /** The digest of the canonical form of a result. */
  datatype ResultHash = ResultHash(of: AgentResult)

  /** A signature either was made with `key` over `signed`, or verifies under no key at all. */
  datatype Signature = Signature(key: Id, signed: AgentResult) | Forged(noise: Id)

  datatype Submission = Submission(
    leaseToken: Token, result: AgentResult, resultHash: ResultHash, fingerprint: Id, signature: Signature)

  datatype Analytics = NotRecorded | AnalyticsFailed | AnalyticsCompleted

  datatype StoredResult = StoredResult(
    contract: AgentResult, hash: ResultHash, signature: Signature,
    fingerprint: Id, executor: Id, analytics: Analytics)

  /** What a caller of `schedule` supplies. */
  datatype JobRequest = JobRequest(
    runId: Id, stepId: Id, scope: Scope, scopeKey: ScopeKey, idempotencyKey: Id, payloadHash: Id,
    capabilities: set<Id>, labels: map<Id, Id>, requirements: set<Id>, maxAttempts: int)

  datatype Job = Job(
    request: JobRequest,
    state: JobState, attempt: nat, recoveryCount: nat, lastRecovery: Option<Reason>,
    owner: Option<Id>, tokenHash: Option<LeaseHash>, expiresAt: Option<Time>,
    queuedAt: Time, result: Option<StoredResult>)
  {
    predicate Active() {
      state in {Leased, Running}
    }

    predicate Finished() {
      state in {Completed, Failed}
    }

    /** A finished job keeps the lease columns of the executor that finished it. */
    predicate HoldsLease() {
      Active() || Finished()
    }
  }

  datatype ExecutorStatus = Online | Offline | Revoked

  datatype Executor = Executor(
    status: ExecutorStatus, scope: Scope, capabilities: set<Id>, labels: map<Id, Id>,
    signingKey: Id, fingerprint: Id, hasEncryptionKey: bool, lastHeartbeatAt: Time)

  datatype Credential = Credential(
    job: Id, executor: Id, requirement: Id, organization: Option<Id>,
    issuedAt: Time, expiresAt: Time, revokedAt: Option<Time>, useCount: nat)
  {
    predicate Unrevoked() {
      revokedAt.None?
    }

    /** Neither revoked, expired nor consumed at time `now`. */
    predicate LiveUnused(now: Time) {
      Unrevoked() && useCount == 0 && expiresAt > now
    }
  }

  /**
   The tables, the clock, and the history of lease tokens handed out with the job each was
   made for.  The history is not stored by the program; it is what "fresh token" refers to.
   */
  datatype Db = Db(
    now: Time,
    executors: map<Id, Executor>,
    jobs: map<Id, Job>,
    credentials: map<Id, Credential>,
    issued: map<Token, Id>)

  datatype Error = Unauthenticated | Unauthorized | NotFound | Conflict | CredentialRefused | Downstream

  datatype Reply =
    | Rejected(error: Error)
    | Done
    | JobReply(job: Id)
    | LeaseGranted(job: Id, token: Token)
    | NoWork
    | Recovered(jobs: set<Id>)
    | CredentialReply(credential: Id)
    | Material(credential: Id, expiresAt: Time)

  /** The outcome of one service call: the committed tables and the answer. */
  datatype Outcome = Outcome(db: Db, reply: Reply)
}
