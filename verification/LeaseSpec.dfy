/**
 Every service call that touches execution jobs, executors or credential leases, as one
 transaction on the tables.  A call that raises is rolled back, except that an expired
 lease met by `start_job` or `heartbeat_job` is released before the error is raised.
 */
module LeaseSpec {
  import opened Common
  import opened LeaseRecords

  function Reject(db: Db, e: Error): Outcome {
    Outcome(db, Rejected(e))
  }

  predicate OnlineExecutor(db: Db, ex: Id) {
    ex in db.executors && db.executors[ex].status == Online
  }

  // ----- releasing leases

  function Released(job: Job, now: Time, reason: Reason): Job {
    var terminal := job.attempt >= job.request.maxAttempts;
    job.(state := if terminal then DeadLetter else Queued,
         recoveryCount := job.recoveryCount + 1,
         lastRecovery := Some(reason),
         queuedAt := if terminal then job.queuedAt else now,
         owner := None, tokenHash := None, expiresAt := None)
  }

  function CancelledJob(job: Job): Job {
    job.(state := Cancelled, owner := None, tokenHash := None, expiresAt := None)
  }

  function RevokedCredential(c: Credential, now: Time): Credential {
    if c.Unrevoked() then c.(revokedAt := Some(now)) else c
  }

  function RevokeForJobs(cs: map<Id, Credential>, jobs: set<Id>, now: Time): map<Id, Credential> {
    map c | c in cs :: if cs[c].job in jobs then RevokedCredential(cs[c], now) else cs[c]
  }

  function RevokeForExecutor(cs: map<Id, Credential>, ex: Id, now: Time): map<Id, Credential> {
    map c | c in cs :: if cs[c].executor == ex then RevokedCredential(cs[c], now) else cs[c]
  }

  function ReleasedRows(jobs: map<Id, Job>, reasons: map<Id, Reason>, now: Time): map<Id, Job> {
    map j | j in jobs :: if j in reasons then Released(jobs[j], now, reasons[j]) else jobs[j]
  }

  /** Releases every job listed in `reasons` and revokes the credentials hanging off them. */
  function ReleaseJobs(db: Db, reasons: map<Id, Reason>): Db {
    db.(jobs := ReleasedRows(db.jobs, reasons, db.now),
        credentials := RevokeForJobs(db.credentials, reasons.Keys, db.now))
  }

  predicate Expired(job: Job, now: Time) {
    job.Active() && job.expiresAt.Some? && job.expiresAt.value <= now
  }

  function ExpiredJobs(db: Db): map<Id, Reason> {
    map j | j in db.jobs && Expired(db.jobs[j], db.now) :: LeaseExpired
  }

  function RecoverExpired(db: Db): Outcome {
    Outcome(ReleaseJobs(db, ExpiredJobs(db)), Recovered(ExpiredJobs(db).Keys))
  }

  /** Why the lease of an active job must not survive orphan recovery, if there is a reason. */
  function OrphanReason(executors: map<Id, Executor>, now: Time, job: Job): Option<Reason> {
    if job.expiresAt.None? || job.expiresAt.value <= now then Some(LeaseExpired)
    else if job.owner.None? || job.owner.value !in executors then Some(OrphanedLeaseOwner)
    else if executors[job.owner.value].status == Revoked then Some(ExecutorRevoked)
    else if job.tokenHash.None? then Some(OrphanedLeaseToken)
    else None
  }

  predicate InOrganization(job: Job, organization: Option<Id>) {
    organization.None? || job.request.scope.organization == organization
  }

  predicate Orphaned(db: Db, j: Id, organization: Option<Id>)
    requires j in db.jobs
  {
    var job := db.jobs[j];
    job.Active() && InOrganization(job, organization) && OrphanReason(db.executors, db.now, job).Some?
  }

  function OrphanedJobs(db: Db, organization: Option<Id>): map<Id, Reason> {
    map j | j in db.jobs && Orphaned(db, j, organization) :: OrphanReason(db.executors, db.now, db.jobs[j]).value
  }

  function RecoverOrphaned(db: Db, organization: Option<Id>): Outcome {
    var reasons := OrphanedJobs(db, organization);
    Outcome(ReleaseJobs(db, reasons), Recovered(reasons.Keys))
  }

  function OwnedActiveJobs(db: Db, ex: Id): map<Id, Reason> {
    map j | j in db.jobs && db.jobs[j].Active() && db.jobs[j].owner == Some(ex) :: ExecutorRevoked
  }

  // ----- executors

  function Enroll(db: Db, ex: Id, e: Executor): Outcome {
    if ex in db.executors then Reject(db, Conflict)
    else Outcome(db.(executors := db.executors[ex := e.(status := Online, lastHeartbeatAt := db.now)]), Done)
  }

  /** A heartbeat can replace what the executor says it can do. */
  function HeartbeatExecutor(db: Db, ex: Id, capabilities: Option<set<Id>>, labels: Option<map<Id, Id>>): Outcome {
    if ex !in db.executors then Reject(db, NotFound)
    else if db.executors[ex].status == Revoked then Reject(db, Unauthenticated)
    else
      var e := db.executors[ex].(status := Online, lastHeartbeatAt := db.now);
      var able := if capabilities.Some? then e.(capabilities := capabilities.value) else e;
      var labelled := if labels.Some? then able.(labels := labels.value) else able;
      Outcome(db.(executors := db.executors[ex := labelled]), Done)
  }

  function Authenticate(db: Db, ex: Id, offlineAfter: int): Outcome {
    if ex !in db.executors || db.executors[ex].status == Revoked then Reject(db, Unauthenticated)
    else if db.executors[ex].status == Online && db.executors[ex].lastHeartbeatAt <= db.now - offlineAfter * SECOND then
      Outcome(db.(executors := db.executors[ex := db.executors[ex].(status := Offline)]), Done)
    else Outcome(db, Done)
  }

  function RotateIdentity(db: Db, ex: Id, key: Id, fingerprint: Id): Outcome {
    if ex !in db.executors then Reject(db, NotFound)
    else
      var e := db.executors[ex].(signingKey := key, fingerprint := fingerprint);
      Outcome(db.(executors := db.executors[ex := e]), Done)
  }

  function RevokeExecutor(db: Db, ex: Id, authorized: bool): Outcome {
    if ex !in db.executors then Reject(db, NotFound)
    else if !authorized then Reject(db, Unauthorized)
    else if db.executors[ex].status == Revoked then Outcome(db, Done)
    else
      var d := ReleaseJobs(db, OwnedActiveJobs(db, ex));
      Outcome(d.(executors := d.executors[ex := d.executors[ex].(status := Revoked)],
                 credentials := RevokeForExecutor(d.credentials, ex, d.now)), Done)
  }

  // ----- jobs

  predicate SameKey(job: Job, r: JobRequest) {
    job.request.scopeKey == r.scopeKey && job.request.idempotencyKey == r.idempotencyKey
  }

  function NewJob(r: JobRequest, now: Time): Job {
    Job(r, Queued, 0, 0, None, None, None, None, now, None)
  }

  /** The job already stored under the idempotency key of `r`; the table allows at most one. */
  ghost function ExistingJob(jobs: map<Id, Job>, r: JobRequest): (j: Option<Id>)
    ensures j.Some? ==> j.value in jobs && SameKey(jobs[j.value], r)
    ensures j.None? ==> forall k :: k in jobs ==> !SameKey(jobs[k], r)
  {
    if exists j :: j in jobs && SameKey(jobs[j], r) then
      var j :| j in jobs && SameKey(jobs[j], r); Some(j)
    else None
  }

  /** `known` says whether the run, its step and its project were found and agree with one another. */
  ghost function Schedule(db: Db, id: Id, r: JobRequest, known: bool): Outcome {
    if !known then Reject(db, NotFound)
    else if ExistingJob(db.jobs, r).Some? then
      var j := ExistingJob(db.jobs, r).value;
      if db.jobs[j].request.payloadHash == r.payloadHash then Outcome(db, JobReply(j)) else Reject(db, Conflict)
    else if id in db.jobs then Reject(db, Conflict)
    else Outcome(db.(jobs := db.jobs[id := NewJob(r, db.now)]), JobReply(id))
  }

  predicate InScope(e: Executor, job: Job) {
    if e.scope.project.Some? then job.request.scope.project == e.scope.project
    else if e.scope.organization.Some? then job.request.scope.organization == e.scope.organization
    else job.request.scope.deployment == e.scope.deployment
  }

  predicate Matches(e: Executor, job: Job) {
    && job.request.capabilities <= e.capabilities
    && forall k :: k in job.request.labels ==> k in e.labels && e.labels[k] == job.request.labels[k]
  }

  predicate Eligible(e: Executor, job: Job) {
    job.state == Queued && job.attempt < job.request.maxAttempts && InScope(e, job)
  }

  function Candidates(jobs: map<Id, Job>, e: Executor): set<Id> {
    set j | j in jobs && Eligible(e, jobs[j])
  }

  /** The order of the candidate query: by queueing time, then by identifier. */
  predicate Before(jobs: map<Id, Job>, a: Id, b: Id)
    requires a in jobs && b in jobs
  {
    jobs[a].queuedAt < jobs[b].queuedAt || (jobs[a].queuedAt == jobs[b].queuedAt && a <= b)
  }

  lemma FrontExists(jobs: map<Id, Job>, ids: set<Id>) returns (m: Id)
    requires ids != {} && ids <= jobs.Keys
    ensures IsFront(jobs, ids, m)
  {
    var x :| x in ids;
    m := x;
    if ids != {x} {
      var rest := ids - {x};
      assert ids == {x} + rest;
      var n := FrontExists(jobs, rest);
      m := if Before(jobs, n, x) then n else x;
      forall k | k in ids ensures Before(jobs, m, k) {
        assert k == x || k in rest;
      }
    }
  }

  ghost predicate IsFront(jobs: map<Id, Job>, ids: set<Id>, m: Id)
    requires ids <= jobs.Keys
  {
    m in ids && forall k :: k in ids ==> Before(jobs, m, k)
  }

  function QueueOrder(jobs: map<Id, Job>, ids: set<Id>): (order: seq<Id>)
    requires ids <= jobs.Keys
    ensures forall j :: j in order <==> j in ids
  {
    if ids == {} then []
    else
      assert exists m :: IsFront(jobs, ids, m) by {
        var front := FrontExists(jobs, ids);
      }
      var m :| m in ids && forall k :: k in ids ==> Before(jobs, m, k);
      [m] + QueueOrder(jobs, ids - {m})
  }

  ghost predicate InQueryOrder(jobs: map<Id, Job>, order: seq<Id>)
    requires forall j :: j in order ==> j in jobs
  {
    order == [] ||
    (&& order[0] !in order[1..] && (forall k :: k in order[1..] ==> Before(jobs, order[0], k))
     && InQueryOrder(jobs, order[1..]))
  }

  /** The query result lists each candidate once, in query order. */
  lemma {:induction false} QueueOrdered(jobs: map<Id, Job>, ids: set<Id>)
    requires ids <= jobs.Keys
    ensures |QueueOrder(jobs, ids)| == |ids| && InQueryOrder(jobs, QueueOrder(jobs, ids))
  {
    var order := QueueOrder(jobs, ids);
    if ids != {} {
      var rest := ids - {order[0]};
      assert order[1..] == QueueOrder(jobs, rest);
      QueueOrdered(jobs, rest);
    }
  }

  lemma {:induction false} QueryOrderAt(jobs: map<Id, Job>, order: seq<Id>, a: nat, b: nat)
    requires (forall j :: j in order ==> j in jobs) && InQueryOrder(jobs, order) && a <= b < |order|
    ensures Before(jobs, order[a], order[b])
  {
    if a > 0 {
      QueryOrderAt(jobs, order[1..], a - 1, b - 1);
    } else if b > 0 {
      assert order[b] in order[1..];
    }
  }

  function Window(jobs: map<Id, Job>, e: Executor): (w: seq<Id>)
    ensures forall j :: j in w ==> j in jobs && Eligible(e, jobs[j])
  {
    var order := QueueOrder(jobs, Candidates(jobs, e));
    assert forall j :: j in order[..Min(|order|, CANDIDATE_LIMIT)] ==> j in order;
    if |order| <= CANDIDATE_LIMIT then order else order[..CANDIDATE_LIMIT]
  }

  function FirstMatch(w: seq<Id>, jobs: map<Id, Job>, e: Executor): Option<Id>
    requires forall j :: j in w ==> j in jobs
  {
    if w == [] then None
    else if Matches(e, jobs[w[0]]) then Some(w[0])
    else FirstMatch(w[1..], jobs, e)
  }

  function LeasedJob(job: Job, ex: Id, token: Token, now: Time, seconds: int): Job {
    job.(state := Leased, attempt := job.attempt + 1, owner := Some(ex), tokenHash := Some(LeaseHash(token)),
         expiresAt := Some(now + seconds * SECOND))
  }

  function Grant(db: Db, ex: Id, j: Id, token: Token, seconds: int): Outcome
    requires ex in db.executors && j in db.jobs
  {
    Outcome(db.(jobs := db.jobs[j := LeasedJob(db.jobs[j], ex, token, db.now, seconds)],
                executors := db.executors[ex := db.executors[ex].(lastHeartbeatAt := db.now)],
                issued := db.issued[token := j]),
            LeaseGranted(j, token))
  }

  function Acquire(db: Db, ex: Id, seconds: int, token: Token): Outcome {
    if !OnlineExecutor(db, ex) then Reject(db, Unauthenticated)
    else
      var d := RecoverExpired(db).db;
      var e := d.executors[ex];
      var found := FirstMatch(Window(d.jobs, e), d.jobs, e);
      if found.Some? && found.value in d.jobs then Grant(d, ex, found.value, token, seconds)
      else Outcome(d, NoWork)
  }

  /** The checks of `_owned_job`; they do not look at the expiry of the lease. */
  function OwnershipError(db: Db, ex: Id, j: Id, token: Token): (e: Option<Error>)
    ensures e.None? ==> j in db.jobs && db.jobs[j].owner == Some(ex) && db.jobs[j].tokenHash == Some(LeaseHash(token))
  {
    if !OnlineExecutor(db, ex) then Some(Unauthenticated)
    else if j !in db.jobs then Some(NotFound)
    else if db.jobs[j].owner != Some(ex) then Some(Unauthorized)
    else if db.jobs[j].tokenHash != Some(LeaseHash(token)) then Some(Unauthenticated)
    else None
  }

  /** The further check of `_leased_job`. */
  predicate Lapsed(job: Job, now: Time) {
    job.Active() && (job.expiresAt.None? || job.expiresAt.value <= now)
  }

  function SetJob(db: Db, j: Id, job: Job): Db {
    db.(jobs := db.jobs[j := job])
  }

  function Start(db: Db, ex: Id, j: Id, token: Token, stepKnown: bool): Outcome {
    var e := OwnershipError(db, ex, j, token);
    if e.Some? then Reject(db, e.value)
    else if Lapsed(db.jobs[j], db.now) then Reject(ReleaseJobs(db, map[j := LeaseExpired]), Conflict)
    else if db.jobs[j].state == Running then Outcome(db, JobReply(j))
    else if db.jobs[j].state != Leased then Reject(db, Conflict)
    else if !stepKnown then Reject(db, NotFound)
    else Outcome(SetJob(db, j, db.jobs[j].(state := Running)), JobReply(j))
  }

  function HeartbeatJob(db: Db, ex: Id, j: Id, token: Token, seconds: int): Outcome {
    var e := OwnershipError(db, ex, j, token);
    if e.Some? then Reject(db, e.value)
    else if Lapsed(db.jobs[j], db.now) then Reject(ReleaseJobs(db, map[j := LeaseExpired]), Conflict)
    else if !db.jobs[j].Active() then Reject(db, Conflict)
    else
      var job := db.jobs[j].(expiresAt := Some(db.now + seconds * SECOND));
      Outcome(SetJob(db, j, job).(executors := db.executors[ex := db.executors[ex].(lastHeartbeatAt := db.now)]),
              JobReply(j))
  }

  function FinishedJob(job: Job, ex: Id, sub: Submission, failed: bool): Job {
    var stored := StoredResult(sub.result, ResultHash(sub.result), sub.signature, sub.fingerprint, ex, NotRecorded);
    job.(state := if failed then Failed else Completed, result := Some(stored))
  }

  /** Why a first result for an active job is refused, if it is. */
  function ResultError(e: Executor, job: Job, sub: Submission, failed: bool): Option<Error> {
    if sub.result.runId != job.request.runId || sub.result.stepId != job.request.stepId then Some(Conflict)
    else if failed != sub.result.failed then Some(Conflict)
    else if e.fingerprint != sub.fingerprint then Some(Unauthenticated)
    else if sub.signature != Signature(e.signingKey, sub.result) then Some(Conflict)
    else None
  }

  function WithAnalytics(job: Job, a: Analytics): Job {
    if job.result.None? then job else job.(result := Some(job.result.value.(analytics := a)))
  }

  /**
   What the services outside the model do while a result is being recorded: whether they accept it,
   whether they commit the shared session on the way, whether analytics fail, and a retry to schedule.
   */
  datatype Surroundings = Surroundings(accepted: bool, committed: bool, analyticsFailed: bool,
      retry: Option<(Id, JobRequest)>)

  /** A result for a job that already has one: the same result is acknowledged, any other refused. */
  function Resubmit(db: Db, j: Id, sub: Submission, failed: bool, out: Surroundings): Outcome
    requires j in db.jobs
  {
    var job := db.jobs[j];
    if job.state == (if failed then Failed else Completed) && job.result.Some? &&
    job.result.value.hash == sub.resultHash
    then
      var refreshed :=
        if job.result.value.analytics != AnalyticsFailed then job
        else WithAnalytics(job, if out.analyticsFailed then AnalyticsFailed else AnalyticsCompleted);
      Outcome(SetJob(db, j, refreshed), JobReply(j))
    else Reject(db, Conflict)
  }

  /** The tables once a first result is stored and the credentials of the job are revoked. */
  function Recorded(db: Db, ex: Id, j: Id, sub: Submission, failed: bool): Db
    requires j in db.jobs
  {
    SetJob(db, j, FinishedJob(db.jobs[j], ex, sub, failed)).(
      credentials := RevokeForJobs(db.credentials, {j}, db.now))
  }

  /** What scheduling the retry of a failed job, if there is one, leaves behind. */
  ghost function Retried(recorded: Db, failed: bool, out: Surroundings): Outcome {
    if failed && out.retry.Some? then Schedule(recorded, out.retry.value.0, out.retry.value.1, true)
    else Outcome(recorded, Done)
  }

  /**
   Hands a recorded result downstream. Whatever raises there rolls the call back, but only as far
   as the last commit: a result that was committed on the way stays although the call is refused.
   */
  ghost function Settle(db: Db, recorded: Db, j: Id, failed: bool, out: Surroundings): Outcome
    requires j in recorded.jobs
  {
    var retried := Retried(recorded, failed, out);
    if !out.accepted || retried.reply.Rejected? then Reject(if out.committed then recorded else db, Downstream)
    else if out.analyticsFailed then
      Outcome(SetJob(retried.db, j, WithAnalytics(retried.db.jobs[j], AnalyticsFailed)), JobReply(j))
    else Outcome(retried.db, JobReply(j))
  }

  ghost function Finish(db: Db, ex: Id, j: Id, sub: Submission, failed: bool, out: Surroundings): Outcome {
    var e := OwnershipError(db, ex, j, sub.leaseToken);
    if e.Some? then Reject(db, e.value)
    else if sub.resultHash != ResultHash(sub.result) then Reject(db, Conflict)
    else if db.jobs[j].Finished() then Resubmit(db, j, sub, failed, out)
    else if !db.jobs[j].Active() then Reject(db, Conflict)
    else
      var refused := ResultError(db.executors[ex], db.jobs[j], sub, failed);
      if refused.Some? then Reject(db, refused.value)
      else Settle(db, Recorded(db, ex, j, sub, failed), j, failed, out)
  }

  function Requeue(db: Db, j: Id, reset: bool): Outcome {
    if j !in db.jobs then Reject(db, NotFound)
    else if db.jobs[j].state != DeadLetter then Reject(db, Conflict)
    else
      var job := db.jobs[j].(state := Queued, queuedAt := db.now, lastRecovery := Some(ManualRequeue),
                             attempt := if reset then 0 else db.jobs[j].attempt);
      Outcome(SetJob(db, j, job), JobReply(j))
  }

  predicate Cancellable(job: Job, run: Id) {
    job.request.runId == run && (job.state == Queued || job.Active())
  }

  function CancellableJobs(jobs: map<Id, Job>, run: Id): set<Id> {
    set j | j in jobs && Cancellable(jobs[j], run)
  }

  function CancelledRows(jobs: map<Id, Job>, hit: set<Id>): map<Id, Job> {
    map j | j in jobs :: if j in hit then CancelledJob(jobs[j]) else jobs[j]
  }

  function CancelRun(db: Db, run: Id, allowed: bool): Outcome {
    if !allowed then Reject(db, Conflict)
    else
      var hit := CancellableJobs(db.jobs, run);
      Outcome(db.(jobs := CancelledRows(db.jobs, hit), credentials := RevokeForJobs(db.credentials, hit, db.now)), Done)
  }

  // ----- credential leases

  /** The checks of `_owned_active_job`. */
  function ActiveJobError(db: Db, ex: Id, j: Id, token: Token): (e: Option<Error>)
    ensures e.None? ==> OwnershipError(db, ex, j, token).None? && db.jobs[j].Active() && db.jobs[j].expiresAt.Some? &&
                        db.jobs[j].expiresAt.value > db.now
  {
    if !OnlineExecutor(db, ex) then Some(Unauthorized)
    else if j !in db.jobs then Some(CredentialRefused)
    else if db.jobs[j].owner != Some(ex) then Some(Unauthorized)
    else if db.jobs[j].tokenHash != Some(LeaseHash(token)) then Some(Unauthorized)
    else if !db.jobs[j].Active() then Some(CredentialRefused)
    else if db.jobs[j].expiresAt.None? || db.jobs[j].expiresAt.value <= db.now then Some(CredentialRefused)
    else None
  }

  /** The checks of `_active_lease`. */
  function CredentialError(db: Db, ex: Id, c: Id, token: Token): (e: Option<Error>)
    ensures e.None? ==> c in db.credentials && ActiveJobError(db, ex, db.credentials[c].job, token).None? &&
                        db.credentials[c].executor == ex && db.credentials[c].Unrevoked() &&
                        db.credentials[c].expiresAt > db.now
  {
    if c !in db.credentials then Some(CredentialRefused)
    else
      var e := ActiveJobError(db, ex, db.credentials[c].job, token);
      if e.Some? then e
      else if db.credentials[c].executor != ex then Some(Unauthorized)
      else if !db.credentials[c].Unrevoked() then Some(CredentialRefused)
      else if db.credentials[c].expiresAt <= db.now then Some(CredentialRefused)
      else None
  }

  function SetCredential(db: Db, c: Id, record: Credential): Db {
    db.(credentials := db.credentials[c := record])
  }

  function EffectiveSeconds(ttl: int, configured: int): int {
    Min(ttl, Min(configured, MAX_CREDENTIAL_SECONDS))
  }

  predicate Reusable(c: Credential, j: Id, ex: Id, requirement: Id, now: Time) {
    c.job == j && c.executor == ex && c.requirement == requirement && c.LiveUnused(now)
  }

  ghost function ExistingCredential(db: Db, j: Id, ex: Id, requirement: Id): (c: Option<Id>)
    ensures c.Some? ==> c.value in db.credentials && Reusable(db.credentials[c.value], j, ex, requirement, db.now)
    ensures c.None? ==> forall k :: k in db.credentials ==> !Reusable(db.credentials[k], j, ex, requirement, db.now)
  {
    if exists c :: c in db.credentials && Reusable(db.credentials[c], j, ex, requirement, db.now) then
      var c :| c in db.credentials && Reusable(db.credentials[c], j, ex, requirement, db.now); Some(c)
    else None
  }

  /** `provider` says whether an enabled provider configuration serves the requirement. */
  ghost function Issue(db: Db, ex: Id, j: Id, token: Token, requirement: Id, ttl: int, configured: int, provider: bool,
                       id: Id)
    : Outcome
  {
    var e := ActiveJobError(db, ex, j, token);
    if e.Some? then Reject(db, e.value)
    else if requirement !in db.jobs[j].request.requirements then Reject(db, Unauthorized)
    else if !provider then Reject(db, CredentialRefused)
    else
      var expires := Min(db.now + EffectiveSeconds(ttl, configured) * SECOND, db.jobs[j].expiresAt.value);
      if expires <= db.now then Reject(db, CredentialRefused)
      else if ExistingCredential(db, j, ex, requirement).Some? then
        Outcome(db, CredentialReply(ExistingCredential(db, j, ex, requirement).value))
      else if id in db.credentials then Reject(db, Conflict)
      else
        var record := Credential(j, ex, requirement, db.jobs[j].request.scope.organization,
                                 db.now, expires, None, 0);
        Outcome(SetCredential(db, id, record), CredentialReply(id))
  }

  /** `fetched` says whether the provider returned material and it was wrapped for the enrolled key. */
  function Exchange(db: Db, ex: Id, c: Id, token: Token, fetched: bool, materialExpiry: Option<Time>): Outcome {
    var e := CredentialError(db, ex, c, token);
    if e.Some? then Reject(db, e.value)
    else
      var record := db.credentials[c];
      if record.useCount != 0 then Reject(db, CredentialRefused)
      else if !db.executors[ex].hasEncryptionKey then Reject(db, CredentialRefused)
      else if record.requirement !in db.jobs[record.job].request.requirements then Reject(db, Unauthorized)
      else if !fetched then Reject(db, CredentialRefused)
      else
        var expires := if materialExpiry.Some? then Min(record.expiresAt, materialExpiry.value) else record.expiresAt;
        Outcome(SetCredential(db, c, record.(useCount := 1, expiresAt := expires)),
                Material(c, expires))
  }

  function Renew(db: Db, ex: Id, c: Id, token: Token, ttl: int, configured: int): Outcome {
    var e := CredentialError(db, ex, c, token);
    if e.Some? then Reject(db, e.value)
    else
      var record := db.credentials[c];
      if record.useCount != 0 then Reject(db, CredentialRefused)
      else
        var requested := db.now + EffectiveSeconds(ttl, configured) * SECOND;
        var absolute := record.issuedAt + MAX_CREDENTIAL_SECONDS * SECOND;
        var expires := Min(Min(requested, absolute), db.jobs[record.job].expiresAt.value);
        if expires <= db.now then Reject(db, CredentialRefused)
        else Outcome(SetCredential(db, c, record.(expiresAt := expires)), CredentialReply(c))
  }

  function RevokeCredential(db: Db, organization: Id, c: Id, permitted: bool): Outcome {
    if c !in db.credentials || db.credentials[c].organization != Some(organization) || !permitted
    then Reject(db, Unauthorized)
    else Outcome(SetCredential(db, c, RevokedCredential(db.credentials[c], db.now)), CredentialReply(c))
  }

  // ----- the system

  datatype ExecutorCall =
    | DoEnroll(executor: Id, record: Executor)
    | DoHeartbeatExecutor(executor: Id, capabilities: Option<set<Id>>, labels: Option<map<Id, Id>>)
    | DoAuthenticate(executor: Id, offlineAfter: int)
    | DoRotate(executor: Id, key: Id, fingerprint: Id)

  datatype JobCall =
    | DoSchedule(newId: Id, request: JobRequest, known: bool)
    | DoAcquire(executor: Id, seconds: int, token: Token)
    | DoStart(executor: Id, job: Id, token: Token, stepKnown: bool)
    | DoHeartbeatJob(executor: Id, job: Id, token: Token, seconds: int)
    | DoFinish(executor: Id, job: Id, submission: Submission, failed: bool, surroundings: Surroundings)
    | DoRecoverExpired
    | DoRecoverOrphaned(organization: Option<Id>)
    | DoRequeue(job: Id, reset: bool)
    | DoCancelRun(run: Id, allowed: bool)
    | DoRevokeExecutor(executor: Id, authorized: bool)

  datatype CredentialCall =
    | DoIssue(executor: Id, job: Id, token: Token, requirement: Id, ttl: int, configured: int, provider: bool,
        newId: Id)
    | DoExchange(executor: Id, credential: Id, token: Token, fetched: bool, materialExpiry: Option<Time>)
    | DoRenew(executor: Id, credential: Id, token: Token, ttl: int, configured: int)
    | DoRevokeCredential(owner: Id, credential: Id, permitted: bool)

  /** One service call, or the passage of time. */
  datatype Action =
    | Tick(delta: nat)
    | OnExecutor(executorCall: ExecutorCall)
    | OnJob(jobCall: JobCall)
    | OnCredential(credentialCall: CredentialCall)

  function ExecutorStep(db: Db, call: ExecutorCall): Outcome {
    match call
    case DoEnroll(ex, e) => Enroll(db, ex, e)
    case DoHeartbeatExecutor(ex, capabilities, labels) => HeartbeatExecutor(db, ex, capabilities, labels)
    case DoAuthenticate(ex, after) => Authenticate(db, ex, after)
    case DoRotate(ex, key, fp) => RotateIdentity(db, ex, key, fp)
  }

  ghost function JobStep(db: Db, call: JobCall): Outcome {
    match call
    case DoSchedule(id, r, known) => Schedule(db, id, r, known)
    case DoAcquire(ex, seconds, token) => Acquire(db, ex, seconds, token)
    case DoStart(ex, j, token, known) => Start(db, ex, j, token, known)
    case DoHeartbeatJob(ex, j, token, seconds) => HeartbeatJob(db, ex, j, token, seconds)
    case DoFinish(ex, j, sub, failed, out) => Finish(db, ex, j, sub, failed, out)
    case DoRecoverExpired => RecoverExpired(db)
    case DoRecoverOrphaned(org) => RecoverOrphaned(db, org)
    case DoRequeue(j, reset) => Requeue(db, j, reset)
    case DoCancelRun(run, ok) => CancelRun(db, run, ok)
    case DoRevokeExecutor(ex, ok) => RevokeExecutor(db, ex, ok)
  }

  ghost function CredentialStep(db: Db, call: CredentialCall): Outcome {
    match call
    case DoIssue(ex, j, token, req, ttl, conf, prov, id) => Issue(db, ex, j, token, req, ttl, conf, prov, id)
    case DoExchange(ex, c, token, ok, expiry) => Exchange(db, ex, c, token, ok, expiry)
    case DoRenew(ex, c, token, ttl, conf) => Renew(db, ex, c, token, ttl, conf)
    case DoRevokeCredential(org, c, ok) => RevokeCredential(db, org, c, ok)
  }

  ghost function Step(db: Db, a: Action): Outcome {
    match a
    case Tick(delta) => Outcome(db.(now := db.now + delta), Done)
    case OnExecutor(call) => ExecutorStep(db, call)
    case OnJob(call) => JobStep(db, call)
    case OnCredential(call) => CredentialStep(db, call)
  }

  /** What the random source guarantees: a new lease token has never been handed out before. */
  predicate Fresh(db: Db, a: Action) {
    a.OnJob? && a.jobCall.DoAcquire? ==> a.jobCall.token !in db.issued
  }

  function Init(now: Time): Db {
    Db(now, map[], map[], map[], map[])
  }

  ghost predicate Run(db: Db, actions: seq<Action>)
    decreases actions
  {
    actions == [] || (Fresh(db, actions[0]) && Run(Step(db, actions[0]).db, actions[1..]))
  }

  ghost function After(db: Db, actions: seq<Action>): Db
    decreases actions
  {
    if actions == [] then db else After(Step(db, actions[0]).db, actions[1..])
  }
}
