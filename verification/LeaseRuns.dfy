/**
 What holds over every run of the lease protocol: any number of executors, any interleaving of
 calls, any passage of time.
 */
module LeaseRuns {
  import opened Common
  import opened LeaseRecords
  import opened LeaseSpec
  import opened LeaseInvariant

  // ----- the invariant over runs

  lemma {:induction false} RunKeepsInv(db: Db, actions: seq<Action>)
    requires Inv(db) && Run(db, actions)
    ensures Inv(After(db, actions))
    decreases actions
  {
    if actions != [] {
      StepKeepsInv(db, actions[0]);
      RunKeepsInv(Step(db, actions[0]).db, actions[1..]);
    }
  }

  /** The invariant holds in every reachable state. */
  lemma ReachableInv(now: Time, actions: seq<Action>)
    requires Run(Init(now), actions)
    ensures Inv(After(Init(now), actions))
  {
    RunKeepsInv(Init(now), actions);
  }

  /** Every unrevoked credential belongs to a leased or running job owned by its executor, who is not revoked. */
  lemma CredentialsFollowLeases(now: Time, actions: seq<Action>, c: Id)
    requires Run(Init(now), actions)
    requires var db := After(Init(now), actions); c in db.credentials && db.credentials[c].Unrevoked()
    ensures var db := After(Init(now), actions);
            var record := db.credentials[c];
            && record.job in db.jobs && db.jobs[record.job].state in {Leased, Running}
            && db.jobs[record.job].owner == Some(record.executor)
            && record.executor in db.executors && db.executors[record.executor].status != Revoked
  {
    ReachableInv(now, actions);
    var db := After(Init(now), actions);
    assert CredentialOk(db.credentials[c], db.jobs);
    var j := db.credentials[c].job;
    assert JobOk(db.jobs[j], j, db.executors, db.issued);
  }

  // ----- how one call can move one job

  predicate Releases(job: Job, job': Job, now: Time) {
    job.Active() && job'.lastRecovery.Some? && job' == Released(job, now, job'.lastRecovery.value)
  }

  predicate Leases(job: Job, job': Job, now: Time, call: JobCall) {
    && call.DoAcquire? && job.state == Queued && job.attempt < job.request.maxAttempts
    && job' == LeasedJob(job, call.executor, call.token, now, call.seconds)
  }

  predicate Renews(job: Job, job': Job) {
    job.Active() && job' == job.(expiresAt := job'.expiresAt)
  }

  predicate Starts(job: Job, job': Job) {
    job.state == Leased && job' == job.(state := Running)
  }

  predicate Finishes(job: Job, job': Job) {
    job.Active() && job'.Finished() &&
    job' == job.(state := job'.state, result := job'.result)
  }

  predicate Refreshes(job: Job, job': Job) {
    job.Finished() && job.result.Some? && job'.result.Some? &&
    job' == WithAnalytics(job, job'.result.value.analytics)
  }

  predicate Requeues(job: Job, job': Job, j: Id, call: JobCall) {
    && call.DoRequeue? && call.job == j && job.state == DeadLetter
    && job' == job.(state := Queued, queuedAt := job'.queuedAt, lastRecovery := Some(ManualRequeue),
                    attempt := if call.reset then 0 else job.attempt)
  }

  predicate Cancels(job: Job, job': Job) {
    (job.state == Queued || job.Active()) && job' == CancelledJob(job)
  }

  /** An acquisition first recovers expired leases, so it can release a job and lease it again. */
  ghost predicate Moves(job: Job, job': Job, j: Id, now: Time, call: JobCall) {
    || job' == job
    || Releases(job, job', now)
    || Leases(job, job', now, call)
    || (job.Active() && Leases(Released(job, now, LeaseExpired), job', now, call))
    || Renews(job, job')
    || Starts(job, job')
    || Finishes(job, job')
    || Refreshes(job, job')
    || Requeues(job, job', j, call)
    || Cancels(job, job')
  }

  /** Row `j` moves in a listed way, or is absent before and newly scheduled after. */
  ghost predicate RowEvolves(db: Db, d: Db, call: JobCall, j: Id) {
    && (j in db.jobs ==> j in d.jobs && Moves(db.jobs[j], d.jobs[j], j, db.now, call))
    && (j !in db.jobs && j in d.jobs ==> d.jobs[j] == NewJob(d.jobs[j].request, db.now))
  }

  ghost predicate Evolves(db: Db, d: Db, a: Action) {
    if a.OnJob? then
      (forall j :: RowEvolves(db, d, a.jobCall, j)) && (forall t :: t in db.issued ==> t in d.issued)
    else d.jobs == db.jobs && d.issued == db.issued
  }

  lemma ScheduleRows(db: Db, id: Id, r: JobRequest, known: bool, k: Id)
    ensures var d := Schedule(db, id, r, known).db;
            && (k in db.jobs ==> k in d.jobs && d.jobs[k] == db.jobs[k])
            && (k !in db.jobs && k in d.jobs ==> d.jobs[k] == NewJob(d.jobs[k].request, db.now))
            && d.issued == db.issued && d.credentials == db.credentials && d.executors == db.executors
  {
  }

  lemma SettleRows(db: Db, recorded: Db, j: Id, failed: bool, out: Surroundings, k: Id)
    requires j in recorded.jobs && recorded.jobs[j].result.Some?
    ensures var o := Settle(db, recorded, j, failed, out);
            || o.db == db
            || (&& o.db.issued == recorded.issued && o.db.credentials == recorded.credentials
                && o.db.executors == recorded.executors
                && (k in recorded.jobs && k != j ==> k in o.db.jobs && o.db.jobs[k] == recorded.jobs[k])
                && (k !in recorded.jobs && k in o.db.jobs ==>
                    o.db.jobs[k] == NewJob(o.db.jobs[k].request, recorded.now))
                && j in o.db.jobs && o.db.jobs[j].result.Some?
                && o.db.jobs[j] == WithAnalytics(recorded.jobs[j], o.db.jobs[j].result.value.analytics))
  {
    if failed && out.retry.Some? {
      ScheduleRows(recorded, out.retry.value.0, out.retry.value.1, true, k);
      ScheduleRows(recorded, out.retry.value.0, out.retry.value.1, true, j);
    }
  }

  lemma FirstResultRows(db: Db, ex: Id, j: Id, sub: Submission, failed: bool, out: Surroundings, k: Id)
    requires j in db.jobs && db.jobs[j].Active()
    ensures var d := Settle(db, Recorded(db, ex, j, sub, failed), j, failed, out).db;
            RowEvolves(db, d, DoFinish(ex, j, sub, failed, out), k) && d.issued == db.issued &&
                d.executors == db.executors
  {
    SettleRows(db, Recorded(db, ex, j, sub, failed), j, failed, out, k);
  }

  lemma ResubmitRows(db: Db, ex: Id, j: Id, sub: Submission, failed: bool, out: Surroundings, k: Id)
    requires j in db.jobs && db.jobs[j].Finished()
    ensures var d := Resubmit(db, j, sub, failed, out).db;
            RowEvolves(db, d, DoFinish(ex, j, sub, failed, out), k) && d.issued == db.issued &&
                d.executors == db.executors
  {
  }

  lemma FinishRows(db: Db, ex: Id, j: Id, sub: Submission, failed: bool, out: Surroundings, k: Id)
    ensures var d := Finish(db, ex, j, sub, failed, out).db;
            RowEvolves(db, d, DoFinish(ex, j, sub, failed, out), k) && d.issued == db.issued &&
                d.executors == db.executors
  {
    if OwnershipError(db, ex, j, sub.leaseToken).None? {
      if db.jobs[j].Active() {
        FirstResultRows(db, ex, j, sub, failed, out, k);
      } else if db.jobs[j].Finished() {
        ResubmitRows(db, ex, j, sub, failed, out, k);
      }
    }
  }

  lemma AcquireRows(db: Db, ex: Id, seconds: int, token: Token, k: Id)
    ensures RowEvolves(db, Acquire(db, ex, seconds, token).db, DoAcquire(ex, seconds, token), k)
  {
    if OnlineExecutor(db, ex) {
      var d := RecoverExpired(db).db;
      var e := d.executors[ex];
      var i := FirstMatchFound(Window(d.jobs, e), d.jobs, e);
    }
  }

  lemma ReleaseRows(db: Db, reasons: map<Id, Reason>, call: JobCall, k: Id)
    requires forall j :: j in reasons ==> j in db.jobs && db.jobs[j].Active()
    ensures RowEvolves(db, ReleaseJobs(db, reasons), call, k)
  {
  }

  lemma StartRows(db: Db, ex: Id, j: Id, token: Token, stepKnown: bool, k: Id)
    ensures RowEvolves(db, Start(db, ex, j, token, stepKnown).db, DoStart(ex, j, token, stepKnown), k)
  {
    if j in db.jobs && db.jobs[j].Active() {
      ReleaseRows(db, map[j := LeaseExpired], DoStart(ex, j, token, stepKnown), k);
    }
  }

  lemma HeartbeatRows(db: Db, ex: Id, j: Id, token: Token, seconds: int, k: Id)
    ensures RowEvolves(db, HeartbeatJob(db, ex, j, token, seconds).db, DoHeartbeatJob(ex, j, token, seconds), k)
  {
    if j in db.jobs && db.jobs[j].Active() {
      ReleaseRows(db, map[j := LeaseExpired], DoHeartbeatJob(ex, j, token, seconds), k);
    }
  }

  lemma OperatorRows(db: Db, call: JobCall, k: Id)
    requires call.DoRecoverExpired? || call.DoRecoverOrphaned? || call.DoRequeue? || call.DoCancelRun? ||
             call.DoRevokeExecutor?
    ensures RowEvolves(db, JobStep(db, call).db, call, k)
  {
    match call
    case DoRecoverExpired => ReleaseRows(db, ExpiredJobs(db), call, k);
    case DoRecoverOrphaned(org) => ReleaseRows(db, OrphanedJobs(db, org), call, k);
    case DoRevokeExecutor(ex, _) => ReleaseRows(db, OwnedActiveJobs(db, ex), call, k);
    case _ =>
  }

  /** No job row ever disappears, and every row moves in one of the listed ways. */
  lemma JobStepEvolves(db: Db, call: JobCall, k: Id)
    ensures RowEvolves(db, JobStep(db, call).db, call, k)
  {
    match call
    case DoFinish(ex, j, sub, failed, out) => FinishRows(db, ex, j, sub, failed, out, k);
    case DoAcquire(ex, seconds, token) => AcquireRows(db, ex, seconds, token, k);
    case DoSchedule(id, r, known) => ScheduleRows(db, id, r, known, k);
    case DoStart(ex, j, token, known) => StartRows(db, ex, j, token, known, k);
    case DoHeartbeatJob(ex, j, token, seconds) => HeartbeatRows(db, ex, j, token, seconds, k);
    case _ => OperatorRows(db, call, k);
  }

  lemma IssuedGrows(db: Db, call: JobCall, t: Token)
    requires t in db.issued
    ensures t in JobStep(db, call).db.issued
  {
    if call.DoFinish? {
      FinishRows(db, call.executor, call.job, call.submission, call.failed, call.surroundings, 0);
    }
  }

  lemma StepEvolves(db: Db, a: Action)
    ensures Evolves(db, Step(db, a).db, a)
  {
    if a.OnJob? {
      forall k ensures RowEvolves(db, JobStep(db, a.jobCall).db, a.jobCall, k) {
        JobStepEvolves(db, a.jobCall, k);
      }
      forall t | t in db.issued ensures t in JobStep(db, a.jobCall).db.issued {
        IssuedGrows(db, a.jobCall, t);
      }
    } else if a.OnCredential? {
      CredentialFrame(db, a.credentialCall);
    } else if a.OnExecutor? {
      ExecutorFrame(db, a.executorCall);
    }
  }

  lemma ExecutorFrame(db: Db, call: ExecutorCall)
    ensures var d := ExecutorStep(db, call).db; d.jobs == db.jobs && d.issued == db.issued
  {
  }

  lemma CredentialFrame(db: Db, call: CredentialCall)
    ensures var d := CredentialStep(db, call).db;
            d.jobs == db.jobs && d.issued == db.issued && d.executors == db.executors
  {
  }

  // ----- fencing

  /** The token was handed out once and no job holds it now. */
  ghost predicate Dead(db: Db, t: Token) {
    t in db.issued && forall j :: j in db.jobs ==> db.jobs[j].tokenHash != Some(LeaseHash(t))
  }

  lemma DeadStep(db: Db, d: Db, a: Action, t: Token)
    requires Evolves(db, d, a) && Fresh(db, a) && Dead(db, t)
    ensures Dead(d, t)
  {
    forall j | j in d.jobs ensures d.jobs[j].tokenHash != Some(LeaseHash(t)) {
      assert a.OnJob? ==> RowEvolves(db, d, a.jobCall, j);
    }
  }

  /** A job holds only a token that was made for it. */
  ghost predicate TokensOk(db: Db) {
    forall j :: j in db.jobs && db.jobs[j].tokenHash.Some? ==>
      db.jobs[j].tokenHash.value.token in db.issued && db.issued[db.jobs[j].tokenHash.value.token] == j
  }

  lemma InvHasTokens(db: Db)
    requires Inv(db)
    ensures TokensOk(db)
  {
    forall j | j in db.jobs && db.jobs[j].tokenHash.Some?
      ensures db.jobs[j].tokenHash.value.token in db.issued && db.issued[db.jobs[j].tokenHash.value.token] == j
    {
      assert JobOk(db.jobs[j], j, db.executors, db.issued);
    }
  }

  /** A token that its own job no longer holds is dead: no other job could hold it. */
  lemma LostIsDead(db: Db, t: Token)
    requires TokensOk(db) && Lost(db, t)
    ensures Dead(db, t)
  {
  }

  /** The token was handed out, and the job it was made for does not hold it any more. */
  predicate Lost(db: Db, t: Token) {
    t in db.issued && (db.issued[t] in db.jobs ==> db.jobs[db.issued[t]].tokenHash != Some(LeaseHash(t)))
  }

  lemma DeadIsRejected(db: Db, t: Token, a: Action)
    requires Dead(db, t) && Presented(a) == Some(t)
    ensures Step(db, a).reply.Rejected? && Step(db, a).db == db
  {
  }

  lemma {:induction false} DeadForever(db: Db, actions: seq<Action>, t: Token)
    requires Run(db, actions) && Dead(db, t)
    ensures Dead(After(db, actions), t)
    decreases actions
  {
    if actions != [] {
      StepEvolves(db, actions[0]);
      DeadStep(db, Step(db, actions[0]).db, actions[0], t);
      DeadForever(Step(db, actions[0]).db, actions[1..], t);
    }
  }

  /** The lease token a call presents, if it presents one. */
  function Presented(a: Action): Option<Token> {
    match a
    case OnJob(DoStart(_, _, t, _)) => Some(t)
    case OnJob(DoHeartbeatJob(_, _, t, _)) => Some(t)
    case OnJob(DoFinish(_, _, sub, _, _)) => Some(sub.leaseToken)
    case OnCredential(DoIssue(_, _, t, _, _, _, _, _)) => Some(t)
    case OnCredential(DoExchange(_, _, t, _, _)) => Some(t)
    case OnCredential(DoRenew(_, _, t, _, _)) => Some(t)
    case _ => None
  }

  /**
   Fencing.  Once a job has let go of the lease token `t` (by release, re-lease or cancellation),
   no call presenting `t` is ever accepted again: whatever happens in between, whoever calls, on
   whichever job, the call is rejected and changes nothing.
   */
  lemma Fencing(now: Time, earlier: seq<Action>, t: Token, later: seq<Action>, a: Action)
    requires Run(Init(now), earlier) && Lost(After(Init(now), earlier), t)
    requires Run(After(Init(now), earlier), later) && Presented(a) == Some(t)
    ensures var d := After(After(Init(now), earlier), later);
            Step(d, a).reply.Rejected? && Step(d, a).db == d
  {
    var db := After(Init(now), earlier);
    ReachableInv(now, earlier);
    InvHasTokens(db);
    LostIsDead(db, t);
    DeadForever(db, later, t);
    DeadIsRejected(After(db, later), t, a);
  }

  // ----- the attempt ledger

  function Live(job: Job): nat {
    if job.HoldsLease() then 1 else 0
  }

  /** Attempts are either spent on a recovery or backing the lease still held. */
  predicate Balanced(job: Job) {
    job.state == Cancelled || job.attempt == job.recoveryCount + Live(job)
  }

  predicate ResetOf(a: Action, j: Id) {
    a.OnJob? && a.jobCall.DoRequeue? && a.jobCall.job == j && a.jobCall.reset
  }

  predicate RequeueOf(a: Action, j: Id) {
    a.OnJob? && a.jobCall.DoRequeue? && a.jobCall.job == j
  }

  lemma LedgerStep(db: Db, d: Db, a: Action, j: Id)
    requires Evolves(db, d, a) && !ResetOf(a, j) && (j in db.jobs ==> Balanced(db.jobs[j]))
    ensures j in d.jobs ==> Balanced(d.jobs[j])
  {
    assert a.OnJob? ==> RowEvolves(db, d, a.jobCall, j);
  }

  lemma {:induction false} LedgerRun(db: Db, actions: seq<Action>, j: Id)
    requires Inv(db) && Run(db, actions) && (j in db.jobs ==> Balanced(db.jobs[j]))
    requires forall i :: 0 <= i < |actions| ==> !ResetOf(actions[i], j)
    ensures j in After(db, actions).jobs ==> Balanced(After(db, actions).jobs[j])
    decreases actions
  {
    if actions != [] {
      var d := Step(db, actions[0]).db;
      StepEvolves(db, actions[0]);
      LedgerStep(db, d, actions[0], j);
      StepKeepsInv(db, actions[0]);
      LedgerRun(d, actions[1..], j);
    }
  }

  /** Until its attempts are reset by hand, a job has used one attempt per recovery plus one for its lease. */
  lemma AttemptLedger(now: Time, actions: seq<Action>, j: Id)
    requires Run(Init(now), actions)
    requires forall i :: 0 <= i < |actions| ==> !ResetOf(actions[i], j)
    ensures var db := After(Init(now), actions);
            j in db.jobs && db.jobs[j].state != Cancelled ==>
              db.jobs[j].attempt == db.jobs[j].recoveryCount + (if db.jobs[j].HoldsLease() then 1 else 0)
  {
    LedgerRun(Init(now), actions, j);
  }

  // ----- bounded number of state changes

  function Phase(state: JobState): nat {
    match state
    case Leased => 3
    case Running => 2
    case Cancelled => 0
    case _ => 1
  }

  function Fuel(job: Job): int {
    3 * (Max(0, job.request.maxAttempts) - job.attempt) + Phase(job.state)
  }

  /** How often the state changes: an acquisition that releases a job and leases it again changes it twice. */
  function Changes(job: Job, job': Job): nat {
    if job.Active() && job'.Active() && job'.attempt > job.attempt then 2
    else if job'.state != job.state then 1
    else 0
  }

  ghost function StateChanges(db: Db, actions: seq<Action>, j: Id): nat
    decreases actions
  {
    if actions == [] then 0
    else
      var d := Step(db, actions[0]).db;
      (if j in db.jobs && j in d.jobs then Changes(db.jobs[j], d.jobs[j]) else 0) + StateChanges(d, actions[1..], j)
  }

  /** A call burns fuel whenever it changes the state, unless it is a manual requeue. */
  lemma MoveBurnsFuel(job: Job, job': Job, j: Id, now: Time, call: JobCall)
    requires Moves(job, job', j, now, call) && !(call.DoRequeue? && call.job == j)
    requires job.attempt <= Max(0, job.request.maxAttempts)
    ensures job'.request == job.request
    ensures Fuel(job') + Changes(job, job') <= Fuel(job)
  {
  }

  lemma FuelStep(db: Db, d: Db, a: Action, j: Id)
    requires Inv(db) && Evolves(db, d, a) && !RequeueOf(a, j)
    ensures j in db.jobs ==> j in d.jobs && d.jobs[j].request == db.jobs[j].request &&
                             Fuel(d.jobs[j]) + Changes(db.jobs[j], d.jobs[j]) <= Fuel(db.jobs[j])
    ensures j !in db.jobs && j in d.jobs ==> Fuel(d.jobs[j]) == 3 * Max(0, d.jobs[j].request.maxAttempts) + 1
  {
    assert a.OnJob? ==> RowEvolves(db, d, a.jobCall, j);
    if j in db.jobs && a.OnJob? {
      assert JobOk(db.jobs[j], j, db.executors, db.issued);
      MoveBurnsFuel(db.jobs[j], d.jobs[j], j, db.now, a.jobCall);
    }
  }

  lemma {:induction false} FuelBound(db: Db, actions: seq<Action>, j: Id)
    requires Inv(db) && Run(db, actions)
    requires forall i :: 0 <= i < |actions| ==> !RequeueOf(actions[i], j)
    requires j in After(db, actions).jobs
    ensures var end := After(db, actions).jobs[j];
            StateChanges(db, actions, j) + Fuel(end) <=
            if j in db.jobs then Fuel(db.jobs[j]) else 3 * Max(0, end.request.maxAttempts) + 1
    ensures j in db.jobs ==> After(db, actions).jobs[j].request == db.jobs[j].request
    decreases actions
  {
    if actions != [] {
      var d := Step(db, actions[0]).db;
      StepKeepsInv(db, actions[0]);
      FuelBound(d, actions[1..], j);
      StepEvolves(db, actions[0]);
      FuelStep(db, d, actions[0], j);
    }
  }

  /** Without a manual requeue a job changes state at most three times per attempt, plus once if it is cancelled. */
  lemma BoundedStateChanges(now: Time, actions: seq<Action>, j: Id)
    requires Run(Init(now), actions) && j in After(Init(now), actions).jobs
    requires forall i :: 0 <= i < |actions| ==> !RequeueOf(actions[i], j)
    ensures var end := After(Init(now), actions).jobs[j];
            StateChanges(Init(now), actions, j) <=
              3 * Max(0, end.request.maxAttempts) + (if end.state == Cancelled then 1 else 0)
  {
    FuelBound(Init(now), actions, j);
    ReachableInv(now, actions);
    var end := After(Init(now), actions);
    assert JobOk(end.jobs[j], j, end.executors, end.issued);
  }

  // ----- results are written once

  /** The row with the analytics annotation of its result blanked out. */
  function Essence(job: Job): Job {
    WithAnalytics(job, NotRecorded)
  }

  lemma TerminalStep(db: Db, d: Db, a: Action, j: Id)
    requires Evolves(db, d, a) && j in db.jobs && db.jobs[j].Finished()
    ensures j in d.jobs && Essence(d.jobs[j]) == Essence(db.jobs[j])
  {
    assert a.OnJob? ==> RowEvolves(db, d, a.jobCall, j);
  }

  lemma {:induction false} TerminalForever(db: Db, actions: seq<Action>, j: Id)
    requires Inv(db) && Run(db, actions) && j in db.jobs && db.jobs[j].Finished()
    ensures j in After(db, actions).jobs && Essence(After(db, actions).jobs[j]) == Essence(db.jobs[j])
    decreases actions
  {
    if actions != [] {
      StepEvolves(db, actions[0]);
      TerminalStep(db, Step(db, actions[0]).db, actions[0], j);
      StepKeepsInv(db, actions[0]);
      TerminalForever(Step(db, actions[0]).db, actions[1..], j);
    }
  }

  /** Once finished, a job keeps its state, result, hash and signature over every continuation. */
  lemma ResultsAreWriteOnce(db: Db, actions: seq<Action>, j: Id)
    requires Inv(db) && Run(db, actions) && j in db.jobs && db.jobs[j].Finished()
    ensures j in After(db, actions).jobs && After(db, actions).jobs[j].result.Some? && db.jobs[j].result.Some?
    ensures var job, job' := db.jobs[j], After(db, actions).jobs[j];
            && job'.state == job.state
            && job'.result.value.contract == job.result.value.contract
            && job'.result.value.hash == job.result.value.hash
            && job'.result.value.signature == job.result.value.signature
  {
    TerminalForever(db, actions, j);
    assert JobOk(db.jobs[j], j, db.executors, db.issued);
  }

  /** The owner of a finished job who submits again is acknowledged exactly when the result is the stored one. */
  lemma ResubmissionIsIdempotent(db: Db, ex: Id, j: Id, sub: Submission, failed: bool, out: Surroundings)
    requires Inv(db) && OwnershipError(db, ex, j, sub.leaseToken).None? && db.jobs[j].Finished()
    ensures db.jobs[j].result.Some?
    ensures var again := Finish(db, ex, j, sub, failed, out);
            if && failed == (db.jobs[j].state == Failed) && sub.result == db.jobs[j].result.value.contract
               && sub.resultHash == ResultHash(sub.result)
            then again.reply == JobReply(j) && Essence(again.db.jobs[j]) == Essence(db.jobs[j])
            else again.reply.Rejected? && again.db == db
  {
  }

  // ----- when a first result is accepted

  /**
   Everything that decides about a first result for an owned active job; the expiry of the lease is
   not part of it.
   */
  ghost predicate Acceptable(db: Db, ex: Id, j: Id, sub: Submission, failed: bool, out: Surroundings)
    requires ex in db.executors && j in db.jobs
  {
    && sub.resultHash == ResultHash(sub.result) && ResultError(db.executors[ex], db.jobs[j], sub, failed).None?
    && out.accepted && !Retried(Recorded(db, ex, j, sub, failed), failed, out).reply.Rejected?
  }

  /**
   A first result is acknowledged exactly when it is acceptable, and stored exactly when it is
   acceptable or well-formed and committed on the way; otherwise nothing changes.
   */
  lemma FirstResultAcceptedIff(db: Db, ex: Id, j: Id, sub: Submission, failed: bool, out: Surroundings)
    requires OwnershipError(db, ex, j, sub.leaseToken).None? && db.jobs[j].Active()
    ensures var o := Finish(db, ex, j, sub, failed, out);
            var sound := sub.resultHash == ResultHash(sub.result) &&
                ResultError(db.executors[ex], db.jobs[j], sub, failed).None?;
            && (o.reply == JobReply(j) <==> Acceptable(db, ex, j, sub, failed, out))
            && (o.reply != JobReply(j) ==> o.reply.Rejected?)
            && j in o.db.jobs
            && (o.db.jobs[j].Finished() <==> Acceptable(db, ex, j, sub, failed, out) || (sound && out.committed))
            && (o.db.jobs[j].Finished() ==>
                o.db.jobs[j].result.Some? && o.db.jobs[j].result.value.contract == sub.result)
            && (!o.db.jobs[j].Finished() ==> o.db == db)
  {
    SettleRows(db, Recorded(db, ex, j, sub, failed), j, failed, out, j);
  }

  /**
   Over every run: a result that is acknowledged, late or not, was presented under a token that is
   not lost, for the very job that token was made for.
   */
  lemma ResultsComeUnderHeldTokens(now: Time, actions: seq<Action>, ex: Id, j: Id, sub: Submission, failed: bool,
                                   out: Surroundings)
    requires Run(Init(now), actions)
    requires !Finish(After(Init(now), actions), ex, j, sub, failed, out).reply.Rejected?
    ensures var db := After(Init(now), actions);
            !Lost(db, sub.leaseToken) && sub.leaseToken in db.issued && db.issued[sub.leaseToken] == j
  {
    var db := After(Init(now), actions);
    ReachableInv(now, actions);
    assert OwnershipError(db, ex, j, sub.leaseToken).None?;
    assert JobOk(db.jobs[j], j, db.executors, db.issued);
  }

  // ----- one-time exchange

  function Uses(db: Db, c: Id): nat {
    if c in db.credentials then db.credentials[c].useCount else 0
  }

  /** A credential row stays, with its time of issue. */
  predicate Persists(db: Db, d: Db, c: Id) {
    c in db.credentials ==> c in d.credentials && d.credentials[c].issuedAt == db.credentials[c].issuedAt
  }

  ghost function Exchanges(db: Db, actions: seq<Action>, c: Id): nat
    decreases actions
  {
    if actions == [] then 0
    else
      var o := Step(db, actions[0]);
      (if o.reply.Material? && o.reply.credential == c then 1 else 0) + Exchanges(o.db, actions[1..], c)
  }

  lemma FinishUses(db: Db, ex: Id, j: Id, sub: Submission, failed: bool, out: Surroundings, c: Id)
    ensures Uses(Finish(db, ex, j, sub, failed, out).db, c) == Uses(db, c)
    ensures Persists(db, Finish(db, ex, j, sub, failed, out).db, c)
    ensures !Finish(db, ex, j, sub, failed, out).reply.Material?
  {
    if OwnershipError(db, ex, j, sub.leaseToken).None? && db.jobs[j].Active() {
      SettleRows(db, Recorded(db, ex, j, sub, failed), j, failed, out, j);
    }
  }

  lemma AcquireUses(db: Db, ex: Id, seconds: int, token: Token, c: Id)
    ensures Uses(Acquire(db, ex, seconds, token).db, c) == Uses(db, c)
    ensures Persists(db, Acquire(db, ex, seconds, token).db, c)
    ensures !Acquire(db, ex, seconds, token).reply.Material?
  {
  }

  lemma CredentialUses(db: Db, call: CredentialCall, c: Id)
    ensures var o := CredentialStep(db, call);
            && Uses(o.db, c) == Uses(db, c) + (if o.reply.Material? && o.reply.credential == c then 1 else 0)
            && (o.reply.Material? && o.reply.credential == c ==> Uses(db, c) == 0) && Persists(db, o.db, c)
  {
  }

  lemma LeaseHolderUses(db: Db, call: JobCall, c: Id)
    requires call.DoStart? || call.DoHeartbeatJob?
    ensures Uses(JobStep(db, call).db, c) == Uses(db, c) && !JobStep(db, call).reply.Material?
    ensures Persists(db, JobStep(db, call).db, c)
  {
  }

  lemma JobUses(db: Db, call: JobCall, c: Id)
    ensures Uses(JobStep(db, call).db, c) == Uses(db, c) && !JobStep(db, call).reply.Material?
    ensures Persists(db, JobStep(db, call).db, c)
  {
    match call
    case DoFinish(ex, j, sub, failed, out) => FinishUses(db, ex, j, sub, failed, out, c);
    case DoAcquire(ex, seconds, token) => AcquireUses(db, ex, seconds, token, c);
    case DoSchedule(id, r, known) => ScheduleRows(db, id, r, known, id);
    case DoStart(_, _, _, _) => LeaseHolderUses(db, call, c);
    case DoHeartbeatJob(_, _, _, _) => LeaseHolderUses(db, call, c);
    case _ => OperatorUses(db, call, c);
  }

  lemma OperatorUses(db: Db, call: JobCall, c: Id)
    requires call.DoRecoverExpired? || call.DoRecoverOrphaned? || call.DoRequeue? || call.DoCancelRun? ||
             call.DoRevokeExecutor?
    ensures Uses(JobStep(db, call).db, c) == Uses(db, c) && !JobStep(db, call).reply.Material?
    ensures Persists(db, JobStep(db, call).db, c)
  {
  }

  /** Handing out material and consuming the lease happen together or not at all. */
  lemma ExchangeStep(db: Db, a: Action, c: Id)
    ensures var o := Step(db, a);
            && Uses(o.db, c) == Uses(db, c) + (if o.reply.Material? && o.reply.credential == c then 1 else 0)
            && (o.reply.Material? && o.reply.credential == c ==> Uses(db, c) == 0) && Persists(db, o.db, c)
  {
    match a
    case OnJob(call) => JobUses(db, call, c);
    case OnCredential(call) => CredentialUses(db, call, c);
    case OnExecutor(call) => ExecutorUses(db, call, c);
    case Tick(_) =>
  }

  lemma ExecutorUses(db: Db, call: ExecutorCall, c: Id)
    ensures Uses(ExecutorStep(db, call).db, c) == Uses(db, c) && !ExecutorStep(db, call).reply.Material?
    ensures Persists(db, ExecutorStep(db, call).db, c)
  {
  }

  lemma {:induction false} ExchangeLedger(db: Db, actions: seq<Action>, c: Id)
    requires Run(db, actions)
    ensures Uses(After(db, actions), c) == Uses(db, c) + Exchanges(db, actions, c)
    decreases actions
  {
    if actions != [] {
      ExchangeStep(db, actions[0], c);
      ExchangeLedger(Step(db, actions[0]).db, actions[1..], c);
    }
  }

  /** Over a whole run, material is handed out at most once per credential lease. */
  lemma ExchangedAtMostOnce(now: Time, actions: seq<Action>, c: Id)
    requires Run(Init(now), actions)
    ensures Exchanges(Init(now), actions, c) <= 1
  {
    ExchangeLedger(Init(now), actions, c);
    ReachableInv(now, actions);
    var db := After(Init(now), actions);
    if c in db.credentials { assert CredentialOk(db.credentials[c], db.jobs); }
  }

  // ----- revocation and recovery

  lemma {:induction false} RevokedForever(db: Db, actions: seq<Action>, ex: Id)
    requires Inv(db) && Run(db, actions) && ex in db.executors && db.executors[ex].status == Revoked
    ensures ex in After(db, actions).executors && After(db, actions).executors[ex].status == Revoked
    decreases actions
  {
    if actions != [] {
      RevokedStep(db, actions[0], ex);
      StepKeepsInv(db, actions[0]);
      RevokedForever(Step(db, actions[0]).db, actions[1..], ex);
    }
  }

  lemma RevokedJobStep(db: Db, call: JobCall, ex: Id)
    requires Inv(db) && ex in db.executors && db.executors[ex].status == Revoked
    ensures ex in JobStep(db, call).db.executors && JobStep(db, call).db.executors[ex].status == Revoked
  {
    match call
    case DoFinish(owner, j, sub, failed, out) => FinishRows(db, owner, j, sub, failed, out, j);
    case DoSchedule(id, r, known) => ScheduleRows(db, id, r, known, id);
    case _ =>
  }

  lemma RevokedStep(db: Db, a: Action, ex: Id)
    requires Inv(db) && ex in db.executors && db.executors[ex].status == Revoked
    ensures ex in Step(db, a).db.executors && Step(db, a).db.executors[ex].status == Revoked
  {
    match a
    case OnJob(call) => RevokedJobStep(db, call, ex);
    case OnCredential(call) => CredentialFrame(db, call);
    case _ =>
  }

  /** From revocation on, an executor owns no active job and no unrevoked credential, whatever else happens. */
  lemma RevokedOwnsNothing(db: Db, actions: seq<Action>, ex: Id)
    requires Inv(db) && Run(db, actions) && ex in db.executors && db.executors[ex].status == Revoked
    ensures var d := After(db, actions);
            && (forall j :: j in d.jobs && d.jobs[j].Active() ==> d.jobs[j].owner != Some(ex))
            && (forall c :: c in d.credentials && d.credentials[c].executor == ex ==> !d.credentials[c].Unrevoked())
  {
    var d := After(db, actions);
    RunKeepsInv(db, actions);
    RevokedForever(db, actions, ex);
    forall j | j in d.jobs && d.jobs[j].Active() ensures d.jobs[j].owner != Some(ex) {
      assert JobOk(d.jobs[j], j, d.executors, d.issued);
    }
    forall c | c in d.credentials && d.credentials[c].executor == ex ensures !d.credentials[c].Unrevoked() {
      assert CredentialOk(d.credentials[c], d.jobs);
      var j := d.credentials[c].job;
      assert JobOk(d.jobs[j], j, d.executors, d.issued);
    }
  }

  /** Orphan recovery leaves nothing to recover in its scope and touches nothing outside it. */
  lemma OrphanRecoveryIsComplete(db: Db, organization: Option<Id>)
    requires Inv(db)
    ensures var d := RecoverOrphaned(db, organization).db;
            && OrphanedJobs(d, organization) == map[]
            && (forall j :: j in d.jobs && d.jobs[j].Active() && InOrganization(d.jobs[j], organization) ==>
                  d.jobs[j].expiresAt.Some? && d.jobs[j].expiresAt.value > d.now &&
                  d.jobs[j].owner.Some? && d.jobs[j].owner.value in d.executors)
            && (forall j :: j in db.jobs && !InOrganization(db.jobs[j], organization) ==>
                  j in d.jobs && d.jobs[j] == db.jobs[j])
  {
    var d := RecoverOrphaned(db, organization).db;
    forall j | j in d.jobs ensures !Orphaned(d, j, organization) {
      if j in OrphanedJobs(db, organization) {
        assert !d.jobs[j].Active();
      } else {
        assert !Orphaned(db, j, organization);
      }
    }
    assert OrphanedJobs(d, organization) == map[];
  }

  lemma WindowIsPrefix(jobs: map<Id, Job>, e: Executor, j: Id) returns (order: seq<Id>, k: nat)
    requires j in jobs && Eligible(e, jobs[j])
    ensures (forall a :: a in order ==> a in jobs) && InQueryOrder(jobs, order)
    ensures k < |order| && order[k] == j && Window(jobs, e) <= order
    ensures k >= |Window(jobs, e)| ==> |Window(jobs, e)| == CANDIDATE_LIMIT
  {
    order := QueueOrder(jobs, Candidates(jobs, e));
    QueueOrdered(jobs, Candidates(jobs, e));
    assert j in order;
    k :| 0 <= k < |order| && order[k] == j;
  }

  /** The loop stops at the first match among the jobs it looks at, and no matching job precedes it, seen or unseen. */
  lemma FifoChoice(jobs: map<Id, Job>, e: Executor)
    ensures var w := Window(jobs, e);
            var found := FirstMatch(w, jobs, e);
            && (found.None? <==> forall j :: j in w ==> !Matches(e, jobs[j]))
            && (found.Some? ==>
                  && found.value in jobs && Eligible(e, jobs[found.value]) && Matches(e, jobs[found.value])
                  && forall j :: j in jobs && Eligible(e, jobs[j]) && Matches(e, jobs[j]) ==>
                     Before(jobs, found.value, j))
  {
    var w := Window(jobs, e);
    var i := FirstMatchFound(w, jobs, e);
    if i < |w| {
      assert w[i] in w;
      forall j | j in jobs && Eligible(e, jobs[j]) && Matches(e, jobs[j]) ensures Before(jobs, w[i], j) {
        var order, k := WindowIsPrefix(jobs, e, j);
        assert k < |w| ==> w[k] == j;
        QueryOrderAt(jobs, order, i, k);
      }
    }
  }

  /** An eligible job that the loop does not look at has a hundred eligible jobs before it. */
  lemma OutOfSight(jobs: map<Id, Job>, e: Executor, j: Id)
    requires j in jobs && Eligible(e, jobs[j]) && j !in Window(jobs, e)
    ensures |Window(jobs, e)| == CANDIDATE_LIMIT && forall a :: a in Window(jobs, e) ==> Before(jobs, a, j)
  {
    var w := Window(jobs, e);
    var order, k := WindowIsPrefix(jobs, e, j);
    assert k >= |w|;
    forall a | a in w ensures Before(jobs, a, j) {
      var b :| 0 <= b < |w| && w[b] == a;
      QueryOrderAt(jobs, order, b, k);
    }
  }

  /**
   An acquisition grants the earliest-queued job that is eligible and matches the executor's
   capabilities and labels.  It answers that there is no work exactly when none of the first
   hundred eligible jobs matches, so it can miss only a job with a hundred eligible ones before it.
   */
  lemma AcquireIsFifo(db: Db, ex: Id, seconds: int, token: Token)
    requires OnlineExecutor(db, ex)
    ensures var d := RecoverExpired(db).db;
            var e := db.executors[ex];
            var r := Acquire(db, ex, seconds, token).reply;
            && (r.NoWork? <==> forall j :: j in Window(d.jobs, e) ==> !Matches(e, d.jobs[j]))
            && (!r.NoWork? ==>
                  && r.LeaseGranted? && r.token == token
                  && r.job in d.jobs && Eligible(e, d.jobs[r.job]) && Matches(e, d.jobs[r.job])
                  && forall j :: j in d.jobs && Eligible(e, d.jobs[j]) && Matches(e, d.jobs[j]) ==>
                     Before(d.jobs, r.job, j))
            && (forall j :: j in d.jobs && Eligible(e, d.jobs[j]) && j !in Window(d.jobs, e) ==>
                  |Window(d.jobs, e)| == CANDIDATE_LIMIT && forall k :: k in Window(d.jobs, e) ==> Before(d.jobs, k, j))
  {
    var d, e := RecoverExpired(db).db, db.executors[ex];
    FifoChoice(d.jobs, e);
    forall j | j in d.jobs && Eligible(e, d.jobs[j]) && j !in Window(d.jobs, e)
      ensures |Window(d.jobs, e)| == CANDIDATE_LIMIT && forall k :: k in Window(d.jobs, e) ==> Before(d.jobs, k, j)
    {
      OutOfSight(d.jobs, e, j);
    }
  }

  /**
   The lease columns of every reachable job: filled exactly while a lease is held, by an executor
   that is not revoked.
   */
  lemma LeaseTable(now: Time, actions: seq<Action>, j: Id)
    requires Run(Init(now), actions) && j in After(Init(now), actions).jobs
    ensures var db := After(Init(now), actions);
            var job := db.jobs[j];
            && (job.Active() || job.Finished() <==> job.owner.Some? && job.tokenHash.Some? && job.expiresAt.Some?)
            && (!job.Active() && !job.Finished() <==> job.owner.None? && job.tokenHash.None? && job.expiresAt.None?)
            && 0 <= job.attempt <= Max(0, job.request.maxAttempts)
            && (job.Active() ==> job.owner.value in db.executors && db.executors[job.owner.value].status != Revoked)
            && (job.result.Some? <==> job.Finished())
  {
    ReachableInv(now, actions);
    var db := After(Init(now), actions);
    assert JobOk(db.jobs[j], j, db.executors, db.issued);
  }

  /** A credential never outlives fifteen minutes from its issue, and no two live unused ones serve the same purpose. */
  lemma CredentialsAreShortLivedAndSingle(now: Time, actions: seq<Action>, a: Id, b: Id)
    requires Run(Init(now), actions) && a in After(Init(now), actions).credentials &&
             b in After(Init(now), actions).credentials
    ensures var db := After(Init(now), actions);
            && db.credentials[a].expiresAt <= db.credentials[a].issuedAt + 900 * SECOND
            && ((SameGrant(db.credentials[a], db.credentials[b]) && db.credentials[a].LiveUnused(db.now) &&
                 db.credentials[b].LiveUnused(db.now)) ==> a == b)
  {
    ReachableInv(now, actions);
    var db := After(Init(now), actions);
    assert CredentialOk(db.credentials[a], db.jobs);
  }
}
