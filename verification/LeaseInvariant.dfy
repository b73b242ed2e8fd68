/**
 The invariant of the joint lease tables and the proof that every service call keeps it.
 */
module LeaseInvariant {
  import opened Common
  import opened LeaseRecords
  import opened LeaseSpec

  /**
   The lease columns are filled exactly while a lease is held, the attempt count respects its
   limit, a stored result is exactly what finishing leaves behind, active work is never owned by
   a revoked executor, and a stored token hash is that of a token handed out for this very job.
   */
  ghost predicate JobOk(job: Job, j: Id, executors: map<Id, Executor>, issued: map<Token, Id>) {
    && (job.HoldsLease() <==> job.owner.Some?)
    && (job.owner.Some? <==> job.tokenHash.Some?)
    && (job.owner.Some? <==> job.expiresAt.Some?)
    && job.attempt <= Max(0, job.request.maxAttempts)
    && (job.Finished() <==> job.result.Some?)
    && (job.result.Some? ==> job.result.value.hash == ResultHash(job.result.value.contract))
    && (job.Active() ==> job.owner.value in executors && executors[job.owner.value].status != Revoked)
    && (job.tokenHash.Some? ==> job.tokenHash.value.token in issued && issued[job.tokenHash.value.token] == j)
  }

  ghost predicate JobsOk(jobs: map<Id, Job>, executors: map<Id, Executor>, issued: map<Token, Id>) {
    forall j :: j in jobs ==> JobOk(jobs[j], j, executors, issued)
  }

  /** An unrevoked credential belongs to an active job leased by that credential's executor. */
  ghost predicate CredentialOk(record: Credential, jobs: map<Id, Job>) {
    && record.job in jobs
    && (record.Unrevoked() ==> jobs[record.job].Active() && jobs[record.job].owner == Some(record.executor))
    && record.useCount <= 1
    && record.expiresAt <= record.issuedAt + MAX_CREDENTIAL_SECONDS * SECOND
  }

  ghost predicate CredentialsOk(credentials: map<Id, Credential>, jobs: map<Id, Job>) {
    forall c :: c in credentials ==> CredentialOk(credentials[c], jobs)
  }

  predicate SameGrant(a: Credential, b: Credential) {
    a.job == b.job && a.executor == b.executor && a.requirement == b.requirement
  }

  ghost predicate OneLivePerGrant(credentials: map<Id, Credential>, now: Time) {
    forall a, b | a in credentials && b in credentials ::
      (SameGrant(credentials[a], credentials[b]) && credentials[a].LiveUnused(now) &&
       credentials[b].LiveUnused(now)) ==> a == b
  }

  ghost predicate OneJobPerKey(jobs: map<Id, Job>) {
    forall a, b | a in jobs && b in jobs :: SameKey(jobs[a], jobs[b].request) ==> a == b
  }

  ghost predicate Inv(db: Db) {
    && JobsOk(db.jobs, db.executors, db.issued)
    && CredentialsOk(db.credentials, db.jobs)
    && OneLivePerGrant(db.credentials, db.now)
    && OneJobPerKey(db.jobs)
  }

  lemma ReleasedRowsOk(jobs: map<Id, Job>, executors: map<Id, Executor>, issued: map<Token, Id>,
                       reasons: map<Id, Reason>, now: Time)
    requires JobsOk(jobs, executors, issued) && OneJobPerKey(jobs)
    requires forall j :: j in reasons ==> j in jobs && jobs[j].Active()
    ensures JobsOk(ReleasedRows(jobs, reasons, now), executors, issued) &&
            OneJobPerKey(ReleasedRows(jobs, reasons, now))
  {
  }

  /** Once the credentials of the jobs in `ids` are revoked, only the other jobs matter. */
  lemma RevokedCredentialsOk(cs: map<Id, Credential>, jobs: map<Id, Job>, after: map<Id, Job>, ids: set<Id>, now: Time)
    requires CredentialsOk(cs, jobs) && OneLivePerGrant(cs, now)
    requires forall j :: j in jobs ==> j in after && (j in ids || after[j] == jobs[j])
    ensures CredentialsOk(RevokeForJobs(cs, ids, now), after) && OneLivePerGrant(RevokeForJobs(cs, ids, now), now)
  {
  }

  lemma ReleaseKeepsInv(db: Db, reasons: map<Id, Reason>)
    requires Inv(db)
    requires forall j :: j in reasons ==> j in db.jobs && db.jobs[j].Active()
    ensures Inv(ReleaseJobs(db, reasons))
  {
    ReleasedRowsOk(db.jobs, db.executors, db.issued, reasons, db.now);
    RevokedCredentialsOk(db.credentials, db.jobs, ReleasedRows(db.jobs, reasons, db.now), reasons.Keys, db.now);
  }

  lemma CancelledRowsOk(jobs: map<Id, Job>, executors: map<Id, Executor>, issued: map<Token, Id>, hit: set<Id>)
    requires JobsOk(jobs, executors, issued) && OneJobPerKey(jobs)
    requires forall j :: j in hit ==> j in jobs && !jobs[j].Finished()
    ensures JobsOk(CancelledRows(jobs, hit), executors, issued) && OneJobPerKey(CancelledRows(jobs, hit))
  {
  }

  lemma CancelKeepsInv(db: Db, run: Id, allowed: bool)
    requires Inv(db)
    ensures Inv(CancelRun(db, run, allowed).db)
  {
    if allowed {
      var hit := CancellableJobs(db.jobs, run);
      CancelledRowsOk(db.jobs, db.executors, db.issued, hit);
      RevokedCredentialsOk(db.credentials, db.jobs, CancelledRows(db.jobs, hit), hit, db.now);
    }
  }

  /** Replacing one executor record keeps the job rows sound unless it revokes the owner of active work. */
  lemma ExecutorUpdateKeepsInv(db: Db, ex: Id, e: Executor)
    requires Inv(db)
    requires e.status == Revoked ==> forall j :: j in db.jobs && db.jobs[j].Active() ==> db.jobs[j].owner != Some(ex)
    ensures Inv(db.(executors := db.executors[ex := e]))
  {
  }

  lemma ExecutorStepKeepsInv(db: Db, call: ExecutorCall)
    requires Inv(db)
    ensures Inv(ExecutorStep(db, call).db)
  {
    var d := ExecutorStep(db, call).db;
    if call.executor in d.executors {
      forall j | j in db.jobs && db.jobs[j].Active() && d.executors[call.executor].status == Revoked
        ensures db.jobs[j].owner != Some(call.executor)
      {
        assert JobOk(db.jobs[j], j, db.executors, db.issued);
      }
      ExecutorUpdateKeepsInv(db, call.executor, d.executors[call.executor]);
    }
  }

  lemma RevokeForExecutorKeepsInv(db: Db, ex: Id)
    requires Inv(db)
    ensures Inv(db.(credentials := RevokeForExecutor(db.credentials, ex, db.now)))
  {
    var rs := RevokeForExecutor(db.credentials, ex, db.now);
    forall c | c in rs ensures CredentialOk(rs[c], db.jobs) {
      assert CredentialOk(db.credentials[c], db.jobs);
    }
  }

  lemma RevokeExecutorKeepsInv(db: Db, ex: Id, authorized: bool)
    requires Inv(db)
    ensures Inv(RevokeExecutor(db, ex, authorized).db)
  {
    if ex in db.executors {
      var r := ReleaseJobs(db, OwnedActiveJobs(db, ex));
      var e := r.executors[ex].(status := Revoked);
      assert Inv(r.(executors := r.executors[ex := e])) by {
        ReleaseKeepsInv(db, OwnedActiveJobs(db, ex));
        assert forall j :: j in r.jobs && r.jobs[j].Active() ==> r.jobs[j].owner != Some(ex);
        ExecutorUpdateKeepsInv(r, ex, e);
      }
      RevokeForExecutorKeepsInv(r.(executors := r.executors[ex := e]), ex);
    }
  }

  /** A credential table stays sound when jobs are added or move without losing their lease. */
  lemma CredentialsFollow(cs: map<Id, Credential>, jobs: map<Id, Job>, after: map<Id, Job>)
    requires CredentialsOk(cs, jobs)
    requires forall j :: j in jobs ==>
             j in after && (jobs[j].Active() ==> after[j].Active() && after[j].owner == jobs[j].owner)
    ensures CredentialsOk(cs, after)
  {
  }

  lemma ScheduleKeepsInv(db: Db, id: Id, r: JobRequest, known: bool)
    requires Inv(db)
    ensures Inv(Schedule(db, id, r, known).db)
  {
  }

  /** The acquisition loop stops at the first candidate that matches, at position `i`. */
  lemma {:induction false} FirstMatchFound(w: seq<Id>, jobs: map<Id, Job>, e: Executor) returns (i: nat)
    requires forall j :: j in w ==> j in jobs
    ensures i <= |w| && (i == |w| <==> FirstMatch(w, jobs, e).None?)
    ensures forall k :: 0 <= k < i ==> !Matches(e, jobs[w[k]])
    ensures i < |w| ==> FirstMatch(w, jobs, e) == Some(w[i]) && Matches(e, jobs[w[i]])
  {
    if w == [] || Matches(e, jobs[w[0]]) {
      i := 0;
    } else {
      var n := FirstMatchFound(w[1..], jobs, e);
      i := n + 1;
      forall k | 0 <= k < i ensures !Matches(e, jobs[w[k]]) {
        if k > 0 { assert w[k] == w[1..][k - 1]; }
      }
    }
  }

  lemma GrantKeepsInv(db: Db, ex: Id, j: Id, token: Token, seconds: int)
    requires Inv(db) && OnlineExecutor(db, ex) && j in db.jobs && token !in db.issued
    requires db.jobs[j].state == Queued && db.jobs[j].attempt < db.jobs[j].request.maxAttempts
    ensures Inv(Grant(db, ex, j, token, seconds).db)
  {
    var d := Grant(db, ex, j, token, seconds).db;
    forall k | k in d.jobs ensures JobOk(d.jobs[k], k, d.executors, d.issued) {
      assert JobOk(db.jobs[k], k, db.executors, db.issued);
    }
    CredentialsFollow(db.credentials, db.jobs, d.jobs);
  }

  lemma AcquireKeepsInv(db: Db, ex: Id, seconds: int, token: Token)
    requires Inv(db) && token !in db.issued
    ensures Inv(Acquire(db, ex, seconds, token).db)
  {
    if OnlineExecutor(db, ex) {
      ReleaseKeepsInv(db, ExpiredJobs(db));
      var d := RecoverExpired(db).db;
      var e := d.executors[ex];
      var i := FirstMatchFound(Window(d.jobs, e), d.jobs, e);
      var found := FirstMatch(Window(d.jobs, e), d.jobs, e);
      if found.Some? {
        GrantKeepsInv(d, ex, found.value, token, seconds);
      }
    }
  }

  /** Replacing one job by another with the same request, lease and owner keeps the invariant. */
  lemma JobUpdateKeepsInv(db: Db, j: Id, job: Job)
    requires Inv(db) && j in db.jobs
    requires job.request == db.jobs[j].request && job.owner == db.jobs[j].owner
    requires JobOk(job, j, db.executors, db.issued)
    requires db.jobs[j].Active() ==> job.Active()
    ensures Inv(SetJob(db, j, job))
  {
    CredentialsFollow(db.credentials, db.jobs, db.jobs[j := job]);
  }

  lemma StartKeepsInv(db: Db, ex: Id, j: Id, token: Token, stepKnown: bool)
    requires Inv(db)
    ensures Inv(Start(db, ex, j, token, stepKnown).db)
  {
    if OwnershipError(db, ex, j, token).None? {
      assert JobOk(db.jobs[j], j, db.executors, db.issued);
      if Lapsed(db.jobs[j], db.now) {
        ReleaseKeepsInv(db, map[j := LeaseExpired]);
      } else if db.jobs[j].state == Leased {
        JobUpdateKeepsInv(db, j, db.jobs[j].(state := Running));
      }
    }
  }

  lemma HeartbeatJobKeepsInv(db: Db, ex: Id, j: Id, token: Token, seconds: int)
    requires Inv(db)
    ensures Inv(HeartbeatJob(db, ex, j, token, seconds).db)
  {
    if OwnershipError(db, ex, j, token).None? {
      assert JobOk(db.jobs[j], j, db.executors, db.issued);
      if Lapsed(db.jobs[j], db.now) {
        ReleaseKeepsInv(db, map[j := LeaseExpired]);
      } else if db.jobs[j].Active() {
        var job := db.jobs[j].(expiresAt := Some(db.now + seconds * SECOND));
        JobUpdateKeepsInv(db, j, job);
        ExecutorUpdateKeepsInv(SetJob(db, j, job), ex, db.executors[ex].(lastHeartbeatAt := db.now));
      }
    }
  }

  lemma RecordKeepsInv(db: Db, ex: Id, j: Id, sub: Submission, failed: bool)
    requires Inv(db) && j in db.jobs && db.jobs[j].Active()
    ensures Inv(Recorded(db, ex, j, sub, failed))
  {
    var after := db.jobs[j := FinishedJob(db.jobs[j], ex, sub, failed)];
    assert JobOk(db.jobs[j], j, db.executors, db.issued);
    RevokedCredentialsOk(db.credentials, db.jobs, after, {j}, db.now);
  }

  lemma AnalyticsKeepsInv(db: Db, j: Id, a: Analytics)
    requires Inv(db) && j in db.jobs
    ensures Inv(SetJob(db, j, WithAnalytics(db.jobs[j], a)))
  {
  }

  lemma ResubmitKeepsInv(db: Db, j: Id, sub: Submission, failed: bool, out: Surroundings)
    requires Inv(db) && j in db.jobs
    ensures Inv(Resubmit(db, j, sub, failed, out).db)
  {
    AnalyticsKeepsInv(db, j, AnalyticsFailed);
    AnalyticsKeepsInv(db, j, AnalyticsCompleted);
    assert db.jobs == db.jobs[j := db.jobs[j]];
  }

  lemma SettleKeepsInv(db: Db, recorded: Db, j: Id, failed: bool, out: Surroundings)
    requires Inv(db) && Inv(recorded) && j in recorded.jobs
    ensures Inv(Settle(db, recorded, j, failed, out).db)
  {
    if failed && out.retry.Some? {
      ScheduleKeepsInv(recorded, out.retry.value.0, out.retry.value.1, true);
      AnalyticsKeepsInv(Schedule(recorded, out.retry.value.0, out.retry.value.1, true).db, j, AnalyticsFailed);
    } else {
      AnalyticsKeepsInv(recorded, j, AnalyticsFailed);
    }
  }

  lemma FinishKeepsInv(db: Db, ex: Id, j: Id, sub: Submission, failed: bool, out: Surroundings)
    requires Inv(db)
    ensures Inv(Finish(db, ex, j, sub, failed, out).db)
  {
    if OwnershipError(db, ex, j, sub.leaseToken).None? {
      if db.jobs[j].Finished() {
        ResubmitKeepsInv(db, j, sub, failed, out);
      } else if db.jobs[j].Active() {
        RecordKeepsInv(db, ex, j, sub, failed);
        SettleKeepsInv(db, Recorded(db, ex, j, sub, failed), j, failed, out);
      }
    }
  }

  lemma RequeueKeepsInv(db: Db, j: Id, reset: bool)
    requires Inv(db)
    ensures Inv(Requeue(db, j, reset).db)
  {
    if j in db.jobs && db.jobs[j].state == DeadLetter {
      assert JobOk(db.jobs[j], j, db.executors, db.issued);
      JobUpdateKeepsInv(db, j, Requeue(db, j, reset).db.jobs[j]);
    }
  }

  lemma JobStepKeepsInv(db: Db, call: JobCall)
    requires Inv(db) && Fresh(db, OnJob(call))
    ensures Inv(JobStep(db, call).db)
  {
    match call
    case DoSchedule(id, r, known) => ScheduleKeepsInv(db, id, r, known);
    case DoAcquire(ex, seconds, token) => AcquireKeepsInv(db, ex, seconds, token);
    case DoStart(ex, j, token, known) => StartKeepsInv(db, ex, j, token, known);
    case DoHeartbeatJob(ex, j, token, seconds) => HeartbeatJobKeepsInv(db, ex, j, token, seconds);
    case DoFinish(ex, j, sub, failed, out) => FinishKeepsInv(db, ex, j, sub, failed, out);
    case DoRecoverExpired => ReleaseKeepsInv(db, ExpiredJobs(db));
    case DoRecoverOrphaned(org) => ReleaseKeepsInv(db, OrphanedJobs(db, org));
    case DoRequeue(j, reset) => RequeueKeepsInv(db, j, reset);
    case DoCancelRun(run, ok) => CancelKeepsInv(db, run, ok);
    case DoRevokeExecutor(ex, ok) => RevokeExecutorKeepsInv(db, ex, ok);
  }

  /** Writing one credential record keeps the invariant if it introduces no second live grant. */
  lemma CredentialUpdateKeepsInv(db: Db, c: Id, record: Credential)
    requires Inv(db) && CredentialOk(record, db.jobs)
    requires record.LiveUnused(db.now) ==>
               forall k :: k in db.credentials && k != c && SameGrant(db.credentials[k], record) ==>
                 !db.credentials[k].LiveUnused(db.now)
    ensures Inv(SetCredential(db, c, record))
  {
  }

  lemma CredentialStepKeepsInv(db: Db, call: CredentialCall)
    requires Inv(db)
    ensures Inv(CredentialStep(db, call).db)
  {
    var d := CredentialStep(db, call).db;
    if d != db {
      var c := if call.DoIssue? then call.newId else call.credential;
      if c in db.credentials { assert CredentialOk(db.credentials[c], db.jobs); }
      CredentialUpdateKeepsInv(db, c, d.credentials[c]);
    }
  }

  /** Every service call keeps the invariant, whoever makes it and whatever it carries. */
  lemma StepKeepsInv(db: Db, a: Action)
    requires Inv(db) && Fresh(db, a)
    ensures Inv(Step(db, a).db)
  {
    match a
    case Tick(delta) =>
    case OnExecutor(call) => ExecutorStepKeepsInv(db, call);
    case OnJob(call) => JobStepKeepsInv(db, call);
    case OnCredential(call) => CredentialStepKeepsInv(db, call);
  }
}
