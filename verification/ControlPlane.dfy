/**
 The two services as they run: one object holding the tables, methods that assign rows in place
 and loop over query results.  Each method is proved to perform exactly the transaction that
 the specification gives for it, so whatever is proved of those transactions holds of the
 methods.  The unique keys of the tables are the only preconditions.
 */
module ControlPlane {
  import opened Common
  import opened LeaseRecords
  import opened LeaseSpec
  import opened LeaseInvariant

  lemma RevokeOneMore(cs: map<Id, Credential>, ids: set<Id>, j: Id, now: Time)
    ensures RevokeForJobs(RevokeForJobs(cs, ids, now), {j}, now) == RevokeForJobs(cs, ids + {j}, now)
  {
  }

  /** Releasing a further job on top of others is releasing them all. */
  lemma ReleaseOneMore(jobs: map<Id, Job>, reasons: map<Id, Reason>, j: Id, reason: Reason, now: Time)
    requires j in jobs && j !in reasons
    ensures ReleasedRows(ReleasedRows(jobs, reasons, now), map[j := reason], now) ==
            ReleasedRows(jobs, reasons[j := reason], now)
  {
  }

  lemma CancelOneMore(jobs: map<Id, Job>, done: set<Id>, j: Id)
    requires j in jobs && j !in done
    ensures CancelledRows(jobs, done)[j := CancelledJob(CancelledRows(jobs, done)[j])] ==
            CancelledRows(jobs, done + {j})
  {
  }

  /** The entries of a query result are either handled or still to do. */
  ghost predicate Splits(all: map<Id, Reason>, done: map<Id, Reason>, left: map<Id, Reason>) {
    && (forall j :: j in done ==> j !in left && j in all && all[j] == done[j])
    && (forall j :: j in left ==> j in all && all[j] == left[j])
    && (forall j :: j in all ==> j in done || j in left)
  }

  lemma SplitsOneMore(all: map<Id, Reason>, done: map<Id, Reason>, left: map<Id, Reason>, j: Id)
    requires Splits(all, done, left) && j in left
    ensures Splits(all, done[j := left[j]], left - {j}) && j !in done && j in all
  {
  }

  lemma SplitsAll(all: map<Id, Reason>, done: map<Id, Reason>, left: map<Id, Reason>)
    requires Splits(all, done, left) && left.Keys == {}
    ensures done == all
  {
  }

  predicate Spent(job: Job) {
    job.attempt >= job.request.maxAttempts
  }

  /** The orphans among the first `i` rows of a query result, with their reasons. */
  ghost function Handled(orphans: map<Id, Reason>, rows: seq<Id>, i: nat): map<Id, Reason>
    requires i <= |rows|
  {
    if i == 0 then map[]
    else if rows[i - 1] in orphans then Handled(orphans, rows, i - 1)[rows[i - 1] := orphans[rows[i - 1]]]
    else Handled(orphans, rows, i - 1)
  }

  /** The jobs to release that have used up their attempts. */
  ghost function SpentAmong(jobs: map<Id, Job>, reasons: map<Id, Reason>): set<Id> {
    set j | j in reasons && j in jobs && Spent(jobs[j])
  }

  lemma CountOneMore(jobs: map<Id, Job>, done: map<Id, Reason>, j: Id, reason: Reason)
    requires j !in done
    ensures var next := done[j := reason];
            && |next| == |done| + 1
            && |SpentAmong(jobs, next)| == |SpentAmong(jobs, done)| + (if j in jobs && Spent(jobs[j]) then 1 else 0)
  {
    var next := done[j := reason];
    assert next.Keys == done.Keys + {j};
    assert SpentAmong(jobs, next) ==
           if j in jobs && Spent(jobs[j]) then SpentAmong(jobs, done) + {j} else SpentAmong(jobs, done);
  }

  lemma {:induction false} HandledKeys(orphans: map<Id, Reason>, rows: seq<Id>, i: nat)
    requires i <= |rows|
    ensures forall j :: j in Handled(orphans, rows, i) <==> j in orphans && j in rows[..i]
    ensures forall j :: j in Handled(orphans, rows, i) ==> Handled(orphans, rows, i)[j] == orphans[j]
  {
    if i > 0 {
      HandledKeys(orphans, rows, i - 1);
      assert rows[..i] == rows[..i - 1] + [rows[i - 1]];
    }
  }

  /** `orphans` gives the release reason of exactly the listed jobs that have one. */
  ghost predicate Classifies(db: Db, rows: seq<Id>, orphans: map<Id, Reason>) {
    && (forall i :: 0 <= i < |rows| ==> rows[i] in db.jobs)
    && (forall a, b :: 0 <= a < b < |rows| ==> rows[a] != rows[b])
    && (forall j :: j in orphans ==> j in rows)
    && (forall i :: 0 <= i < |rows| ==>
          OrphanReason(db.executors, db.now, db.jobs[rows[i]]) ==
          if rows[i] in orphans then Some(orphans[rows[i]]) else None)
  }

  // ----- what the checks establish, and what a call on one row may change

  /** The caller is online, owns the job and presents the token of its lease. */
  predicate Holds(db: Db, ex: Id, j: Id, token: Token) {
    && OnlineExecutor(db, ex) && j in db.jobs
    && db.jobs[j].owner == Some(ex) && db.jobs[j].tokenHash == Some(LeaseHash(token))
  }

  /** And the job is active under a lease that has not expired. */
  predicate HoldsLive(db: Db, ex: Id, j: Id, token: Token) {
    && Holds(db, ex, j, token) && db.jobs[j].Active()
    && db.jobs[j].expiresAt.Some? && db.jobs[j].expiresAt.value > db.now
  }

  /** And the credential is the caller's own, unrevoked and unexpired. */
  predicate MayUse(db: Db, ex: Id, c: Id, token: Token) {
    && c in db.credentials && HoldsLive(db, ex, db.credentials[c].job, token)
    && db.credentials[c].executor == ex && db.credentials[c].Unrevoked() && db.credentials[c].expiresAt > db.now
  }

  /** No row appears or disappears, and none but the one with this key differs. */
  predicate OnlyRow<T(==)>(before: map<Id, T>, after: map<Id, T>, key: Id) {
    after.Keys == before.Keys && forall k :: k in before && k != key ==> after[k] == before[k]
  }

  lemma ReleaseNone(db: Db)
    ensures ReleaseJobs(db, map[]) == db
  {
  }

  class Service {
    var now: Time
    var executors: map<Id, Executor>
    var jobs: map<Id, Job>
    var credentials: map<Id, Credential>
    ghost var issued: map<Token, Id>

    ghost function Contents(): Db
      reads this
    {
      Db(now, executors, jobs, credentials, issued)
    }

    constructor (clock: Time)
      ensures Contents() == Init(clock)
    {
      now, executors, jobs, credentials, issued := clock, map[], map[], map[], map[];
    }

    // ----- revoking credentials and releasing leases

    method RevokeForJob(j: Id) returns (count: nat)
      modifies this`credentials
      ensures credentials == RevokeForJobs(old(credentials), {j}, now)
      ensures count == |set c | c in old(credentials) && old(credentials)[c].job == j &&
              old(credentials)[c].Unrevoked()|
    {
      var records := set c | c in credentials && credentials[c].job == j && credentials[c].Unrevoked();
      ghost var start := credentials;
      var left := records;
      while left != {}
        invariant left <= records
        invariant credentials == map c | c in start :: if c in records - left then RevokedCredential(start[c], now)
                  else start[c]
        decreases left
      {
        var c :| c in left;
        credentials := credentials[c := credentials[c].(revokedAt := Some(now))];
        left := left - {c};
      }
      assert credentials == RevokeForJobs(start, {j}, now);
      count := |records|;
    }

    method RevokeAllForExecutor(ex: Id) returns (count: nat)
      modifies this`credentials
      ensures credentials == RevokeForExecutor(old(credentials), ex, now)
      ensures count == |set c | c in old(credentials) && old(credentials)[c].executor == ex &&
              old(credentials)[c].Unrevoked()|
    {
      var records := set c | c in credentials && credentials[c].executor == ex && credentials[c].Unrevoked();
      ghost var start := credentials;
      var left := records;
      while left != {}
        invariant left <= records
        invariant credentials == map c | c in start :: if c in records - left then RevokedCredential(start[c], now)
                  else start[c]
        decreases left
      {
        var c :| c in left;
        credentials := credentials[c := credentials[c].(revokedAt := Some(now))];
        left := left - {c};
      }
      assert credentials == RevokeForExecutor(start, ex, now);
      count := |records|;
    }

    method ReleaseOrExpire(j: Id, reason: Reason)
      requires j in jobs
      modifies this`jobs, this`credentials
      ensures Contents() == ReleaseJobs(old(Contents()), map[j := reason])
    {
      var job := jobs[j];
      var terminal := job.attempt >= job.request.maxAttempts;
      job := job.(state := if terminal then DeadLetter else Queued);
      job := job.(recoveryCount := job.recoveryCount + 1, lastRecovery := Some(reason));
      if !terminal {
        job := job.(queuedAt := now);
      }
      job := job.(owner := None, tokenHash := None, expiresAt := None);
      jobs := jobs[j := job];
      var revoked := RevokeForJob(j);
      assert jobs == ReleaseJobs(old(Contents()), map[j := reason]).jobs;
      assert (map[j := reason]).Keys == {j};
    }

    /** Releases one more job of a query result whose earlier ones were released for `done`. */
    method ReleaseNext(j: Id, reason: Reason, ghost start: Db, ghost done: map<Id, Reason>) returns (dead: bool)
      requires j in start.jobs && j !in done && Contents() == ReleaseJobs(start, done)
      modifies this`jobs, this`credentials
      ensures Contents() == ReleaseJobs(start, done[j := reason])
      ensures dead <==> start.jobs[j].attempt >= start.jobs[j].request.maxAttempts
    {
      ReleaseOneMore(start.jobs, done, j, reason, now);
      RevokeOneMore(start.credentials, done.Keys, j, now);
      assert (map[j := reason]).Keys == {j} && done[j := reason].Keys == done.Keys + {j};
      ReleaseOrExpire(j, reason);
      dead := jobs[j].state == DeadLetter;
    }

    /** Releases every job of a query result, in some order. */
    method ReleaseAll(reasons: map<Id, Reason>)
      requires reasons.Keys <= jobs.Keys
      modifies this`jobs, this`credentials
      ensures Contents() == ReleaseJobs(old(Contents()), reasons)
    {
      ghost var start := Contents();
      ghost var done: map<Id, Reason> := map[];
      var left := reasons;
      ReleaseNone(start);
      while left.Keys != {}
        invariant Splits(reasons, done, left)
        invariant Contents() == ReleaseJobs(start, done)
        decreases left.Keys
      {
        var j :| j in left.Keys;
        SplitsOneMore(reasons, done, left, j);
        var dead := ReleaseNext(j, left[j], start, done);
        done := done[j := left[j]];
        left := left - {j};
      }
      SplitsAll(reasons, done, left);
    }

    method RecoverExpiredLeases() returns (recovered: set<Id>)
      modifies this`jobs, this`credentials
      ensures Outcome(Contents(), Recovered(recovered)) == RecoverExpired(old(Contents()))
    {
      var found := map j | j in jobs && Expired(jobs[j], now) :: LeaseExpired;
      assert found == ExpiredJobs(Contents());
      ReleaseAll(found);
      recovered := found.Keys;
    }

    method RecoverOrphanedLeases(organization: Option<Id>)
      returns (recovered: nat, requeued: nat, deadLettered: nat)
      modifies this`jobs, this`credentials
      ensures Contents() == RecoverOrphaned(old(Contents()), organization).db
      ensures recovered == |OrphanedJobs(old(Contents()), organization)| == requeued + deadLettered
      ensures deadLettered == |SpentAmong(old(jobs), OrphanedJobs(old(Contents()), organization))|
    {
      ghost var orphans := OrphanedJobs(Contents(), organization);
      var active := ActiveRows(organization);
      HandledKeys(orphans, active, |active|);
      assert Handled(orphans, active, |active|) == orphans;
      recovered, requeued, deadLettered := ReleaseOrphans(active, orphans);
    }

    /** The active jobs of an organization, each once; the query leaves the order open. */
    method ActiveRows(organization: Option<Id>) returns (rows: seq<Id>)
      ensures Classifies(Contents(), rows, OrphanedJobs(Contents(), organization))
    {
      var left := set j | j in jobs && jobs[j].Active() && InOrganization(jobs[j], organization);
      ghost var active := left;
      rows := [];
      while left != {}
        invariant left <= active && forall j :: j in active <==> j in left || j in rows
        invariant forall j :: j in rows ==> j !in left
        invariant forall a, b :: 0 <= a < b < |rows| ==> rows[a] != rows[b]
        decreases left
      {
        var j :| j in left;
        rows := rows + [j];
        left := left - {j};
      }
      assert forall i :: 0 <= i < |rows| ==> rows[i] in active;
    }

    method ReleaseIfOrphan(i: nat, rows: seq<Id>, ghost start: Db, ghost orphans: map<Id, Reason>)
      returns (released: bool, dead: bool)
      requires Classifies(start, rows, orphans) && i < |rows|
      requires Contents() == ReleaseJobs(start, Handled(orphans, rows, i))
      modifies this`jobs, this`credentials
      ensures released <==> rows[i] in orphans
      ensures Contents() == ReleaseJobs(start, Handled(orphans, rows, i + 1))
      ensures dead <==> released && Spent(start.jobs[rows[i]])
    {
      HandledKeys(orphans, rows, i);
      assert jobs[rows[i]] == start.jobs[rows[i]];
      var reason := OrphanReason(executors, now, jobs[rows[i]]);
      released, dead := reason.Some?, false;
      if released {
        dead := ReleaseNext(rows[i], reason.value, start, Handled(orphans, rows, i));
      }
    }

    /** One pass over the rows of a query, classifying and releasing each orphan. */
    method ReleaseOrphans(rows: seq<Id>, ghost orphans: map<Id, Reason>)
      returns (recovered: nat, requeued: nat, deadLettered: nat)
      requires Classifies(Contents(), rows, orphans)
      modifies this`jobs, this`credentials
      ensures Contents() == ReleaseJobs(old(Contents()), Handled(orphans, rows, |rows|))
      ensures recovered == |Handled(orphans, rows, |rows|)| == requeued + deadLettered
      ensures deadLettered == |SpentAmong(old(jobs), Handled(orphans, rows, |rows|))|
    {
      ghost var start := Contents();
      recovered, requeued, deadLettered := 0, 0, 0;
      ReleaseNone(start);
      for i := 0 to |rows|
        invariant Contents() == ReleaseJobs(start, Handled(orphans, rows, i))
        invariant recovered == |Handled(orphans, rows, i)| == requeued + deadLettered
        invariant deadLettered == |SpentAmong(start.jobs, Handled(orphans, rows, i))|
      {
        HandledKeys(orphans, rows, i);
        if rows[i] in orphans {
          CountOneMore(start.jobs, Handled(orphans, rows, i), rows[i], orphans[rows[i]]);
        }
        var released, exhausted := ReleaseIfOrphan(i, rows, start, orphans);
        if released {
          recovered := recovered + 1;
          if exhausted {
            deadLettered := deadLettered + 1;
          } else {
            requeued := requeued + 1;
          }
        }
      }
    }

    method RevokeExecutorById(ex: Id, authorized: bool) returns (reply: Reply)
      modifies this`jobs, this`credentials, this`executors
      ensures Outcome(Contents(), reply) == RevokeExecutor(old(Contents()), ex, authorized)
    {
      if ex !in executors {
        return Rejected(NotFound);
      }
      if !authorized {
        return Rejected(Unauthorized);
      }
      if executors[ex].status == Revoked {
        return Done;
      }
      var owned := map j | j in jobs && jobs[j].Active() && jobs[j].owner == Some(ex) :: ExecutorRevoked;
      assert owned == OwnedActiveJobs(Contents(), ex);
      executors := executors[ex := executors[ex].(status := Revoked)];
      ReleaseAll(owned);
      var count := RevokeAllForExecutor(ex);
      return Done;
    }

    // ----- leasing and running jobs

    method ScheduleJob(id: Id, r: JobRequest, known: bool) returns (reply: Reply)
      requires OneJobPerKey(jobs)
      modifies this`jobs
      ensures Outcome(Contents(), reply) == Schedule(old(Contents()), id, r, known)
    {
      if !known {
        return Rejected(NotFound);
      }
      if exists j :: j in jobs && SameKey(jobs[j], r) {
        var j :| j in jobs && SameKey(jobs[j], r);
        assert ExistingJob(jobs, r) == Some(j);
        if jobs[j].request.payloadHash != r.payloadHash {
          return Rejected(Conflict);
        }
        return JobReply(j);
      }
      if id in jobs {
        return Rejected(Conflict);
      }
      jobs := jobs[id := NewJob(r, now)];
      return JobReply(id);
    }

    method AcquireLease(ex: Id, seconds: int, token: Token) returns (reply: Reply)
      requires token !in issued
      modifies this`jobs, this`credentials, this`executors, this`issued
      ensures Outcome(Contents(), reply) == Acquire(old(Contents()), ex, seconds, token)
    {
      if ex !in executors || executors[ex].status != Online {
        return Rejected(Unauthenticated);
      }
      var recovered := RecoverExpiredLeases();
      reply := LeaseFirstMatch(ex, seconds, token);
    }

    method LeaseFirstMatch(ex: Id, seconds: int, token: Token) returns (reply: Reply)
      requires ex in executors
      modifies this`jobs, this`executors, this`issued
      ensures var d := old(Contents());
              var found := FirstMatch(Window(d.jobs, d.executors[ex]), d.jobs, d.executors[ex]);
              if found.Some? then found.value in d.jobs &&
              Outcome(Contents(), reply) == Grant(d, ex, found.value, token, seconds)
              else Contents() == d && reply == NoWork
    {
      var e := executors[ex];
      var candidates := Window(jobs, e);
      var i := 0;
      while i < |candidates|
        invariant i <= |candidates|
        invariant FirstMatch(candidates, jobs, e) == FirstMatch(candidates[i..], jobs, e)
      {
        var j := candidates[i];
        if Matches(e, jobs[j]) {
          var job := jobs[j].(state := Leased, attempt := jobs[j].attempt + 1, owner := Some(ex),
                              tokenHash := Some(LeaseHash(token)), expiresAt := Some(now + seconds * SECOND));
          jobs := jobs[j := job];
          executors := executors[ex := e.(lastHeartbeatAt := now)];
          issued := issued[token := j];
          return LeaseGranted(j, token);
        }
        i := i + 1;
      }
      return NoWork;
    }

    /** The ownership checks shared by every call that presents a lease token. */
    method OwnedJob(ex: Id, j: Id, token: Token) returns (error: Option<Error>)
      ensures error == OwnershipError(Contents(), ex, j, token)
      ensures error.None? <==> Holds(Contents(), ex, j, token)
    {
      if ex !in executors || executors[ex].status != Online {
        return Some(Unauthenticated);
      }
      if j !in jobs {
        return Some(NotFound);
      }
      if jobs[j].owner != Some(ex) {
        return Some(Unauthorized);
      }
      if jobs[j].tokenHash.None? || jobs[j].tokenHash.value != LeaseHash(token) {
        return Some(Unauthenticated);
      }
      return None;
    }

    method StartJob(ex: Id, j: Id, token: Token, stepKnown: bool) returns (reply: Reply)
      modifies this`jobs, this`credentials
      ensures Outcome(Contents(), reply) == Start(old(Contents()), ex, j, token, stepKnown)
    {
      var error := OwnedJob(ex, j, token);
      if error.Some? {
        return Rejected(error.value);
      }
      if jobs[j].Active() && (jobs[j].expiresAt.None? || jobs[j].expiresAt.value <= now) {
        ReleaseOrExpire(j, LeaseExpired);
        return Rejected(Conflict);
      }
      if jobs[j].state == Running {
        return JobReply(j);
      }
      if jobs[j].state != Leased {
        return Rejected(Conflict);
      }
      if !stepKnown {
        return Rejected(NotFound);
      }
      jobs := jobs[j := jobs[j].(state := Running)];
      return JobReply(j);
    }

    method HeartbeatJobLease(ex: Id, j: Id, token: Token, seconds: int) returns (reply: Reply)
      modifies this`jobs, this`credentials, this`executors
      ensures Outcome(Contents(), reply) == HeartbeatJob(old(Contents()), ex, j, token, seconds)
    {
      var error := OwnedJob(ex, j, token);
      if error.Some? {
        return Rejected(error.value);
      }
      if jobs[j].Active() && (jobs[j].expiresAt.None? || jobs[j].expiresAt.value <= now) {
        ReleaseOrExpire(j, LeaseExpired);
        return Rejected(Conflict);
      }
      if !jobs[j].Active() {
        return Rejected(Conflict);
      }
      jobs := jobs[j := jobs[j].(expiresAt := Some(now + seconds * SECOND))];
      executors := executors[ex := executors[ex].(lastHeartbeatAt := now)];
      return JobReply(j);
    }

    method FinishJob(ex: Id, j: Id, sub: Submission, failed: bool, out: Surroundings) returns (reply: Reply)
      requires OneJobPerKey(jobs)
      modifies this`jobs, this`credentials
      ensures Outcome(Contents(), reply) == Finish(old(Contents()), ex, j, sub, failed, out)
    {
      var error := OwnedJob(ex, j, sub.leaseToken);
      if error.Some? {
        return Rejected(error.value);
      }
      if sub.resultHash != ResultHash(sub.result) {
        return Rejected(Conflict);
      }
      var job := jobs[j];
      if job.Finished() {
        if job.state == (if failed then Failed else Completed) && job.result.Some? &&
        job.result.value.hash == sub.resultHash {
          if job.result.value.analytics == AnalyticsFailed {
            job := WithAnalytics(job, if out.analyticsFailed then AnalyticsFailed else AnalyticsCompleted);
          }
          jobs := jobs[j := job];
          return JobReply(j);
        }
        return Rejected(Conflict);
      }
      if !job.Active() {
        return Rejected(Conflict);
      }
      var refused := ResultError(executors[ex], job, sub, failed);
      if refused.Some? {
        return Rejected(refused.value);
      }
      reply := RecordResult(ex, j, sub, failed, out);
    }

    /** Stores a checked result, revokes credentials, hands over, and rolls back to the last commit if that raises. */
    method RecordResult(ex: Id, j: Id, sub: Submission, failed: bool, out: Surroundings) returns (reply: Reply)
      requires OneJobPerKey(jobs) && j in jobs
      modifies this`jobs, this`credentials
      ensures Outcome(Contents(), reply) ==
              Settle(old(Contents()), Recorded(old(Contents()), ex, j, sub, failed), j, failed, out)
    {
      var savedJobs, savedCredentials := jobs, credentials;
      jobs := jobs[j := FinishedJob(jobs[j], ex, sub, failed)];
      var revoked := RevokeForJob(j);
      ghost var recorded := Contents();
      assert recorded == Recorded(old(Contents()), ex, j, sub, failed);
      if out.committed {
        savedJobs, savedCredentials := jobs, credentials;
      }
      var retried := Done;
      if failed && out.retry.Some? {
        retried := ScheduleJob(out.retry.value.0, out.retry.value.1, true);
      }
      if !out.accepted || retried.Rejected? {
        jobs, credentials := savedJobs, savedCredentials;
        return Rejected(Downstream);
      }
      assert j in jobs;
      if out.analyticsFailed {
        jobs := jobs[j := WithAnalytics(jobs[j], AnalyticsFailed)];
      }
      return JobReply(j);
    }

    method RequeueDeadLetter(j: Id, reset: bool) returns (reply: Reply)
      modifies this`jobs
      ensures Outcome(Contents(), reply) == Requeue(old(Contents()), j, reset)
      ensures reply == Rejected(NotFound) <==> j !in old(jobs)
      ensures reply == Rejected(Conflict) <==> j in old(jobs) && old(jobs)[j].state != DeadLetter
      ensures reply.Rejected? ==> Contents() == old(Contents())
      ensures !reply.Rejected? ==>
                && reply == JobReply(j) && OnlyRow(old(jobs), jobs, j) && jobs[j].state == Queued
                && jobs[j].attempt == (if reset then 0 else old(jobs)[j].attempt)
                && jobs[j].queuedAt == now && jobs[j].recoveryCount == old(jobs)[j].recoveryCount
                && jobs[j].request == old(jobs)[j].request
    {
      if j !in jobs {
        return Rejected(NotFound);
      }
      if jobs[j].state != DeadLetter {
        return Rejected(Conflict);
      }
      var job := jobs[j].(state := Queued, queuedAt := now, lastRecovery := Some(ManualRequeue));
      if reset {
        job := job.(attempt := 0);
      }
      jobs := jobs[j := job];
      return JobReply(j);
    }

    method CancelRunJobs(run: Id, allowed: bool) returns (reply: Reply)
      modifies this`jobs, this`credentials
      ensures Outcome(Contents(), reply) == CancelRun(old(Contents()), run, allowed)
    {
      if !allowed {
        return Rejected(Conflict);
      }
      CancelAll(CancellableJobs(jobs, run));
      return Done;
    }

    method CancelAll(hit: set<Id>)
      requires hit <= jobs.Keys
      modifies this`jobs, this`credentials
      ensures jobs == CancelledRows(old(jobs), hit) && credentials == RevokeForJobs(old(credentials), hit, now)
    {
      ghost var start := Contents();
      ghost var done: set<Id> := {};
      var left := hit;
      assert jobs == CancelledRows(jobs, {}) && credentials == RevokeForJobs(credentials, {}, now);
      while left != {}
        invariant left <= hit && done == hit - left && hit <= start.jobs.Keys
        invariant jobs == CancelledRows(start.jobs, done)
        invariant credentials == RevokeForJobs(start.credentials, done, now)
        decreases left
      {
        var j :| j in left;
        CancelOneMore(start.jobs, done, j);
        jobs := jobs[j := CancelledJob(jobs[j])];
        RevokeOneMore(start.credentials, done, j, now);
        var revoked := RevokeForJob(j);
        done := done + {j};
        left := left - {j};
      }
      assert done == hit;
    }

    // ----- credential leases

    method OwnedActiveJob(ex: Id, j: Id, token: Token) returns (error: Option<Error>)
      ensures error == ActiveJobError(Contents(), ex, j, token)
      ensures error.None? <==> HoldsLive(Contents(), ex, j, token)
    {
      if ex !in executors || executors[ex].status != Online {
        return Some(Unauthorized);
      }
      if j !in jobs {
        return Some(CredentialRefused);
      }
      if jobs[j].owner != Some(ex) {
        return Some(Unauthorized);
      }
      if jobs[j].tokenHash.None? || jobs[j].tokenHash.value != LeaseHash(token) {
        return Some(Unauthorized);
      }
      if !jobs[j].Active() {
        return Some(CredentialRefused);
      }
      if jobs[j].expiresAt.None? || jobs[j].expiresAt.value <= now {
        return Some(CredentialRefused);
      }
      return None;
    }

    method ActiveLease(ex: Id, c: Id, token: Token) returns (error: Option<Error>)
      ensures error == CredentialError(Contents(), ex, c, token)
      ensures error.None? <==> MayUse(Contents(), ex, c, token)
    {
      if c !in credentials {
        return Some(CredentialRefused);
      }
      error := OwnedActiveJob(ex, credentials[c].job, token);
      if error.Some? {
        return error;
      }
      if credentials[c].executor != ex {
        return Some(Unauthorized);
      }
      if credentials[c].revokedAt.Some? {
        return Some(CredentialRefused);
      }
      if credentials[c].expiresAt <= now {
        return Some(CredentialRefused);
      }
      return None;
    }

    method IssueCredential(ex: Id, j: Id, token: Token, requirement: Id, ttl: int, configured: int, provider: bool,
                           id: Id)
      returns (reply: Reply)
      requires OneLivePerGrant(credentials, now)
      modifies this`credentials
      ensures Outcome(Contents(), reply) ==
              Issue(old(Contents()), ex, j, token, requirement, ttl, configured, provider, id)
    {
      var error := OwnedActiveJob(ex, j, token);
      if error.Some? {
        return Rejected(error.value);
      }
      if requirement !in jobs[j].request.requirements {
        return Rejected(Unauthorized);
      }
      if !provider {
        return Rejected(CredentialRefused);
      }
      var maximum := Min(configured, MAX_CREDENTIAL_SECONDS);
      var expires := now + Min(ttl, maximum) * SECOND;
      expires := Min(expires, jobs[j].expiresAt.value);
      if expires <= now {
        return Rejected(CredentialRefused);
      }
      if exists c :: c in credentials && Reusable(credentials[c], j, ex, requirement, now) {
        var c :| c in credentials && Reusable(credentials[c], j, ex, requirement, now);
        assert ExistingCredential(Contents(), j, ex, requirement) == Some(c);
        return CredentialReply(c);
      }
      if id in credentials {
        return Rejected(Conflict);
      }
      credentials := credentials[id := Credential(j, ex, requirement, jobs[j].request.scope.organization,
                                                  now, expires, None, 0)];
      return CredentialReply(id);
    }

    method ExchangeCredential(ex: Id, c: Id, token: Token, fetched: bool,
                              materialExpiry: Option<Time>)
      returns (reply: Reply)
      modifies this`credentials
      ensures Outcome(Contents(), reply) == Exchange(old(Contents()), ex, c, token, fetched, materialExpiry)
      ensures reply.Material? <==>
                && MayUse(old(Contents()), ex, c, token) && old(credentials)[c].useCount == 0 && fetched
                && executors[ex].hasEncryptionKey
                && old(credentials)[c].requirement in jobs[old(credentials)[c].job].request.requirements
      ensures !reply.Material? ==> reply.Rejected? && Contents() == old(Contents())
      ensures reply.Material? ==>
                && reply.credential == c && OnlyRow(old(credentials), credentials, c)
                && credentials[c] == old(credentials)[c].(useCount := 1, expiresAt := reply.expiresAt)
                && reply.expiresAt <= old(credentials)[c].expiresAt
                && (materialExpiry.Some? ==> reply.expiresAt <= materialExpiry.value)
    {
      var error := ActiveLease(ex, c, token);
      if error.Some? {
        return Rejected(error.value);
      }
      var record := credentials[c];
      if record.useCount != 0 || !executors[ex].hasEncryptionKey {
        return Rejected(CredentialRefused);
      }
      if record.requirement !in jobs[record.job].request.requirements {
        return Rejected(Unauthorized);
      }
      if !fetched {
        return Rejected(CredentialRefused);
      }
      var expires := record.expiresAt;
      if materialExpiry.Some? {
        expires := Min(expires, materialExpiry.value);
      }
      record := record.(useCount := 1);
      record := record.(expiresAt := expires);
      credentials := credentials[c := record];
      return Material(c, expires);
    }

    method RenewCredential(ex: Id, c: Id, token: Token, ttl: int, configured: int) returns (reply: Reply)
      modifies this`credentials
      ensures Outcome(Contents(), reply) == Renew(old(Contents()), ex, c, token, ttl, configured)
      ensures reply.CredentialReply? <==>
                && MayUse(old(Contents()), ex, c, token) && old(credentials)[c].useCount == 0 && ttl > 0 &&
                   configured > 0
                && now < old(credentials)[c].issuedAt + MAX_CREDENTIAL_SECONDS * SECOND
      ensures !reply.CredentialReply? ==> reply.Rejected? && Contents() == old(Contents())
      ensures reply.CredentialReply? ==>
                && reply.credential == c && OnlyRow(old(credentials), credentials, c)
                && credentials[c] == old(credentials)[c].(expiresAt := credentials[c].expiresAt)
                && now < credentials[c].expiresAt <= now + ttl * SECOND
                && credentials[c].expiresAt <= now + configured * SECOND
                && credentials[c].expiresAt <= credentials[c].issuedAt + MAX_CREDENTIAL_SECONDS * SECOND
                && credentials[c].expiresAt <= jobs[credentials[c].job].expiresAt.value
    {
      var error := ActiveLease(ex, c, token);
      if error.Some? {
        return Rejected(error.value);
      }
      var record := credentials[c];
      if record.useCount != 0 {
        return Rejected(CredentialRefused);
      }
      var maximum := Min(configured, MAX_CREDENTIAL_SECONDS);
      var requested := now + Min(ttl, maximum) * SECOND;
      var absolute := record.issuedAt + 900 * SECOND;
      record := record.(expiresAt := Min(Min(requested, absolute), jobs[record.job].expiresAt.value));
      if record.expiresAt <= now {
        return Rejected(CredentialRefused);
      }
      credentials := credentials[c := record];
      return CredentialReply(c);
    }

    method RevokeCredentialById(organization: Id, c: Id, permitted: bool) returns (reply: Reply)
      modifies this`credentials
      ensures Outcome(Contents(), reply) == RevokeCredential(old(Contents()), organization, c, permitted)
      ensures reply == CredentialReply(c) <==>
                c in old(credentials) && old(credentials)[c].organization == Some(organization) && permitted
      ensures reply != CredentialReply(c) ==> reply == Rejected(Unauthorized) && Contents() == old(Contents())
      ensures reply == CredentialReply(c) ==>
                && OnlyRow(old(credentials), credentials, c) && !credentials[c].Unrevoked()
                && (!old(credentials)[c].Unrevoked() ==> credentials == old(credentials))
    {
      if c !in credentials || credentials[c].organization != Some(organization) || !permitted {
        return Rejected(Unauthorized);
      }
      if credentials[c].revokedAt.None? {
        credentials := credentials[c := credentials[c].(revokedAt := Some(now))];
      } else {
        assert credentials == credentials[c := credentials[c]];
      }
      return CredentialReply(c);
    }
  }
}
