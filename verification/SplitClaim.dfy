/**
 The claim on SQLite, where no row lock joins reading a candidate and leasing it: the candidate is
 read, anything can happen, and then the row is updated if it is still queued. The update writes
 one more than the attempt that was read.
 */
module SplitClaim {
  import opened Common
  import opened LeaseRecords
  import opened LeaseSpec
  import opened LeaseInvariant
  import opened LeaseRuns
  import opened LeaseWitnesses

  /** The conditional update: it looks at nothing but the state of the row. */
  function ClaimIfQueued(db: Db, ex: Id, j: Id, attempt: nat, token: Token, seconds: int): Outcome {
    if ex !in db.executors || j !in db.jobs || db.jobs[j].state != Queued then Outcome(db, NoWork)
    else Grant(SetJob(db, j, db.jobs[j].(attempt := attempt)), ex, j, token, seconds)
  }

  /** What was read of a candidate, before the calls in between. */
  ghost predicate Candidate(db: Db, ex: Id, j: Id, attempt: nat) {
    OnlineExecutor(db, ex) && j in db.jobs && Eligible(db.executors[ex], db.jobs[j]) && db.jobs[j].attempt == attempt
  }

  lemma {:induction false} RequestsStay(db: Db, between: seq<Action>, j: Id)
    requires Inv(db) && Run(db, between) && j in db.jobs
    ensures var d := After(db, between); Inv(d) && j in d.jobs && d.jobs[j].request == db.jobs[j].request
    decreases between
  {
    if between != [] {
      var d := Step(db, between[0]).db;
      StepKeepsInv(db, between[0]);
      StepEvolves(db, between[0]);
      assert between[0].OnJob? ==> RowEvolves(db, d, between[0].jobCall, j);
      RequestsStay(d, between[1..], j);
    }
  }

  /**
   Whatever happens between reading and writing, the claim keeps the joint invariant exactly when
   it does not lease to an executor that was revoked meanwhile, or does not lease at all.
   */
  lemma StaleClaimKeepsInvIff(db: Db, between: seq<Action>, ex: Id, j: Id, attempt: nat, token: Token, seconds: int)
    requires Inv(db) && Run(db, between) && Candidate(db, ex, j, attempt) && token !in After(db, between).issued
    ensures var d := After(db, between);
            Inv(ClaimIfQueued(d, ex, j, attempt, token, seconds).db) <==>
            (ex in d.executors && j in d.jobs && d.jobs[j].state == Queued ==> d.executors[ex].status != Revoked)
  {
    var d := After(db, between);
    RequestsStay(db, between, j);
    if ex in d.executors && d.jobs[j].state == Queued {
      ClaimRow(d, ex, j, attempt, token, seconds);
      if d.executors[ex].status == Revoked {
        RevokedOwnerBreaksInv(ClaimIfQueued(d, ex, j, attempt, token, seconds).db, ex, j);
      } else {
        ClaimKeepsInv(d, ex, j, attempt, token, seconds);
      }
    }
  }

  lemma ClaimRow(d: Db, ex: Id, j: Id, attempt: nat, token: Token, seconds: int)
    requires ex in d.executors && j in d.jobs && d.jobs[j].state == Queued
    ensures var r := ClaimIfQueued(d, ex, j, attempt, token, seconds).db;
            && j in r.jobs && r.jobs[j].Active() && r.jobs[j].owner == Some(ex)
            && ex in r.executors && r.executors[ex].status == d.executors[ex].status
  {
  }

  lemma RevokedOwnerBreaksInv(d: Db, ex: Id, j: Id)
    requires j in d.jobs && d.jobs[j].Active() && d.jobs[j].owner == Some(ex) && ex in d.executors &&
             d.executors[ex].status == Revoked
    ensures !Inv(d)
  {
    assert !JobOk(d.jobs[j], j, d.executors, d.issued);
  }

  lemma ClaimKeepsInv(d: Db, ex: Id, j: Id, attempt: nat, token: Token, seconds: int)
    requires Inv(d) && ex in d.executors && d.executors[ex].status != Revoked && token !in d.issued
    requires j in d.jobs && d.jobs[j].state == Queued && attempt < d.jobs[j].request.maxAttempts
    ensures Inv(ClaimIfQueued(d, ex, j, attempt, token, seconds).db)
  {
    var r := ClaimIfQueued(d, ex, j, attempt, token, seconds).db;
    assert JobOk(d.jobs[j], j, d.executors, d.issued);
    forall k | k in r.jobs ensures JobOk(r.jobs[k], k, r.executors, r.issued) {
      assert JobOk(d.jobs[k], k, d.executors, d.issued);
    }
    forall c | c in r.credentials ensures CredentialOk(r.credentials[c], r.jobs) {
      assert CredentialOk(d.credentials[c], d.jobs);
    }
  }

  /**
   A job never has two holders: of two claims the second does nothing, and whoever passes the checks
   is the claimer under its token, which passes exactly if the claimer is online.
   */
  lemma OneHolder(d: Db, ex: Id, j: Id, attempt: nat, token: Token, seconds: int, ex': Id, attempt': nat, token': Token)
    requires ex in d.executors && j in d.jobs && d.jobs[j].state == Queued
    ensures var r := ClaimIfQueued(d, ex, j, attempt, token, seconds).db;
            && ClaimIfQueued(r, ex', j, attempt', token', seconds) == Outcome(r, NoWork)
            && (OwnershipError(r, ex', j, token').None? <==>
                ex' == ex && token' == token && d.executors[ex].status == Online)
  {
  }

  /** The attempt ledger survives the claim exactly when the attempt read is still the attempt of the row. */
  lemma LedgerSurvivesIff(d: Db, ex: Id, j: Id, attempt: nat, token: Token, seconds: int)
    requires ex in d.executors && j in d.jobs && d.jobs[j].state == Queued && Balanced(d.jobs[j])
    ensures var r := ClaimIfQueued(d, ex, j, attempt, token, seconds).db;
            j in r.jobs && (Balanced(r.jobs[j]) <==> attempt == d.jobs[j].attempt)
  {
  }

  /** One executor reads a queued job; the job is leased, expires and is recovered; the claim then loses an attempt. */
  lemma LedgerCanBreak(token: Token, again: Token) returns (earlier: seq<Action>, between: seq<Action>)
    requires token != again
    ensures Run(Init(0), earlier) && Candidate(After(Init(0), earlier), 0, 0, 0) &&
            Run(After(Init(0), earlier), between)
    ensures var r := ClaimIfQueued(After(After(Init(0), earlier), between), 0, 0, 0, again, 60).db;
            && 0 in r.jobs && r.jobs[0].state == Leased && r.jobs[0].recoveryCount == 1 && r.jobs[0].attempt == 1
            && !Balanced(r.jobs[0])
  {
    earlier := OneJobIsReachable();
    var acquire, wait, recover := OnJob(DoAcquire(0, 1, token)), Tick(2 * SECOND), OnJob(DoRecoverExpired);
    OneJobIsGranted(token);
    RunOneMore(ONE_JOB, [], acquire);
    RunOneMore(ONE_JOB, [] + [acquire], wait);
    RunOneMore(ONE_JOB, [] + [acquire] + [wait], recover);
    between := [] + [acquire] + [wait] + [recover];
    assert After(ONE_JOB, [] + [acquire] + [wait]) == Overdue(token);
    assert 0 in ExpiredJobs(Overdue(token));
  }

  /** One executor reads a queued job and is revoked; the claim then makes it the owner of an active job. */
  lemma RevokedCanBeLeased(again: Token) returns (earlier: seq<Action>, between: seq<Action>)
    ensures Run(Init(0), earlier) && Candidate(After(Init(0), earlier), 0, 0, 0) &&
            Run(After(Init(0), earlier), between)
    ensures var r := ClaimIfQueued(After(After(Init(0), earlier), between), 0, 0, 0, again, 60).db;
            && 0 in r.jobs && r.jobs[0].Active() && r.jobs[0].owner == Some(0)
            && 0 in r.executors && r.executors[0].status == Revoked && !Inv(r)
  {
    earlier := OneJobIsReachable();
    var revoke := OnJob(DoRevokeExecutor(0, true));
    RunOneMore(ONE_JOB, [], revoke);
    between := [] + [revoke];
    var d := Step(ONE_JOB, revoke).db;
    assert OwnedActiveJobs(ONE_JOB, 0) == map[];
    ClaimRow(d, 0, 0, 0, again, 60);
    RevokedOwnerBreaksInv(ClaimIfQueued(d, 0, 0, 0, again, 60).db, 0, 0);
  }
}
