/**
 Reachable states in which the lease protocol does less than one might expect: a result accepted
 after its lease has expired, and an acquisition that finds no work although a job matches.
 */
module LeaseWitnesses {
  import opened Common
  import opened LeaseRecords
  import opened LeaseSpec
  import opened LeaseRuns

  /** A run can be continued by one call. */
  lemma {:induction false} RunOneMore(db: Db, actions: seq<Action>, a: Action)
    requires Run(db, actions) && Fresh(After(db, actions), a)
    ensures Run(db, actions + [a]) && After(db, actions + [a]) == Step(After(db, actions), a).db
    decreases actions
  {
    if actions == [] {
      assert (actions + [a])[1..] == [];
      assert After(db, [a]) == After(Step(db, a).db, []);
    } else {
      assert (actions + [a])[1..] == actions[1..] + [a];
      RunOneMore(Step(db, actions[0]).db, actions[1..], a);
    }
  }

  const NOWHERE: Scope := Scope(None, None, None)
  const WORKER: Executor := Executor(Online, NOWHERE, {}, map[], 0, 0, false, 0)

  /** A job that anyone can do, or one that needs a capability. */
  function Ask(key: Id, needs: set<Id>): JobRequest {
    JobRequest(0, 0, NOWHERE, DeploymentScope(0), key, 0, needs, map[], {}, 3)
  }

  /** One executor, and `n` queued jobs of which only those from number 100 on can be done by it. */
  function Backlog(n: nat): Db {
    Db(0, map[0 := WORKER], map i | 0 <= i < n :: NewJob(BacklogAsk(i), 0), map[], map[])
  }

  function BacklogAsk(i: Id): JobRequest {
    Ask(i, if i < CANDIDATE_LIMIT then {1} else {})
  }

  lemma ExecutorIsReachable() returns (actions: seq<Action>)
    ensures Run(Init(0), actions) && After(Init(0), actions) == Backlog(0)
  {
    var enroll := OnExecutor(DoEnroll(0, WORKER));
    RunOneMore(Init(0), [], enroll);
    actions := [] + [enroll];
    assert Backlog(0).jobs == map[];
  }

  lemma {:induction false} BacklogIsReachable(n: nat) returns (actions: seq<Action>)
    ensures Run(Init(0), actions) && After(Init(0), actions) == Backlog(n)
  {
    if n == 0 {
      actions := ExecutorIsReachable();
    } else {
      var before := BacklogIsReachable(n - 1);
      var a := OnJob(DoSchedule(n - 1, BacklogAsk(n - 1), true));
      OneMoreJob(n - 1);
      RunOneMore(Init(0), before, a);
      actions := before + [a];
    }
  }

  lemma OneMoreJob(n: nat)
    ensures Step(Backlog(n), OnJob(DoSchedule(n, BacklogAsk(n), true))).db == Backlog(n + 1)
  {
    var db := Backlog(n);
    assert forall k :: k in db.jobs ==> !SameKey(db.jobs[k], BacklogAsk(n));
    assert n !in db.jobs;
    assert db.jobs[n := NewJob(BacklogAsk(n), 0)] == Backlog(n + 1).jobs;
  }

  lemma {:induction false} BacklogSize(n: nat)
    ensures |Backlog(n).jobs.Keys| == n
  {
    if n > 0 {
      BacklogSize(n - 1);
      assert Backlog(n).jobs.Keys == Backlog(n - 1).jobs.Keys + {n - 1};
    }
  }

  /** Nobody's lease has expired in the backlog, so recovery changes nothing. */
  lemma NothingToRecover(n: nat)
    ensures RecoverExpired(Backlog(n)).db == Backlog(n)
  {
    var db := Backlog(n);
    assert ExpiredJobs(db) == map[];
    assert ReleaseJobs(db, map[]).jobs == db.jobs;
    assert ReleaseJobs(db, map[]).credentials == db.credentials;
  }

  /** The last of more than a hundred eligible jobs is not looked at. */
  lemma LastIsOutOfSight(jobs: map<Id, Job>, e: Executor, last: Id)
    requires last in jobs && |Candidates(jobs, e)| > CANDIDATE_LIMIT
    requires forall j :: j in jobs && Eligible(e, jobs[j]) && j != last ==> !Before(jobs, last, j)
    ensures last !in Window(jobs, e)
  {
    var order := QueueOrder(jobs, Candidates(jobs, e));
    QueueOrdered(jobs, Candidates(jobs, e));
    LastIsLast(jobs, order, last);
    var w := Window(jobs, e);
    forall k | 0 <= k < |w| ensures w[k] != last {
      assert w[k] == order[k];
    }
  }

  /** In query order, a job that every other one precedes comes at the very end only. */
  lemma {:induction false} LastIsLast(jobs: map<Id, Job>, order: seq<Id>, last: Id)
    requires (forall j :: j in order ==> j in jobs) && InQueryOrder(jobs, order) && last in jobs
    requires forall j :: j in order && j != last ==> !Before(jobs, last, j)
    ensures forall k :: 0 <= k < |order| - 1 ==> order[k] != last
  {
    if order != [] {
      LastIsLast(jobs, order[1..], last);
      if |order| > 1 {
        assert order[1] in order[1..] && order[0] != order[1] && Before(jobs, order[0], order[1]);
      }
      forall k | 0 < k < |order| - 1 ensures order[k] != last {
        assert order[k] == order[1..][k - 1];
      }
    }
  }

  /** A hundred jobs that the executor cannot do hide one that it can: the answer is that there is no work. */
  lemma NoWorkDespiteMatch(token: Token) returns (actions: seq<Action>)
    ensures Run(Init(0), actions)
    ensures var db := After(Init(0), actions);
            && Acquire(db, 0, 60, token).reply == NoWork
            && 100 in db.jobs && Eligible(db.executors[0], db.jobs[100]) && Matches(db.executors[0], db.jobs[100])
  {
    actions := BacklogIsReachable(101);
    var db := Backlog(101);
    NothingToRecover(101);
    BacklogSize(101);
    assert Candidates(db.jobs, WORKER) == db.jobs.Keys;
    LastIsOutOfSight(db.jobs, WORKER, 100);
    AcquireIsFifo(db, 0, 60, token);
    forall j | j in Window(db.jobs, WORKER) ensures !Matches(WORKER, db.jobs[j]) {
      assert j < 100 && 1 in db.jobs[j].request.capabilities;
    }
  }

  // ----- a late result

  const RESULT: AgentResult := AgentResult(0, 0, false, 0)

  /** One job, leased by the executor for a second under the token, two seconds ago. */
  function Overdue(token: Token): Db {
    Db(2 * SECOND, map[0 := WORKER], map[0 := LeasedJob(NewJob(Ask(0, {}), 0), 0, token, 0, 1)], map[], map[token := 0])
  }

  const ONE_JOB: Db := Db(0, map[0 := WORKER], map[0 := NewJob(Ask(0, {}), 0)], map[], map[])

  lemma OneJobIsReachable() returns (actions: seq<Action>)
    ensures Run(Init(0), actions) && After(Init(0), actions) == ONE_JOB
  {
    var before := ExecutorIsReachable();
    var a := OnJob(DoSchedule(0, Ask(0, {}), true));
    RunOneMore(Init(0), before, a);
    actions := before + [a];
    assert Backlog(0).jobs == map[];
  }

  /** One executor and one queued job. */
  function OneJob(e: Executor, r: JobRequest): Db {
    Db(0, map[0 := e], map[0 := NewJob(r, 0)], map[], map[])
  }

  /** A single job that the executor can do is leased to it. */
  lemma OnlyJobIsGranted(e: Executor, r: JobRequest, seconds: int, token: Token)
    requires e.status == Online && e.lastHeartbeatAt == 0 && Eligible(e, NewJob(r, 0)) && Matches(e, NewJob(r, 0))
    ensures Step(OneJob(e, r), OnJob(DoAcquire(0, seconds, token))).db ==
            Db(0, map[0 := e], map[0 := LeasedJob(NewJob(r, 0), 0, token, 0, seconds)], map[], map[token := 0])
  {
    var db := OneJob(e, r);
    assert ExpiredJobs(db) == map[];
    assert ReleaseJobs(db, map[]).jobs == db.jobs && ReleaseJobs(db, map[]).credentials == db.credentials;
    assert RecoverExpired(db).db == db;
    var w := Window(db.jobs, e);
    assert Candidates(db.jobs, e) == {0};
    QueueOrdered(db.jobs, {0});
    assert 0 in w;
    FifoChoice(db.jobs, e);
    assert FirstMatch(w, db.jobs, e) == Some(0);
    assert db.executors[0 := e] == db.executors;
  }

  lemma OneJobIsGranted(token: Token)
    ensures Step(ONE_JOB, OnJob(DoAcquire(0, 1, token))).db == Overdue(token).(now := 0)
  {
    OnlyJobIsGranted(WORKER, Ask(0, {}), 1, token);
  }

  /** A reachable state in which the lease has expired and its result is acknowledged and stored all the same. */
  lemma LateResultIsAccepted(token: Token, out: Surroundings) returns (actions: seq<Action>)
    requires out.accepted
    ensures Run(Init(0), actions)
    ensures var db := After(Init(0), actions);
            var sub := Submission(token, RESULT, ResultHash(RESULT), 0, Signature(0, RESULT));
            var o := Finish(db, 0, 0, sub, false, out);
            && 0 in db.jobs && db.jobs[0].Active() && db.jobs[0].expiresAt.Some? && db.jobs[0].expiresAt.value <= db.now
            && o.reply == JobReply(0) && 0 in o.db.jobs && o.db.jobs[0].state == Completed
  {
    var before := OneJobIsReachable();
    var acquire, wait := OnJob(DoAcquire(0, 1, token)), Tick(2 * SECOND);
    RunOneMore(Init(0), before, acquire);
    OneJobIsGranted(token);
    RunOneMore(Init(0), before + [acquire], wait);
    actions := before + [acquire] + [wait];
    var db := Overdue(token);
    assert After(Init(0), actions) == db;
    var sub := Submission(token, RESULT, ResultHash(RESULT), 0, Signature(0, RESULT));
    FirstResultAcceptedIff(db, 0, 0, sub, false, out);
  }
}
