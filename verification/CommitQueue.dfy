/**
 The leased retry queue that feeds commits into the cognitive log. Any number of workers claim jobs,
 ingest the commit, and report; a worker can die, or be overtaken after its lease expired, at any point.
 */
module CommitQueue {
  import opened Common
  import opened CognitiveLog
  import CognitiveHistory

  type Token = nat

  datatype JobState = Queued | Running | Completed | Failed

  datatype Job = Job(commit: Commit, state: JobState, attempt: nat, maxAttempts: int, token: Option<Token>,
                     expires: Option<Time>, availableAt: Time, createdAt: Time)

  /**
   The jobs in order of submission and the log; and, as the memory of the workers, which job each
   token was issued for, and the commit that each worker has resolved and ingested.
   */
  datatype Queue = Queue(jobs: seq<Job>, claims: map<Token, nat>, ingested: map<Token, Commit>, log: Log)

  /** The clock of the log counts microseconds. */
  const SECOND: nat := 1_000_000

  const START: Queue := Queue([], map[], map[], CognitiveLog.EMPTY)

  // ----- operations

  function FindJob(jobs: seq<Job>, c: Commit): Option<nat> {
    if jobs == [] then None
    else if FindJob(jobs[..|jobs| - 1], c).Some? then FindJob(jobs[..|jobs| - 1], c)
    else if jobs[|jobs| - 1].commit == c then Some(|jobs| - 1) else None
  }

  const QUEUED_EVENT: Text := 0

  function Submit(q: Queue, c: Commit, maxAttempts: int, agent: Option<Text>, payload: Text, delay: nat): Queue {
    if FindJob(q.jobs, c).Some? then q
    else
      var log := Append(q.log, Input(Named(QUEUED_EVENT), agent, Some(c), None, payload), delay);
      q.(jobs := q.jobs + [Job(c, Queued, 0, maxAttempts, None, None, log.now, log.now)], log := log)
  }

  predicate Expired(j: Job, now: Time) {
    j.state.Running? && j.expires.Some? && j.expires.value <= now
  }

  function RecoverJob(j: Job, now: Time): Job {
    if Expired(j, now)
    then j.(state := if j.attempt < j.maxAttempts then Queued else Failed,
            token := None, expires := None, availableAt := now)
    else j
  }

  function RecoverExpired(jobs: seq<Job>, now: Time): (r: seq<Job>)
    ensures |r| == |jobs| && forall i :: 0 <= i < |jobs| ==> r[i] == RecoverJob(jobs[i], now)
  {
    if jobs == [] then [] else RecoverExpired(jobs[..|jobs| - 1], now) + [RecoverJob(jobs[|jobs| - 1], now)]
  }

  predicate Claimable(j: Job, now: Time) {
    j.state.Queued? && j.availableAt <= now
  }

  predicate Before(a: Job, b: Job) {
    a.availableAt < b.availableAt || (a.availableAt == b.availableAt && a.createdAt < b.createdAt)
  }

  /** The first claimable job by availability and then creation. */
  function Choose(jobs: seq<Job>, now: Time): (r: Option<nat>)
    ensures r.Some? ==> r.value < |jobs|
  {
    if jobs == [] then None
    else
      var n := |jobs| - 1;
      var best := Choose(jobs[..n], now);
      if Claimable(jobs[n], now) && (best.None? || Before(jobs[n], jobs[best.value])) then Some(n) else best
  }

  function Lease(j: Job, token: Token, now: Time, lease: nat): Job {
    j.(state := Running, attempt := j.attempt + 1, token := Some(token), expires := Some(now + lease * SECOND))
  }

  /** Recovery and then a claim; a token that was ever issued is never drawn again. */
  function Claim(q: Queue, token: Token, lease: nat): Queue {
    var jobs := RecoverExpired(q.jobs, q.log.now);
    var chosen := Choose(jobs, q.log.now);
    if token in q.claims then q
    else if chosen.None? then q.(jobs := jobs)
    else q.(jobs := jobs[chosen.value := Lease(jobs[chosen.value], token, q.log.now, lease)],
            claims := q.claims[token := chosen.value])
  }

  predicate Owned(jobs: seq<Job>, i: nat, token: Token) {
    i < |jobs| && jobs[i].state.Running? && jobs[i].token == Some(token)
  }

  function Complete(q: Queue, i: nat, token: Token): Queue {
    if !Owned(q.jobs, i, token) then q
    else q.(jobs := q.jobs[i := q.jobs[i].(state := Completed, token := None, expires := None)])
  }

  function Power(n: nat): nat {
    if n == 0 then 1 else 2 * Power(n - 1)
  }

  /** Seconds to wait after a failed attempt. */
  function Backoff(attempt: nat): nat
    requires attempt >= 1
  {
    if Power(attempt - 1) < 300 then Power(attempt - 1) else 300
  }

  function FailJob(j: Job, now: Time): Job
    requires j.attempt >= 1
  {
    var r := j.(token := None, expires := None);
    if j.attempt >= j.maxAttempts then r.(state := Failed)
    else r.(state := Queued, availableAt := now + Backoff(j.attempt) * SECOND)
  }

  /** A running job has been claimed, so its attempt is at least one. */
  function Fail(q: Queue, i: nat, token: Token): Queue {
    if !Owned(q.jobs, i, token) || q.jobs[i].attempt == 0 then q
    else q.(jobs := q.jobs[i := FailJob(q.jobs[i], q.log.now)])
  }

  // ----- the system

  /**
   A worker acts under the token it was given. It resolves the submitted name anew at each attempt,
   ingests whatever its lease is worth by then, and reports completion only after that succeeded.
   Any other transaction on the log can come in between, also an event recorded from outside that
   creates a commit.
   */
  datatype Action =
    | Tick(elapsed: nat)
    | SubmitJob(commit: Commit, maxAttempts: int, agent: Option<Text>, payload: Text)
    | ClaimJob(token: Token)
    | IngestJob(token: Token, resolved: Commit, evidence: CommitEvidence)
    | CompleteJob(token: Token)
    | FailJobOf(token: Token)
    | Other(action: CognitiveLog.Action)

  /** One step; leases are granted for the given number of seconds. */
  function Step(q: Queue, a: Action, lease: nat): Queue {
    match a
    case Tick(elapsed) => q.(log := q.log.(now := q.log.now + elapsed))
    case SubmitJob(c, maxAttempts, agent, payload) => Submit(q, c, maxAttempts, agent, payload, 0)
    case ClaimJob(token) => Claim(q, token, lease)
    case IngestJob(token, c, evidence) =>
      if token in q.claims
      then q.(log := CognitiveLog.Step(q.log, Ingest(c, evidence), 0), ingested := q.ingested[token := c])
      else q
    case CompleteJob(token) =>
      if token in q.claims && token in q.ingested then Complete(q, q.claims[token], token) else q
    case FailJobOf(token) => if token in q.claims then Fail(q, q.claims[token], token) else q
    case Other(action) => q.(log := CognitiveLog.Step(q.log, action, 0))
  }

  function After(actions: seq<Action>, lease: nat): Queue {
    if actions == [] then START
    else Step(After(actions[..|actions| - 1], lease), actions[|actions| - 1], lease)
  }

  // ----- the invariant

  /** The configured bound is not validated; a job is claimed once even when it is not positive. */
  function Limit(j: Job): int {
    Max(1, j.maxAttempts)
  }

  predicate JobOk(j: Job) {
    match j.state
    case Queued => j.attempt < Limit(j) && j.token.None? && j.expires.None?
    case Running => 1 <= j.attempt <= Limit(j) && j.token.Some? && j.expires.Some?
    case Completed => 1 <= j.attempt <= Limit(j) && j.token.None? && j.expires.None?
    case Failed => 1 <= j.attempt <= Limit(j) && j.token.None? && j.expires.None?
  }

  ghost predicate JobsOk(jobs: seq<Job>) {
    forall i :: 0 <= i < |jobs| ==> JobOk(jobs[i])
  }

  /** The token of a job is one that was issued for that job, so no two jobs share one. */
  ghost predicate TokensOk(jobs: seq<Job>, claims: map<Token, nat>) {
    && (forall i :: 0 <= i < |jobs| && jobs[i].token.Some? ==>
        jobs[i].token.value in claims && claims[jobs[i].token.value] == i)
    && (forall t :: t in claims ==> claims[t] < |jobs|)
  }

  /** Whatever a worker has ingested is indexed, and a completed job was ingested by a worker of its own. */
  ghost predicate LogOk(q: Queue) {
    && CognitiveLog.Inv(q.log)
    && (forall t :: t in q.ingested ==> t in q.claims && Indexed(q.log.events, q.ingested[t]))
    && (forall i :: 0 <= i < |q.jobs| && q.jobs[i].state.Completed? ==> IngestedFor(q, i))
  }

  ghost predicate IngestedFor(q: Queue, i: nat) {
    exists t :: t in q.ingested && t in q.claims && q.claims[t] == i
  }

  ghost predicate Inv(q: Queue) {
    JobsOk(q.jobs) && TokensOk(q.jobs, q.claims) && LogOk(q)
  }

  lemma LogGrows(q: Queue, later: Log)
    requires Inv(q) && Extends(q.log, later) && CognitiveLog.Inv(later)
    ensures Inv(q.(log := later))
  {
  }

  lemma TickKeepsLog(log: Log, elapsed: nat)
    requires CognitiveLog.Inv(log)
    ensures CognitiveLog.Inv(log.(now := log.now + elapsed)) && Extends(log, log.(now := log.now + elapsed))
  {
    var later := log.(now := log.now + elapsed);
    SnapshotsSurvive(log, later);
    assert RelationsOk(later) by {
      forall i | 0 <= i < |later.relations| ensures RelationOk(later.events, later.relations[i]) {
        assert RelationOk(log.events, log.relations[i]);
      }
    }
  }

  lemma TickKeepsInv(q: Queue, elapsed: nat)
    requires Inv(q)
    ensures Inv(q.(log := q.log.(now := q.log.now + elapsed)))
  {
    TickKeepsLog(q.log, elapsed);
    LogGrows(q, q.log.(now := q.log.now + elapsed));
  }

  lemma LogStepKeepsInv(q: Queue, a: CognitiveLog.Action)
    requires Inv(q)
    ensures Inv(q.(log := CognitiveLog.Step(q.log, a, 0)))
  {
    CognitiveLog.StepKeepsInv(q.log, a, 0);
    StepExtends(q.log, a, 0);
    LogGrows(q, CognitiveLog.Step(q.log, a, 0));
  }

  /** After an ingestion the commit is indexed, by this call or an earlier one. */
  lemma IngestedIsIndexed(log: Log, c: Commit, p: CommitEvidence)
    ensures Indexed(CognitiveLog.Step(log, Ingest(c, p), 0).events, c)
  {
    var r := CognitiveLog.Step(log, Ingest(c, p), 0);
    CognitiveHistory.StepShape(log, Ingest(c, p), 0);
    if !Indexed(log.events, c) {
      assert CreatesCommit(r.events[|log.events|], c);
    }
  }

  /** A change of one job that keeps its commit and gives no token keeps the rest. */
  lemma JobChangeKeepsInv(q: Queue, i: nat, j: Job)
    requires Inv(q) && i < |q.jobs| && JobOk(j) && j.token.None? && j.commit == q.jobs[i].commit
    requires j.state.Completed? ==> IngestedFor(q, i)
    ensures Inv(q.(jobs := q.jobs[i := j]))
  {
  }

  lemma RecoverKeepsInv(q: Queue)
    requires Inv(q)
    ensures Inv(q.(jobs := RecoverExpired(q.jobs, q.log.now)))
  {
  }

  /** The choice is claimable, no claimable job is strictly before it, and there is one whenever possible. */
  lemma {:induction false} ChooseIsFirst(jobs: seq<Job>, now: Time)
    ensures var c := Choose(jobs, now);
            if c.None? then forall i :: 0 <= i < |jobs| ==> !Claimable(jobs[i], now)
            else Claimable(jobs[c.value], now) && forall i :: 0 <= i < |jobs| && Claimable(jobs[i], now) ==>
                !Before(jobs[i], jobs[c.value])
  {
    if jobs != [] {
      var n := |jobs| - 1;
      ChooseIsFirst(jobs[..n], now);
    }
  }

  lemma ClaimKeepsInv(q: Queue, token: Token, lease: nat)
    requires Inv(q)
    ensures Inv(Claim(q, token, lease))
  {
    RecoverKeepsInv(q);
    ChooseIsFirst(RecoverExpired(q.jobs, q.log.now), q.log.now);
    LeaseKeepsInv(q.(jobs := RecoverExpired(q.jobs, q.log.now)), token, lease);
  }

  lemma LeaseKeepsInv(q: Queue, token: Token, lease: nat)
    requires Inv(q)
    ensures var c := Choose(q.jobs, q.log.now);
            c.Some? && token !in q.claims ==>
              Inv(q.(jobs := q.jobs[c.value := Lease(q.jobs[c.value], token, q.log.now, lease)],
                  claims := q.claims[token := c.value]))
  {
    ChooseIsFirst(q.jobs, q.log.now);
  }

  lemma StepKeepsInv(q: Queue, a: Action, lease: nat)
    requires Inv(q)
    ensures Inv(Step(q, a, lease))
  {
    match a
    case Tick(elapsed) => TickKeepsInv(q, elapsed);
    case SubmitJob(c, maxAttempts, agent, payload) => SubmitKeepsInv(q, c, maxAttempts, agent, payload);
    case ClaimJob(token) => ClaimKeepsInv(q, token, lease);
    case IngestJob(token, c, evidence) => IngestKeepsInv(q, token, c, evidence, lease);
    case CompleteJob(token) => CompleteKeepsInv(q, token, lease);
    case FailJobOf(token) => FailKeepsInv(q, token, lease);
    case Other(action) => LogStepKeepsInv(q, action);
  }

  lemma IngestKeepsInv(q: Queue, token: Token, c: Commit, evidence: CommitEvidence, lease: nat)
    requires Inv(q)
    ensures Inv(Step(q, IngestJob(token, c, evidence), lease))
  {
    if token in q.claims {
      LogStepKeepsInv(q, Ingest(c, evidence));
      IngestedIsIndexed(q.log, c, evidence);
      WorkerRemembers(q.(log := CognitiveLog.Step(q.log, Ingest(c, evidence), 0)), token, c);
    }
  }

  /** A worker remembers a commit that is indexed. */
  lemma WorkerRemembers(q: Queue, token: Token, c: Commit)
    requires Inv(q) && token in q.claims && Indexed(q.log.events, c)
    ensures Inv(q.(ingested := q.ingested[token := c]))
  {
    var r := q.(ingested := q.ingested[token := c]);
    forall i | 0 <= i < |r.jobs| && r.jobs[i].state.Completed? ensures IngestedFor(r, i) {
      assert IngestedFor(q, i);
      var t :| t in q.ingested && t in q.claims && q.claims[t] == i;
      assert t in r.ingested;
    }
  }

  lemma CompleteKeepsInv(q: Queue, token: Token, lease: nat)
    requires Inv(q)
    ensures Inv(Step(q, CompleteJob(token), lease))
  {
    if token in q.claims && token in q.ingested && Owned(q.jobs, q.claims[token], token) {
      var i := q.claims[token];
      assert JobOk(q.jobs[i]);
      JobChangeKeepsInv(q, i, q.jobs[i].(state := Completed, token := None, expires := None));
    }
  }

  lemma FailKeepsInv(q: Queue, token: Token, lease: nat)
    requires Inv(q)
    ensures Inv(Step(q, FailJobOf(token), lease))
  {
    if token in q.claims && Owned(q.jobs, q.claims[token], token) {
      var i := q.claims[token];
      assert JobOk(q.jobs[i]);
      JobChangeKeepsInv(q, i, FailJob(q.jobs[i], q.log.now));
    }
  }

  lemma SubmitKeepsInv(q: Queue, c: Commit, maxAttempts: int, agent: Option<Text>, payload: Text)
    requires Inv(q)
    ensures Inv(Submit(q, c, maxAttempts, agent, payload, 0))
  {
    if FindJob(q.jobs, c).None? {
      var a := Note(QUEUED_EVENT, agent, Some(c), payload, []);
      LogStepKeepsInv(q, a);
      var log := CognitiveLog.Step(q.log, a, 0);
      AppendJobKeepsInv(q.(log := log), Job(c, Queued, 0, maxAttempts, None, None, log.now, log.now));
    }
  }

  lemma AppendJobKeepsInv(q: Queue, j: Job)
    requires Inv(q) && JobOk(j) && j.state.Queued?
    ensures Inv(q.(jobs := q.jobs + [j]))
  {
  }

  lemma {:induction false} ReachableInv(actions: seq<Action>, lease: nat)
    ensures Inv(After(actions, lease))
  {
    if actions != [] {
      var n := |actions| - 1;
      ReachableInv(actions[..n], lease);
      StepKeepsInv(After(actions[..n], lease), actions[n], lease);
    }
  }

  // ----- what the queue guarantees

  /** With a positive bound: the states, attempts and leases of the jobs, in every reachable state. */
  lemma LeasesAndAttempts(actions: seq<Action>, lease: nat, i: nat)
    requires i < |After(actions, lease).jobs| && After(actions, lease).jobs[i].maxAttempts >= 1
    ensures var j := After(actions, lease).jobs[i];
            && (j.state.Queued? ==> j.attempt < j.maxAttempts)
            && (j.state.Running? ==> j.token.Some? && j.expires.Some? && 1 <= j.attempt <= j.maxAttempts)
            && (!j.state.Running? ==> j.token.None? && j.expires.None?)
  {
    ReachableInv(actions, lease);
    assert JobOk(After(actions, lease).jobs[i]);
  }

  /** A completed job was ingested by a worker it was leased to, and the commit that worker resolved is indexed. */
  lemma CompletedIsIndexed(actions: seq<Action>, lease: nat, i: nat)
    requires i < |After(actions, lease).jobs| && After(actions, lease).jobs[i].state.Completed?
    ensures var q := After(actions, lease);
            exists t :: t in q.ingested && t in q.claims && q.claims[t] == i && Indexed(q.log.events, q.ingested[t])
  {
    ReachableInv(actions, lease);
    var q := After(actions, lease);
    assert IngestedFor(q, i);
  }

  /** A step by which somebody outside the queue records the creation of a commit that is already indexed. */
  predicate Recreates(q: Queue, a: Action) {
    a.Other? && CognitiveHistory.Recreates(q.log, a.action)
  }

  lemma IndexedOnceStep(q: Queue, a: Action, lease: nat)
    ensures CognitiveHistory.IndexedOnce(Step(q, a, lease).log.events) <==>
            CognitiveHistory.IndexedOnce(q.log.events) && !Recreates(q, a)
  {
    match a
    case SubmitJob(c, maxAttempts, agent, payload) =>
      CognitiveHistory.IndexedOnceStep(q.log, Note(QUEUED_EVENT, agent, Some(c), payload, []), 0);
    case IngestJob(token, c, evidence) => CognitiveHistory.IndexedOnceStep(q.log, Ingest(c, evidence), 0);
    case Other(action) => CognitiveHistory.IndexedOnceStep(q.log, action, 0);
    case _ =>
  }

  predicate NeverRecreates(actions: seq<Action>, lease: nat) {
    actions != [] ==>
      && NeverRecreates(actions[..|actions| - 1], lease)
      && !Recreates(After(actions[..|actions| - 1], lease), actions[|actions| - 1])
  }

  /**
   However jobs are retried, whoever dies and whoever is overtaken, a commit is indexed at most once
   exactly when nobody outside the queue records the creation of an indexed commit.
   */
  lemma {:induction false} RetriesIndexOnce(actions: seq<Action>, lease: nat)
    ensures CognitiveHistory.IndexedOnce(After(actions, lease).log.events) <==> NeverRecreates(actions, lease)
  {
    if actions != [] {
      var n := |actions| - 1;
      RetriesIndexOnce(actions[..n], lease);
      IndexedOnceStep(After(actions[..n], lease), actions[n], lease);
    }
  }

  predicate Finished(j: Job) {
    j.state.Completed? || j.state.Failed?
  }

  /** How one step can change a job that exists. */
  predicate Evolves(j: Job, r: Job, claimed: bool) {
    && r.commit == j.commit && r.maxAttempts == j.maxAttempts && r.createdAt == j.createdAt
    && r.attempt == j.attempt + (if claimed then 1 else 0)
    && (Finished(j) || (j.state.Queued? && !claimed) ==> r == j)
  }

  /** Whether a step claims the job. */
  predicate Claims(q: Queue, a: Action, i: nat) {
    a.ClaimJob? && a.token !in q.claims && Choose(RecoverExpired(q.jobs, q.log.now), q.log.now) == Some(i)
  }

  lemma StepEvolves(q: Queue, a: Action, lease: nat, i: nat)
    requires JobsOk(q.jobs) && i < |q.jobs|
    ensures i < |Step(q, a, lease).jobs| && Evolves(q.jobs[i], Step(q, a, lease).jobs[i], Claims(q, a, i))
  {
    assert JobOk(q.jobs[i]);
    if a.ClaimJob? {
      ClaimEvolves(q, a.token, lease, i);
    }
  }

  lemma ClaimEvolves(q: Queue, token: Token, lease: nat, i: nat)
    requires i < |q.jobs| && JobOk(q.jobs[i])
    ensures i < |Claim(q, token, lease).jobs|
    ensures Evolves(q.jobs[i], Claim(q, token, lease).jobs[i], Claims(q, ClaimJob(token), i))
  {
    var jobs := RecoverExpired(q.jobs, q.log.now);
    assert jobs[i] == RecoverJob(q.jobs[i], q.log.now);
    ChooseIsFirst(jobs, q.log.now);
  }

  /** How often a job has been claimed in a run. */
  ghost function ClaimCount(actions: seq<Action>, lease: nat, i: nat): nat {
    if actions == [] then 0
    else
      var n := |actions| - 1;
      ClaimCount(actions[..n], lease, i) + (if Claims(After(actions[..n], lease), actions[n], i) then 1 else 0)
  }

  lemma {:induction false} AttemptsCountClaims(actions: seq<Action>, lease: nat, i: nat)
    ensures var q := After(actions, lease);
            ClaimCount(actions, lease, i) == if i < |q.jobs| then q.jobs[i].attempt else 0
  {
    if actions != [] {
      var n := |actions| - 1;
      var q := After(actions[..n], lease);
      AttemptsCountClaims(actions[..n], lease, i);
      ReachableInv(actions[..n], lease);
      if i < |q.jobs| {
        StepEvolves(q, actions[n], lease, i);
      } else {
        NewJobIsUnclaimed(q, actions[n], lease, i);
      }
    }
  }

  lemma NewJobIsUnclaimed(q: Queue, a: Action, lease: nat, i: nat)
    requires i >= |q.jobs|
    ensures !Claims(q, a, i) && (i < |Step(q, a, lease).jobs| ==> Step(q, a, lease).jobs[i].attempt == 0)
  {
  }

  /** A job is claimed at most as often as its bound allows, and once if the bound is not positive. */
  lemma ClaimsAreBounded(actions: seq<Action>, lease: nat, i: nat)
    requires i < |After(actions, lease).jobs|
    ensures ClaimCount(actions, lease, i) <= Max(1, After(actions, lease).jobs[i].maxAttempts)
  {
    AttemptsCountClaims(actions, lease, i);
    ReachableInv(actions, lease);
    assert JobOk(After(actions, lease).jobs[i]);
  }

  function Continue(q: Queue, actions: seq<Action>, lease: nat): Queue {
    if actions == [] then q
    else Step(Continue(q, actions[..|actions| - 1], lease), actions[|actions| - 1], lease)
  }

  /** Fencing: once a job no longer holds a token, no continuation gives it back, so its worker is never heard again. */
  lemma {:induction false} LostLeasesStayLost(q: Queue, more: seq<Action>, lease: nat, token: Token, i: nat)
    requires Inv(q) && token in q.claims && !Owned(q.jobs, i, token)
    ensures var r := Continue(q, more, lease); Inv(r) && token in r.claims && !Owned(r.jobs, i, token)
  {
    if more != [] {
      var n := |more| - 1;
      LostLeasesStayLost(q, more[..n], lease, token, i);
      var mid := Continue(q, more[..n], lease);
      StepKeepsInv(mid, more[n], lease);
      LostStep(mid, more[n], lease, token, i);
    }
  }

  lemma LostStep(q: Queue, a: Action, lease: nat, token: Token, i: nat)
    requires Inv(q) && token in q.claims && !Owned(q.jobs, i, token)
    ensures var r := Step(q, a, lease); token in r.claims && !Owned(r.jobs, i, token)
  {
    if a.ClaimJob? {
      LostClaim(q, a.token, lease, token, i);
    }
  }

  lemma LostClaim(q: Queue, issued: Token, lease: nat, token: Token, i: nat)
    requires token in q.claims && !Owned(q.jobs, i, token)
    ensures var r := Claim(q, issued, lease); token in r.claims && !Owned(r.jobs, i, token)
  {
    if i < |q.jobs| {
      assert RecoverExpired(q.jobs, q.log.now)[i] == RecoverJob(q.jobs[i], q.log.now);
    }
  }

  /** A finished job never changes again. */
  lemma {:induction false} FinishedForever(q: Queue, more: seq<Action>, lease: nat, i: nat)
    requires Inv(q) && i < |q.jobs| && Finished(q.jobs[i])
    ensures var r := Continue(q, more, lease); Inv(r) && i < |r.jobs| && r.jobs[i] == q.jobs[i]
  {
    if more != [] {
      var n := |more| - 1;
      FinishedForever(q, more[..n], lease, i);
      StepKeepsInv(Continue(q, more[..n], lease), more[n], lease);
      StepEvolves(Continue(q, more[..n], lease), more[n], lease, i);
    }
  }

  // ----- backoff

  lemma {:induction false} PowerGrows(m: nat, n: nat)
    requires m <= n
    ensures 1 <= Power(m) <= Power(n)
  {
    if m < n {
      PowerGrows(m, n - 1);
    } else if m > 0 {
      PowerGrows(m - 1, m - 1);
    }
  }

  /** The wait is between one and three hundred seconds and never shrinks with the attempts. */
  lemma BackoffGrows(a: nat, b: nat)
    requires 1 <= a <= b
    ensures 1 <= Backoff(a) <= Backoff(b) <= 300
  {
    PowerGrows(a - 1, b - 1);
  }

  /** Until it is claimed again, a queued job does not change. */
  lemma {:induction false} QueuedUntilClaimed(q: Queue, more: seq<Action>, lease: nat, i: nat)
    requires Inv(q) && i < |q.jobs| && q.jobs[i].state.Queued?
    ensures var r := Continue(q, more, lease);
            && Inv(r) && i < |r.jobs| && r.jobs[i].attempt >= q.jobs[i].attempt
            && (r.jobs[i].attempt == q.jobs[i].attempt ==> r.jobs[i] == q.jobs[i])
  {
    if more != [] {
      var n := |more| - 1;
      QueuedUntilClaimed(q, more[..n], lease, i);
      StepKeepsInv(Continue(q, more[..n], lease), more[n], lease);
      StepEvolves(Continue(q, more[..n], lease), more[n], lease, i);
    }
  }

  /**
   Backoff over runs: from a failure on, and until the job is claimed again, it can be claimed
   exactly once the clock has advanced by the wait, so the next claim comes no earlier.
   */
  lemma BackoffIsHonoured(q: Queue, token: Token, more: seq<Action>, lease: nat, i: nat)
    requires Inv(q) && token in q.claims && q.claims[token] == i && Owned(q.jobs, i, token)
    requires 1 <= q.jobs[i].attempt < q.jobs[i].maxAttempts
    ensures var failed := Step(q, FailJobOf(token), lease);
            var r := Continue(failed, more, lease);
            && i < |r.jobs|
            && (r.jobs[i].attempt == q.jobs[i].attempt ==>
                  && (Claimable(r.jobs[i], r.log.now) <==> r.log.now >= q.log.now + Backoff(q.jobs[i].attempt) * SECOND)
                  && forall a :: Claims(r, a, i) ==> r.log.now >= q.log.now + Backoff(q.jobs[i].attempt) * SECOND)
  {
    var failed := Step(q, FailJobOf(token), lease);
    StepKeepsInv(q, FailJobOf(token), lease);
    assert failed.jobs[i] == FailJob(q.jobs[i], q.log.now);
    QueuedUntilClaimed(failed, more, lease, i);
    var r := Continue(failed, more, lease);
    ChooseIsFirst(RecoverExpired(r.jobs, r.log.now), r.log.now);
    assert RecoverExpired(r.jobs, r.log.now)[i] == RecoverJob(r.jobs[i], r.log.now);
  }
}
