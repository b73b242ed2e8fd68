/** The queue as a service that changes its job rows in place. */
module CommitQueueService {
  import opened Common
  import opened CognitiveLog
  import opened CommitQueue

  class Service {
    var jobs: seq<Job>
    var claims: map<Token, nat>
    var ingested: map<Token, Commit>
    var log: Log
    const lease: nat

    constructor (lease: nat)
      ensures Contents() == START && this.lease == lease
    {
      this.lease := lease;
      jobs, claims, ingested, log := [], map[], map[], CognitiveLog.EMPTY;
    }

    function Contents(): Queue
      reads this
    {
      Queue(jobs, claims, ingested, log)
    }

    method Submit(c: Commit, maxAttempts: int, agent: Option<Text>, payload: Text, delay: nat) returns (i: nat)
      modifies this
      ensures Contents() == CommitQueue.Submit(old(Contents()), c, maxAttempts, agent, payload, delay)
      ensures i < |jobs| && jobs[i].commit == c
    {
      var existing := FindJob(jobs, c);
      FoundJob(jobs, c);
      if existing.Some? {
        return existing.value;
      }
      log := Append(log, Input(Named(QUEUED_EVENT), agent, Some(c), None, payload), delay);
      i := |jobs|;
      jobs := jobs + [Job(c, Queued, 0, maxAttempts, None, None, log.now, log.now)];
    }

    /** Puts every job with an expired lease back in the queue, or gives it up. */
    method RecoverExpired()
      modifies this`jobs
      ensures jobs == CommitQueue.RecoverExpired(old(jobs), log.now)
    {
      ghost var start := jobs;
      for n := 0 to |jobs|
        invariant |jobs| == |start|
        invariant forall i :: 0 <= i < n ==> jobs[i] == RecoverJob(start[i], log.now)
        invariant forall i :: n <= i < |jobs| ==> jobs[i] == start[i]
      {
        var job := jobs[n];
        if job.state.Running? && job.expires.Some? && job.expires.value <= log.now {
          var state := if job.attempt < job.maxAttempts then Queued else Failed;
          jobs := jobs[n := job.(state := state, token := None, expires := None, availableAt := log.now)];
        }
      }
    }

    /** Leases the first available job under a token that was never issued before. */
    method Claim(token: Token) returns (claimed: Option<nat>)
      requires token !in claims
      modifies this
      ensures Contents() == CommitQueue.Claim(old(Contents()), token, lease)
      ensures claimed.Some? ==> claimed.value < |jobs| && Owned(jobs, claimed.value, token)
    {
      RecoverExpired();
      claimed := Choose(jobs, log.now);
      if claimed.Some? {
        var i := claimed.value;
        jobs := jobs[i := jobs[i].(state := Running, attempt := jobs[i].attempt + 1, token := Some(token),
                                   expires := Some(log.now + lease * SECOND))];
        claims := claims[token := i];
      }
    }

    method Complete(i: nat, token: Token) returns (ok: bool)
      modifies this`jobs
      ensures Contents() == CommitQueue.Complete(old(Contents()), i, token)
      ensures ok <==> Owned(old(jobs), i, token)
      ensures !ok ==> Contents() == old(Contents())
      ensures ok ==> OnlyJob(old(jobs), jobs, i) && jobs[i].state == Completed
      ensures ok ==> jobs[i].attempt == old(jobs)[i].attempt
      ensures forall k, t :: Owned(jobs, k, t) ==> Owned(old(jobs), k, t) && !(ok && k == i)
    {
      ok := Owned(jobs, i, token);
      if ok {
        jobs := jobs[i := jobs[i].(state := Completed, token := None, expires := None)];
      }
    }

    method Fail(i: nat, token: Token) returns (ok: bool)
      requires JobsOk(jobs)
      modifies this`jobs
      ensures Contents() == CommitQueue.Fail(old(Contents()), i, token)
      ensures ok <==> Owned(old(jobs), i, token)
      ensures !ok ==> Contents() == old(Contents())
      ensures ok ==> OnlyJob(old(jobs), jobs, i) && jobs[i].attempt == old(jobs)[i].attempt
      ensures ok ==> jobs[i].state == (if jobs[i].attempt < jobs[i].maxAttempts then Queued else Failed)
      ensures ok && jobs[i].state == Queued ==> log.now + SECOND <= jobs[i].availableAt <= log.now + 300 * SECOND
      ensures forall k, t :: Owned(jobs, k, t) ==> Owned(old(jobs), k, t) && !(ok && k == i)
    {
      ok := Owned(jobs, i, token);
      if ok {
        assert JobOk(jobs[i]);
        BackoffGrows(jobs[i].attempt, jobs[i].attempt);
        var job := jobs[i].(token := None, expires := None);
        if job.attempt >= job.maxAttempts {
          job := job.(state := Failed);
        } else {
          job := job.(state := Queued, availableAt := log.now + Backoff(job.attempt) * SECOND);
        }
        jobs := jobs[i := job];
      }
    }
  }

  /** No job appears or disappears, none but this one differs, and its commit and bound stay. */
  predicate OnlyJob(before: seq<Job>, after: seq<Job>, i: nat) {
    && i < |before| == |after| && (forall k :: 0 <= k < |before| && k != i ==> after[k] == before[k])
    && after[i].commit == before[i].commit && after[i].maxAttempts == before[i].maxAttempts
  }

  lemma {:induction false} FoundJob(jobs: seq<Job>, c: Commit)
    ensures var r := FindJob(jobs, c);
            if r.Some? then r.value < |jobs| && jobs[r.value].commit == c
            else forall i :: 0 <= i < |jobs| ==> jobs[i].commit != c
  {
    if jobs != [] {
      FoundJob(jobs[..|jobs| - 1], c);
    }
  }
}
