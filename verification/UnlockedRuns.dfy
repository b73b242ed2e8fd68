/**
 Runs in which calls that the database does not lock come apart: claims on SQLite, and exchanges of
 credential material, each of which checks first and writes later. Any number of them, by any
 number of sessions, mix with the calls that are one transaction.
 */
module UnlockedRuns {
  import opened Common
  import opened LeaseRecords
  import opened LeaseSpec
  import opened LeaseInvariant
  import opened LeaseRuns
  import opened LeaseWitnesses
  import opened SplitClaim

  /** What a session has read and not yet acted upon. */
  datatype Seen =
    | SeenJob(executor: Id, job: Id, attempt: nat)
    | SeenCredential(executor: Id, credential: Id, expiresAt: Time)

  datatype World = World(db: Db, seen: map<nat, Seen>)

  datatype Event =
    | Call(action: Action)
    | ReadJob(session: nat, executor: Id, job: Id)
    | WriteClaim(session: nat, token: Token, seconds: int)
    | ReadCredential(session: nat, executor: Id, credential: Id, token: Token)
    | HandOut(session: nat, materialExpiry: Option<Time>)

  datatype Happened = Happened(world: World, reply: Reply)

  /** The checks of an exchange, made before the material is fetched. */
  predicate MayExchange(db: Db, ex: Id, c: Id, token: Token) {
    && CredentialError(db, ex, c, token).None? && db.credentials[c].useCount == 0
    && db.executors[ex].hasEncryptionKey
    && db.credentials[c].requirement in db.jobs[db.credentials[c].job].request.requirements
  }

  /** The write of an exchange: only columns whose value differs from the one read are written. */
  function Consume(db: Db, c: Id, seenExpiry: Time, materialExpiry: Option<Time>): Outcome
    requires c in db.credentials
  {
    var effective := if materialExpiry.Some? then Min(seenExpiry, materialExpiry.value) else seenExpiry;
    var record := db.credentials[c];
    var expiry := if effective == seenExpiry then record.expiresAt else effective;
    Outcome(SetCredential(db, c, record.(useCount := 1, expiresAt := expiry)), Material(c, effective))
  }

  ghost function Happen(w: World, e: Event): Happened {
    match e
    case Call(a) => Happened(World(Step(w.db, a).db, w.seen), Step(w.db, a).reply)
    case ReadJob(session, ex, j) =>
      if OnlineExecutor(w.db, ex) && j in w.db.jobs && Eligible(w.db.executors[ex], w.db.jobs[j])
      then Happened(w.(seen := w.seen[session := SeenJob(ex, j, w.db.jobs[j].attempt)]), Done)
      else Happened(w, NoWork)
    case WriteClaim(session, token, seconds) =>
      if session in w.seen && w.seen[session].SeenJob?
      then
        var s := w.seen[session];
        var o := ClaimIfQueued(w.db, s.executor, s.job, s.attempt, token, seconds);
        Happened(World(o.db, w.seen - {session}), o.reply)
      else Happened(w, NoWork)
    case ReadCredential(session, ex, c, token) =>
      if MayExchange(w.db, ex, c, token)
      then Happened(w.(seen := w.seen[session := SeenCredential(ex, c, w.db.credentials[c].expiresAt)]), Done)
      else Happened(w, Rejected(CredentialRefused))
    case HandOut(session, materialExpiry) =>
      if session in w.seen && w.seen[session].SeenCredential? && w.seen[session].credential in w.db.credentials
      then
        var s := w.seen[session];
        var o := Consume(w.db, s.credential, s.expiresAt, materialExpiry);
        Happened(World(o.db, w.seen - {session}), o.reply)
      else Happened(w, Rejected(CredentialRefused))
  }

  predicate FreshEvent(w: World, e: Event) {
    && (e.Call? ==> Fresh(w.db, e.action))
    && (e.WriteClaim? ==> e.token !in w.db.issued)
  }

  ghost function WorldAfter(now: Time, events: seq<Event>): World {
    if events == [] then World(Init(now), map[])
    else Happen(WorldAfter(now, events[..|events| - 1]), events[|events| - 1]).world
  }

  ghost predicate Runs(now: Time, events: seq<Event>) {
    events == [] ||
    (Runs(now, events[..|events| - 1]) && FreshEvent(WorldAfter(now, events[..|events| - 1]), events[|events| - 1]))
  }

  lemma LastEvent(now: Time, events: seq<Event>, e: Event)
    ensures WorldAfter(now, events + [e]) == Happen(WorldAfter(now, events), e).world
    ensures Runs(now, events + [e]) <==> Runs(now, events) && FreshEvent(WorldAfter(now, events), e)
  {
    assert (events + [e])[..|events|] == events;
  }

  // ----- what was read stays good enough to write by

  predicate SeenFits(db: Db, s: Seen) {
    match s
    case SeenJob(_, j, attempt) => j in db.jobs && attempt < db.jobs[j].request.maxAttempts
    case SeenCredential(_, c, expiresAt) =>
      c in db.credentials && expiresAt <= db.credentials[c].issuedAt + MAX_CREDENTIAL_SECONDS * SECOND
  }

  ghost predicate SeenOk(w: World) {
    forall session :: session in w.seen ==> SeenFits(w.db, w.seen[session])
  }

  lemma SeenSurvivesCall(db: Db, a: Action, s: Seen)
    requires SeenFits(db, s)
    ensures SeenFits(Step(db, a).db, s)
  {
    match s
    case SeenJob(_, j, attempt) =>
      StepEvolves(db, a);
      assert a.OnJob? ==> RowEvolves(db, Step(db, a).db, a.jobCall, j);
    case SeenCredential(_, c, expiresAt) => ExchangeStep(db, a, c);
  }

  lemma SeenSurvivesWrite(w: World, e: Event, s: Seen)
    requires SeenFits(w.db, s) && (e.WriteClaim? || e.HandOut?)
    ensures SeenFits(Happen(w, e).world.db, s)
  {
  }

  lemma SeenSurvives(w: World, e: Event, s: Seen)
    requires SeenFits(w.db, s)
    ensures SeenFits(Happen(w, e).world.db, s)
  {
    if e.Call? {
      SeenSurvivesCall(w.db, e.action, s);
    } else if e.WriteClaim? || e.HandOut? {
      SeenSurvivesWrite(w, e, s);
    }
  }

  lemma NewlySeenFits(w: World, e: Event)
    requires Inv(w.db) && (e.ReadJob? || e.ReadCredential?)
    ensures var r := Happen(w, e).world;
            r == w || (r == w.(seen := w.seen[e.session := r.seen[e.session]]) && SeenFits(w.db, r.seen[e.session]))
  {
    if e.ReadCredential? && e.credential in w.db.credentials {
      assert CredentialOk(w.db.credentials[e.credential], w.db.jobs);
    }
  }

  lemma SeenStep(w: World, e: Event)
    requires Inv(w.db) && SeenOk(w)
    ensures SeenOk(Happen(w, e).world)
  {
    if e.ReadJob? || e.ReadCredential? {
      NewlySeenFits(w, e);
    } else {
      forall session | session in w.seen ensures SeenFits(Happen(w, e).world.db, w.seen[session]) {
        SeenSurvives(w, e, w.seen[session]);
      }
    }
  }

  // ----- the joint invariant holds exactly as long as nobody revoked is leased to

  predicate LeasesToRevoked(w: World, e: Event) {
    && e.WriteClaim? && e.session in w.seen && w.seen[e.session].SeenJob?
    && var s := w.seen[e.session];
       && s.executor in w.db.executors && w.db.executors[s.executor].status == Revoked
       && s.job in w.db.jobs && w.db.jobs[s.job].state == Queued
  }

  lemma ConsumeKeepsInv(db: Db, c: Id, seenExpiry: Time, materialExpiry: Option<Time>)
    requires Inv(db) && c in db.credentials
    requires seenExpiry <= db.credentials[c].issuedAt + MAX_CREDENTIAL_SECONDS * SECOND
    ensures Inv(Consume(db, c, seenExpiry, materialExpiry).db)
  {
    assert CredentialOk(db.credentials[c], db.jobs);
    CredentialUpdateKeepsInv(db, c, Consume(db, c, seenExpiry, materialExpiry).db.credentials[c]);
  }

  lemma ClaimKeepsInvIff(d: Db, ex: Id, j: Id, attempt: nat, token: Token, seconds: int)
    requires Inv(d) && token !in d.issued && j in d.jobs && attempt < d.jobs[j].request.maxAttempts
    ensures Inv(ClaimIfQueued(d, ex, j, attempt, token, seconds).db) <==>
            !(ex in d.executors && d.jobs[j].state == Queued && d.executors[ex].status == Revoked)
  {
    if ex in d.executors && d.jobs[j].state == Queued {
      ClaimRow(d, ex, j, attempt, token, seconds);
      if d.executors[ex].status == Revoked {
        RevokedOwnerBreaksInv(ClaimIfQueued(d, ex, j, attempt, token, seconds).db, ex, j);
      } else {
        ClaimKeepsInv(d, ex, j, attempt, token, seconds);
      }
    }
  }

  lemma InvStep(w: World, e: Event)
    requires Inv(w.db) && SeenOk(w) && FreshEvent(w, e)
    ensures Inv(Happen(w, e).world.db) <==> !LeasesToRevoked(w, e)
  {
    match e
    case Call(a) => StepKeepsInv(w.db, a);
    case WriteClaim(session, token, seconds) =>
      if session in w.seen && w.seen[session].SeenJob? {
        var s := w.seen[session];
        assert SeenFits(w.db, s);
        ClaimKeepsInvIff(w.db, s.executor, s.job, s.attempt, token, seconds);
      }
    case HandOut(session, materialExpiry) =>
      if session in w.seen && w.seen[session].SeenCredential? {
        var s := w.seen[session];
        assert SeenFits(w.db, s);
        ConsumeKeepsInv(w.db, s.credential, s.expiresAt, materialExpiry);
      }
    case _ =>
  }

  ghost predicate InvThroughout(now: Time, events: seq<Event>) {
    Inv(WorldAfter(now, events).db) && (events != [] ==> InvThroughout(now, events[..|events| - 1]))
  }

  ghost predicate NeverLeasesToRevoked(now: Time, events: seq<Event>) {
    events != [] ==>
      && NeverLeasesToRevoked(now, events[..|events| - 1])
      && !LeasesToRevoked(WorldAfter(now, events[..|events| - 1]), events[|events| - 1])
  }

  /** Over every mixed run, the joint invariant holds throughout exactly if no claim leases to a revoked executor. */
  lemma {:induction false} InvThroughoutIff(now: Time, events: seq<Event>)
    requires Runs(now, events)
    ensures InvThroughout(now, events) <==> NeverLeasesToRevoked(now, events)
    ensures InvThroughout(now, events) ==> SeenOk(WorldAfter(now, events))
  {
    if events == [] {
      ReachableInv(now, []);
    } else {
      var n := |events| - 1;
      var w := WorldAfter(now, events[..n]);
      InvThroughoutIff(now, events[..n]);
      if InvThroughout(now, events[..n]) {
        InvStep(w, events[n]);
        SeenStep(w, events[n]);
      }
    }
  }

  /** Then every unrevoked credential belongs to an active job leased by its executor, who is not revoked. */
  lemma UnlockedCredentialsFollowLeases(now: Time, events: seq<Event>, c: Id)
    requires Runs(now, events) && NeverLeasesToRevoked(now, events)
    requires var db := WorldAfter(now, events).db; c in db.credentials && db.credentials[c].Unrevoked()
    ensures var db := WorldAfter(now, events).db;
            var record := db.credentials[c];
            && record.job in db.jobs && db.jobs[record.job].Active() &&
               db.jobs[record.job].owner == Some(record.executor)
            && record.executor in db.executors && db.executors[record.executor].status != Revoked
  {
    InvThroughoutIff(now, events);
    var db := WorldAfter(now, events).db;
    assert CredentialOk(db.credentials[c], db.jobs);
    var j := db.credentials[c].job;
    assert JobOk(db.jobs[j], j, db.executors, db.issued);
  }

  // ----- fencing needs no such condition

  lemma AcquireTokens(db: Db, ex: Id, seconds: int, token: Token)
    requires TokensOk(db) && token !in db.issued
    ensures TokensOk(Acquire(db, ex, seconds, token).db)
  {
  }

  /** Only an acquisition hands out a token. */
  lemma IssuedStays(db: Db, call: JobCall)
    requires !call.DoAcquire?
    ensures JobStep(db, call).db.issued == db.issued
  {
    if call.DoFinish? {
      FinishRows(db, call.executor, call.job, call.submission, call.failed, call.surroundings, 0);
    }
  }

  lemma CallTokens(db: Db, a: Action)
    requires TokensOk(db) && Fresh(db, a)
    ensures TokensOk(Step(db, a).db)
  {
    var d := Step(db, a).db;
    StepEvolves(db, a);
    if a.OnJob? {
      if a.jobCall.DoAcquire? {
        AcquireTokens(db, a.jobCall.executor, a.jobCall.seconds, a.jobCall.token);
      } else {
        IssuedStays(db, a.jobCall);
        forall j | j in d.jobs && d.jobs[j].tokenHash.Some?
          ensures d.jobs[j].tokenHash.value.token in d.issued && d.issued[d.jobs[j].tokenHash.value.token] == j
        {
          assert RowEvolves(db, d, a.jobCall, j);
        }
      }
    }
  }

  lemma TokensAlways(w: World, e: Event)
    requires TokensOk(w.db) && FreshEvent(w, e)
    ensures TokensOk(Happen(w, e).world.db)
  {
    if e.Call? {
      CallTokens(w.db, e.action);
    }
  }

  lemma {:induction false} ReachableTokens(now: Time, events: seq<Event>)
    requires Runs(now, events)
    ensures TokensOk(WorldAfter(now, events).db)
  {
    if events != [] {
      ReachableTokens(now, events[..|events| - 1]);
      TokensAlways(WorldAfter(now, events[..|events| - 1]), events[|events| - 1]);
    }
  }

  lemma DeadEvent(w: World, e: Event, t: Token)
    requires Dead(w.db, t) && FreshEvent(w, e)
    ensures Dead(Happen(w, e).world.db, t)
  {
    if e.Call? {
      StepEvolves(w.db, e.action);
      DeadStep(w.db, Step(w.db, e.action).db, e.action, t);
    }
  }

  lemma {:induction false} DeadThroughout(now: Time, earlier: seq<Event>, later: seq<Event>, t: Token)
    requires Runs(now, earlier + later) && Dead(WorldAfter(now, earlier).db, t)
    ensures Dead(WorldAfter(now, earlier + later).db, t)
  {
    if later == [] {
      assert earlier + later == earlier;
    } else {
      var n := |later| - 1;
      var front := earlier + later[..n];
      assert earlier + later == front + [later[n]];
      LastEvent(now, front, later[n]);
      DeadThroughout(now, earlier, later[..n], t);
      DeadEvent(WorldAfter(now, front), later[n], t);
    }
  }

  lemma {:induction false} RunsBefore(now: Time, earlier: seq<Event>, later: seq<Event>)
    requires Runs(now, earlier + later)
    ensures Runs(now, earlier)
  {
    if later == [] {
      assert earlier + later == earlier;
    } else {
      var n := |later| - 1;
      assert earlier + later == (earlier + later[..n]) + [later[n]];
      LastEvent(now, earlier + later[..n], later[n]);
      RunsBefore(now, earlier, later[..n]);
    }
  }

  /** The token that an event presents, if it presents one. */
  function PresentedBy(e: Event): Option<Token> {
    if e.Call? then Presented(e.action) else if e.ReadCredential? then Some(e.token) else None
  }

  /**
   Fencing over every mixed run, also one in which somebody revoked was leased to: once a job has let
   go of a token, whatever presents that token is refused and changes nothing.
   */
  lemma UnlockedFencing(now: Time, earlier: seq<Event>, later: seq<Event>, t: Token, e: Event)
    requires Runs(now, earlier + later) && Lost(WorldAfter(now, earlier).db, t) && PresentedBy(e) == Some(t)
    ensures var w := WorldAfter(now, earlier + later); Happen(w, e).world == w && Happen(w, e).reply.Rejected?
  {
    RunsBefore(now, earlier, later);
    ReachableTokens(now, earlier);
    LostIsDead(WorldAfter(now, earlier).db, t);
    DeadThroughout(now, earlier, later, t);
    var w := WorldAfter(now, earlier + later);
    if e.Call? {
      DeadIsRejected(w.db, t, e.action);
    }
  }

  // ----- one-time exchange

  predicate HandsOut(reply: Reply, c: Id) {
    reply.Material? && reply.credential == c
  }

  /** How often material was handed out for a credential. */
  ghost function Handed(now: Time, events: seq<Event>, c: Id): nat {
    if events == [] then 0
    else
      var n := |events| - 1;
      Handed(now, events[..n], c) + (if HandsOut(Happen(WorldAfter(now, events[..n]), events[n]).reply, c) then 1
          else 0)
  }

  /** A write that finds the credential used since it was read. */
  ghost predicate Stale(w: World, e: Event, c: Id) {
    e.HandOut? && HandsOut(Happen(w, e).reply, c) && Uses(w.db, c) != 0
  }

  ghost predicate NeverStale(now: Time, events: seq<Event>, c: Id) {
    events != [] ==>
      && NeverStale(now, events[..|events| - 1], c)
      && !Stale(WorldAfter(now, events[..|events| - 1]), events[|events| - 1], c)
  }

  lemma HandStep(w: World, e: Event, c: Id)
    requires Uses(w.db, c) <= 1
    ensures var o := Happen(w, e);
            && Uses(o.world.db, c) == (if HandsOut(o.reply, c) then 1 else Uses(w.db, c))
            && (HandsOut(o.reply, c) && Uses(w.db, c) != 0 ==> Stale(w, e, c))
  {
    if e.Call? {
      ExchangeStep(w.db, e.action, c);
    }
  }

  lemma {:induction false} HandLedger(now: Time, events: seq<Event>, c: Id)
    ensures var used, handed := Uses(WorldAfter(now, events).db, c), Handed(now, events, c);
            && used == (if handed == 0 then 0 else 1)
            && (handed <= 1 <==> NeverStale(now, events, c))
  {
    if events != [] {
      HandLedger(now, events[..|events| - 1], c);
      HandStep(WorldAfter(now, events[..|events| - 1]), events[|events| - 1], c);
    }
  }

  /**
   Over every mixed run, material is handed out at most once for a credential exactly if every
   unlocked exchange finds it still unused when it writes.
   */
  lemma HandedAtMostOnceIff(now: Time, events: seq<Event>, c: Id)
    ensures Handed(now, events, c) <= 1 <==> NeverStale(now, events, c)
  {
    HandLedger(now, events, c);
  }

  // ----- two exchanges of one credential

  const KEYED: Executor := WORKER.(hasEncryptionKey := true)
  const SECRET: Id := 5

  function SecretAsk(): JobRequest {
    Ask(0, {}).(requirements := {SECRET})
  }

  lemma OneMoreEvent(now: Time, events: seq<Event>, e: Event, w: World)
    requires Runs(now, events) && WorldAfter(now, events) == w && FreshEvent(w, e)
    ensures Runs(now, events + [e]) && WorldAfter(now, events + [e]) == Happen(w, e).world
    ensures forall c ::
              Handed(now, events + [e], c) ==
              Handed(now, events, c) + (if HandsOut(Happen(w, e).reply, c) then 1 else 0)
  {
    LastEvent(now, events, e);
    assert (events + [e])[..|events|] == events;
  }

  /** One credential, issued for a leased job and not yet used. */
  function Issued(token: Token): Db {
    Db(0, map[0 := KEYED], map[0 := LeasedJob(NewJob(SecretAsk(), 0), 0, token, 0, 60)],
       map[0 := Credential(0, 0, SECRET, None, 0, 60 * SECOND, None, 0)], map[token := 0])
  }

  lemma LeasedIsReachable(token: Token) returns (events: seq<Event>)
    ensures Runs(0, events) && WorldAfter(0, events) == World(Issued(token).(credentials := map[]), map[])
  {
    var enroll, schedule := Call(OnExecutor(DoEnroll(0, KEYED))), Call(OnJob(DoSchedule(0, SecretAsk(), true)));
    var acquire := Call(OnJob(DoAcquire(0, 60, token)));
    OneMoreEvent(0, [], enroll, World(Init(0), map[]));
    OneMoreEvent(0, [] + [enroll], schedule, World(Db(0, map[0 := KEYED], map[], map[], map[]), map[]));
    OneMoreEvent(0, [] + [enroll] + [schedule], acquire, World(OneJob(KEYED, SecretAsk()), map[]));
    OnlyJobIsGranted(KEYED, SecretAsk(), 60, token);
    events := [] + [enroll] + [schedule] + [acquire];
  }

  lemma CredentialIsIssued(token: Token)
    ensures Issue(Issued(token).(credentials := map[]), 0, 0, token, SECRET, 900, 900, true, 0).db == Issued(token)
  {
    var db := Issued(token).(credentials := map[]);
    assert ActiveJobError(db, 0, 0, token).None?;
    assert ExistingCredential(db, 0, 0, SECRET).None?;
  }

  lemma IssuedIsReachable(token: Token) returns (events: seq<Event>)
    ensures Runs(0, events) && WorldAfter(0, events) == World(Issued(token), map[])
  {
    var leased := LeasedIsReachable(token);
    var w := World(Issued(token).(credentials := map[]), map[]);
    var issue := Call(OnCredential(DoIssue(0, 0, token, SECRET, 900, 900, true, 0)));
    CredentialIsIssued(token);
    assert Happen(w, issue).world == World(Issued(token), map[]);
    OneMoreEvent(0, leased, issue, w);
    events := leased + [issue];
  }

  /** What a session remembers of that credential. */
  const READ: Seen := SeenCredential(0, 0, 60 * SECOND)

  lemma ReadIssued(token: Token, session: nat, seen: map<nat, Seen>)
    ensures Happen(World(Issued(token), seen), ReadCredential(session, 0, 0, token)).world ==
            World(Issued(token), seen[session := READ])
  {
    assert MayExchange(Issued(token), 0, 0, token);
  }

  lemma HandsOutWhatWasRead(w: World, session: nat)
    requires session in w.seen && w.seen[session] == READ && 0 in w.db.credentials
    ensures var o := Happen(w, HandOut(session, None));
            HandsOut(o.reply, 0) && 0 in o.world.db.credentials && o.world.seen == w.seen - {session}
  {
  }

  /** A reachable mixed run in which two sessions read an unused credential and both hand out its material. */
  lemma MaterialTwice(token: Token) returns (events: seq<Event>)
    ensures Runs(0, events) && Handed(0, events, 0) >= 2
  {
    var issued := IssuedIsReachable(token);
    var first, second := ReadCredential(0, 0, 0, token), ReadCredential(1, 0, 0, token);
    var w0, w1 := World(Issued(token), map[]), World(Issued(token), map[0 := READ]);
    var w2 := World(Issued(token), map[0 := READ][1 := READ]);
    ReadIssued(token, 0, map[]);
    OneMoreEvent(0, issued, first, w0);
    ReadIssued(token, 1, map[0 := READ]);
    OneMoreEvent(0, issued + [first], second, w1);
    events := TwoHandOuts(issued + [first] + [second], w2);
  }

  lemma TwoHandOuts(events: seq<Event>, w: World) returns (more: seq<Event>)
    requires Runs(0, events) && WorldAfter(0, events) == w && w.seen == map[0 := READ][1 := READ] &&
             0 in w.db.credentials
    ensures Runs(0, more) && Handed(0, more, 0) >= 2
  {
    var next := Happen(w, HandOut(0, None)).world;
    HandsOutWhatWasRead(w, 0);
    OneMoreEvent(0, events, HandOut(0, None), w);
    HandsOutWhatWasRead(next, 1);
    OneMoreEvent(0, events + [HandOut(0, None)], HandOut(1, None), next);
    more := events + [HandOut(0, None)] + [HandOut(1, None)];
  }

  /** The write of an exchange looks at nothing: whoever has read a credential is given its material. */
  lemma HandOutIsNeverRefused(w: World, session: nat, materialExpiry: Option<Time>)
    requires SeenOk(w)
    ensures Happen(w, HandOut(session, materialExpiry)).reply.Material? <==>
            session in w.seen && w.seen[session].SeenCredential?
  {
    assert session in w.seen ==> SeenFits(w.db, w.seen[session]);
  }

  /** So material can be handed out after the executor was revoked, with its leases and credentials. */
  lemma MaterialAfterRevocation(token: Token) returns (events: seq<Event>)
    ensures Runs(0, events)
    ensures var w := WorldAfter(0, events);
            && 0 in w.db.executors && w.db.executors[0].status == Revoked
            && 0 in w.db.credentials && !w.db.credentials[0].Unrevoked()
            && HandsOut(Happen(w, HandOut(0, None)).reply, 0)
  {
    var issued := IssuedIsReachable(token);
    var read, revoke := ReadCredential(0, 0, 0, token), Call(OnJob(DoRevokeExecutor(0, true)));
    ReadIssued(token, 0, map[]);
    OneMoreEvent(0, issued, read, World(Issued(token), map[]));
    var w := World(Issued(token), map[0 := READ]);
    OneMoreEvent(0, issued + [read], revoke, w);
    events := issued + [read] + [revoke];
    RevocationReachesCredential(token);
    HandsOutWhatWasRead(Happen(w, revoke).world, 0);
  }

  lemma RevocationReachesCredential(token: Token)
    ensures var d := Step(Issued(token), OnJob(DoRevokeExecutor(0, true))).db;
            && 0 in d.executors && d.executors[0].status == Revoked
            && 0 in d.credentials && !d.credentials[0].Unrevoked()
  {
  }
}
