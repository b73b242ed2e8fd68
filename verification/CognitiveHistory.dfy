/**
 What the cognitive log guarantees over whole histories: time travel, idempotent ingestion,
 containment of earlier states and impacts in later ones, and a tamper-evident event chain.
 */
module CognitiveHistory {
  import opened Common
  import opened CognitiveLog
  import opened ImpactAnalysis
  import opened GraphBall

  // ----- the event a step records

  /** The input of the one event that a step records, if it records any. */
  function InputOf(log: Log, a: Action): Option<EventInput> {
    match a
    case Record(input) => if ParentExists(log, input) then Some(input) else None
    case Relate(link, commit, actor, payload) =>
      if FindRelation(log.relations, link, commit).Some? then None
      else Some(Input(DependencyCreated, actor, commit, None, payload))
    case Note(name, agent, commit, payload, links) => Some(Input(Named(name), agent, commit, None, payload))
    case Ingest(c, p) => if Indexed(log.events, c) then None else Some(CommitInput(c, p))
    case Snap(commit, kind, payload) =>
      if commit.Some? && TimeForCommit(log.events, commit.value).None? then None
      else Some(Input(SnapshotCreated, None, commit, Some(|log.snapshots|), payload))
  }

  /** The commit that a step indexes, if any. */
  function Creates(log: Log, a: Action): Option<Commit> {
    var input := InputOf(log, a);
    if input.Some? && input.value.kind.CommitCreated? then input.value.commit else None
  }

  ghost predicate Recorded(log: Log, r: Log, input: EventInput) {
    && |r.events| == |log.events| + 1 && r.events[..|log.events|] == log.events
    && r.events[|log.events|].body.input == input && r.events[|log.events|].body.createdAt == r.now > log.now
  }

  lemma AnnotateShape(log: Log, input: EventInput, links: seq<Link>, delay: nat)
    ensures var r := Annotate(log, input, links, delay); Recorded(log, r, input) && r.snapshots == log.snapshots
  {
    AttachShape(Append(log, input, delay), links, input.commit);
  }

  lemma StepShape(log: Log, a: Action, delay: nat)
    ensures var r, input := Step(log, a, delay), InputOf(log, a);
            && (if input.None? then r == log else Recorded(log, r, input.value))
            && (a.Snap? || r.snapshots == log.snapshots)
  {
    match a
    case Record(input) => AnnotateShape(log, input, [], delay);
    case Relate(link, commit, actor, payload) =>
      AnnotateShape(log, Input(DependencyCreated, actor, commit, None, payload), [link], delay);
    case Note(name, agent, commit, payload, links) =>
      AnnotateShape(log, Input(Named(name), agent, commit, None, payload), links, delay);
    case Ingest(c, p) => AnnotateShape(log, CommitInput(c, p), CommitLinks(c, p), delay);
    case Snap(commit, kind, payload) =>
  }

  // ----- queries on a log that has grown

  lemma TimeAfterAppend(events: seq<Event>, now: Time, e: Event, c: Commit)
    requires TimesOk(events, now) && e.body.createdAt > now
    ensures TimeForCommit(events + [e], c) == if CreatesCommit(e, c) then Some(e.body.createdAt)
            else TimeForCommit(events, c)
  {
    assert (events + [e])[..|events|] == events;
    TimeForCommitFound(events, now, c);
  }

  lemma {:induction false} RelationsGrow(relations: seq<Relation>, t: Option<Time>, u: Option<Time>)
    requires u.None? || (t.Some? && t.value <= u.value)
    ensures forall r :: r in Relations(relations, t) ==> r in Relations(relations, u)
  {
    if relations != [] {
      RelationsGrow(relations[..|relations| - 1], t, u);
    }
  }

  lemma {:induction false} ValuesAre(relations: seq<Relation>, e: Entity)
    ensures e in Values(relations) <==> exists r :: r in relations && (r.link.source == e || r.link.target == e)
  {
    if relations != [] {
      var front := relations[..|relations| - 1];
      ValuesAre(front, e);
      assert relations == front + [relations[|relations| - 1]];
    }
  }

  /** The state only grows with time. */
  lemma StateGrows(relations: seq<Relation>, t: Option<Time>, u: Option<Time>)
    requires u.None? || (t.Some? && t.value <= u.value)
    ensures State(relations, t) <= State(relations, u)
  {
    RelationsGrow(relations, t, u);
    forall e | e in State(relations, t) ensures e in State(relations, u) {
      ValuesAre(Relations(relations, t), e);
      ValuesAre(Relations(relations, u), e);
    }
  }

  lemma {:induction false} EverythingIsVisible(relations: seq<Relation>, t: Time)
    requires forall i :: 0 <= i < |relations| ==> relations[i].validFrom <= t
    ensures Relations(relations, Some(t)) == Relations(relations, None) == relations
  {
    if relations != [] {
      EverythingIsVisible(relations[..|relations| - 1], t);
    }
  }

  lemma RelationsArePast(log: Log)
    requires Inv(log)
    ensures forall i :: 0 <= i < |log.relations| ==> log.relations[i].validFrom <= log.now
  {
  }

  /** At or after the latest clock reading, everything is visible. */
  lemma StateNow(log: Log, t: Time)
    requires Inv(log) && log.now <= t
    ensures State(log.relations, Some(t)) == State(log.relations, None) == StateKindsOf(Values(log.relations))
  {
    RelationsArePast(log);
    EverythingIsVisible(log.relations, t);
  }

  // ----- time travel

  /** A stored snapshot of a commit agrees with what the relation log says now about that commit. */
  predicate Agrees(log: Log, s: Snapshot) {
    s.commit.Some? ==> s.state == State(log.relations, TimeForCommit(log.events, s.commit.value))
  }

  ghost predicate TimeTravels(log: Log) {
    forall i :: 0 <= i < |log.snapshots| ==> Agrees(log, log.snapshots[i])
  }

  /**
   The one call that can spoil a stored snapshot is an event recorded from outside that creates a
   commit again. It is harmless exactly when nothing has been added since the commit was indexed.
   */
  predicate Harmless(log: Log, a: Action) {
    a.Record? && Creates(log, a).Some? ==>
      forall i :: 0 <= i < |log.snapshots| && log.snapshots[i].commit == Creates(log, a) ==>
        log.snapshots[i].state == State(log.relations, None)
  }

  /** How a step moves the time of a commit. */
  lemma StepTime(log: Log, a: Action, delay: nat, c: Commit)
    requires Inv(log)
    ensures var r := Step(log, a, delay);
            TimeForCommit(r.events, c) == if Creates(log, a) == Some(c) then Some(r.now)
                else TimeForCommit(log.events, c)
  {
    var r := Step(log, a, delay);
    StepShape(log, a, delay);
    if InputOf(log, a).Some? {
      TimeAfterAppend(log.events, log.now, r.events[|log.events|], c);
      assert r.events == log.events + [r.events[|log.events|]];
    }
  }

  lemma IndexedHasTime(log: Log, s: Snapshot, c: Commit)
    requires Inv(log) && s in log.snapshots && s.commit == Some(c)
    ensures Indexed(log.events, c)
    ensures exists t: Time ::
              TimeForCommit(log.events, c) == Some(t) && t <= log.now && s.state <= State(log.relations, Some(t))
  {
    var i :| 0 <= i < |log.snapshots| && log.snapshots[i] == s;
    assert SnapshotOk(log, log.snapshots[i]);
    var k: nat :| AsOfEvent(log, s, c, k);
    assert log.events[k].body.createdAt <= log.now;
    TimeForCommitFound(log.events, log.now, c);
    var n: nat :| NewestCreation(log.events, c, n) &&
        TimeForCommit(log.events, c) == Some(log.events[n].body.createdAt);
    assert k <= n;
    StateGrows(log.relations, Some(log.events[k].body.createdAt), Some(log.events[n].body.createdAt));
  }

  /** For a snapshot already stored, agreement after a step is agreement before it and a harmless step. */
  lemma AgreementStep(log: Log, a: Action, delay: nat, s: Snapshot)
    requires Inv(log) && s in log.snapshots && s.commit.Some?
    ensures Agrees(Step(log, a, delay), s) <==>
            (if a.Record? && Creates(log, a) == s.commit then s.state == State(log.relations, None) else Agrees(log, s))
    ensures Agrees(Step(log, a, delay), s) ==> Agrees(log, s)
  {
    var c := s.commit.value;
    var r := Step(log, a, delay);
    StepTime(log, a, delay, c);
    IndexedHasTime(log, s, c);
    var t: Time :| TimeForCommit(log.events, c) == Some(t) && t <= log.now && s.state <= State(log.relations, Some(t));
    if Creates(log, a) == s.commit {
      StepShape(log, a, delay);
      assert a.Record? && r.relations == log.relations;
      StateNow(log, r.now);
      StateGrows(log.relations, Some(t), None);
    } else {
      StepExtends(log, a, delay);
      PastIsFrozen(log, r, t);
    }
  }

  lemma NewSnapshotAgrees(log: Log, a: Action, delay: nat)
    requires Inv(log)
    ensures var r := Step(log, a, delay);
            forall i :: |log.snapshots| <= i < |r.snapshots| ==> Agrees(r, r.snapshots[i])
  {
    StepShape(log, a, delay);
    if a.Snap? && a.commit.Some? {
      StepTime(log, a, delay, a.commit.value);
    }
  }

  lemma TimeTravelStep(log: Log, a: Action, delay: nat)
    requires Inv(log)
    ensures TimeTravels(Step(log, a, delay)) <==> TimeTravels(log) && Harmless(log, a)
  {
    var r := Step(log, a, delay);
    StepExtends(log, a, delay);
    NewSnapshotAgrees(log, a, delay);
    forall i | 0 <= i < |log.snapshots| && log.snapshots[i].commit.Some?
      ensures var s := log.snapshots[i];
              && r.snapshots[i] == s
              && (Agrees(r, s) <==> (if a.Record? && Creates(log, a) == s.commit
                  then s.state == State(log.relations, None) else Agrees(log, s)))
              && (Agrees(r, s) ==> Agrees(log, s))
    {
      AgreementStep(log, a, delay, log.snapshots[i]);
    }
    if TimeTravels(r) {
      forall i | 0 <= i < |log.snapshots| ensures Agrees(log, log.snapshots[i]) {
        assert Agrees(r, r.snapshots[i]);
      }
    } else if TimeTravels(log) && Harmless(log, a) {
      forall i | 0 <= i < |r.snapshots| ensures Agrees(r, r.snapshots[i]) {
        if i < |log.snapshots| { assert Agrees(log, log.snapshots[i]); }
      }
    }
  }

  /** Every step of a history is harmless at the moment it is taken. */
  predicate HarmlessThroughout(actions: seq<(Action, nat)>) {
    actions != [] ==>
      HarmlessThroughout(actions[..|actions| - 1]) &&
          Harmless(After(EMPTY, actions[..|actions| - 1]), actions[|actions| - 1].0)
  }

  /**
   Over every history: all stored snapshots agree with the relation log exactly when every event
   recorded from outside was harmless at the moment it was recorded.
   */
  lemma {:induction false} TimeTravel(actions: seq<(Action, nat)>)
    ensures TimeTravels(After(EMPTY, actions)) <==> HarmlessThroughout(actions)
  {
    if actions != [] {
      var n := |actions| - 1;
      TimeTravel(actions[..n]);
      ReachableInv(actions[..n]);
      TimeTravelStep(After(EMPTY, actions[..n]), actions[n].0, actions[n].1);
    }
  }

  lemma RelateAddsItsEnds(log: Log, link: Link, delay: nat)
    requires Inv(log) && FindRelation(log.relations, link, None).None? && link.source.kind < STATE_KINDS
    ensures var r := Step(log, Relate(link, None, None, 0), delay);
            r.snapshots == log.snapshots && link.source in State(r.relations, None)
  {
    var r := Step(log, Relate(link, None, None, 0), delay);
    AttachShape(Append(log, Input(DependencyCreated, None, None, None, 0), delay), [link], None);
    StepKeepsInv(log, Relate(link, None, None, 0), delay);
    StateNow(r, r.now);
    assert r.relations[|log.relations|].link == link;
    assert r.relations[|log.relations|] in r.relations;
    ValuesAre(r.relations, link.source);
  }

  lemma {:induction false} UnknownIsUnrelated(relations: seq<Relation>, link: Link)
    requires link.source !in Values(relations)
    ensures FindRelation(relations, link, None).None?
  {
    if relations != [] {
      UnknownIsUnrelated(relations[..|relations| - 1], link);
    }
  }

  /** A snapshot of a commit holds nothing that was unknown when it was taken. */
  lemma SnapshotOmitsUnknown(log: Log, c: Commit, e: Entity)
    requires Inv(log) && Indexed(log.events, c) && e !in Values(log.relations)
    ensures var r := Step(log, Snap(Some(c), 0, 0), 0);
            && r.relations == log.relations && |r.snapshots| == |log.snapshots| + 1
            && var s := r.snapshots[|log.snapshots|]; s.commit == Some(c) && e !in s.state
  {
    TimeForCommitFound(log.events, log.now, c);
    StateNow(log, log.now);
    StateGrows(log.relations, TimeForCommit(log.events, c), None);
  }

  /** Creating again a commit whose snapshot lacks something that is known by now is not harmless. */
  lemma NotHarmless(log: Log, c: Commit, i: nat, e: Entity)
    requires Inv(log) && i < |log.snapshots| && log.snapshots[i].commit == Some(c)
    requires e in State(log.relations, None) && e !in log.snapshots[i].state
    ensures !TimeTravels(Step(log, Record(EventInput(CommitCreated, None, Some(c), None, None, None, 0)), 0))
  {
    var again := Record(EventInput(CommitCreated, None, Some(c), None, None, None, 0));
    assert Creates(log, again) == Some(c);
    assert !Harmless(log, again);
    TimeTravelStep(log, again, 0);
  }

  /**
   The guard is needed: for any indexed commit, a snapshot, then a relation of something new, then
   the commit recorded as created once more, leave a stored snapshot that the log contradicts.
   */
  lemma RecreatedCommitSpoilsItsSnapshot(log: Log, c: Commit, link: Link)
    requires Inv(log) && Indexed(log.events, c) && link.source !in Values(log.relations) &&
             link.source.kind < STATE_KINDS
    ensures var snapped := Step(log, Snap(Some(c), 0, 0), 0);
            var related := Step(snapped, Relate(link, None, None, 0), 0);
            !TimeTravels(Step(related, Record(EventInput(CommitCreated, None, Some(c), None, None, None, 0)), 0))
  {
    var snapped := Step(log, Snap(Some(c), 0, 0), 0);
    SnapshotOmitsUnknown(log, c, link.source);
    StepKeepsInv(log, Snap(Some(c), 0, 0), 0);
    UnknownIsUnrelated(log.relations, link);
    RelateAddsItsEnds(snapped, link, 0);
    StepKeepsInv(snapped, Relate(link, None, None, 0), 0);
    NotHarmless(Step(snapped, Relate(link, None, None, 0), 0), c, |log.snapshots|, link.source);
  }

  /** The smallest such history, from an empty log. */
  lemma RecreationExample()
    ensures var create := Record(EventInput(CommitCreated, None, Some(1), None, None, None, 0));
            var link := Link(Entity(FILE, 8), Entity(FILE, 9), DEPENDS_ON);
            var snapped := Step(Step(EMPTY, create, 0), Snap(Some(1), 0, 0), 0);
            !TimeTravels(Step(Step(snapped, Relate(link, None, None, 0), 0), create, 0))
  {
    var create := Record(EventInput(CommitCreated, None, Some(1), None, None, None, 0));
    var log := Step(EMPTY, create, 0);
    assert Inv(EMPTY);
    StepKeepsInv(EMPTY, create, 0);
    assert CreatesCommit(log.events[0], 1);
    RecreatedCommitSpoilsItsSnapshot(log, 1, Link(Entity(FILE, 8), Entity(FILE, 9), DEPENDS_ON));
  }

  // ----- idempotent ingestion

  ghost predicate IndexedOnce(events: seq<Event>) {
    forall i, j, c :: 0 <= i < j < |events| && CreatesCommit(events[i], c) ==> !CreatesCommit(events[j], c)
  }

  /** An event recorded from outside that creates a commit which is already indexed. */
  predicate Recreates(log: Log, a: Action) {
    a.Record? && Creates(log, a).Some? && Indexed(log.events, Creates(log, a).value)
  }

  lemma IndexedOnceStep(log: Log, a: Action, delay: nat)
    ensures IndexedOnce(Step(log, a, delay).events) <==> IndexedOnce(log.events) && !Recreates(log, a)
  {
    var r := Step(log, a, delay);
    StepShape(log, a, delay);
    forall i | 0 <= i < |log.events| && r != log ensures r.events[i] == log.events[i] {
      assert r.events[..|log.events|][i] == log.events[i];
    }
    if Recreates(log, a) {
      var i :| 0 <= i < |log.events| && CreatesCommit(log.events[i], Creates(log, a).value);
      assert CreatesCommit(r.events[|log.events|], Creates(log, a).value);
      assert CreatesCommit(r.events[i], Creates(log, a).value);
    }
  }

  predicate NeverRecreates(actions: seq<(Action, nat)>) {
    actions != [] ==>
      NeverRecreates(actions[..|actions| - 1]) &&
          !Recreates(After(EMPTY, actions[..|actions| - 1]), actions[|actions| - 1].0)
  }

  /** Over every history, a commit is indexed at most once exactly when nobody records its creation again. */
  lemma {:induction false} IngestionIsIdempotent(actions: seq<(Action, nat)>)
    ensures IndexedOnce(After(EMPTY, actions).events) <==> NeverRecreates(actions)
  {
    if actions != [] {
      var n := |actions| - 1;
      IngestionIsIdempotent(actions[..n]);
      IndexedOnceStep(After(EMPTY, actions[..n]), actions[n].0, actions[n].1);
    }
  }

  /** The smallest history that indexes a commit twice: its creation recorded two times. */
  lemma DoubleIndexExample()
    ensures var create := Record(EventInput(CommitCreated, None, Some(1), None, None, None, 0));
            !IndexedOnce(Step(Step(EMPTY, create, 0), create, 0).events)
  {
    var create := Record(EventInput(CommitCreated, None, Some(1), None, None, None, 0));
    var log := Step(EMPTY, create, 0);
    assert CreatesCommit(log.events[0], 1);
    assert Recreates(log, create);
    IndexedOnceStep(log, create, 0);
  }

  // ----- what a reader of the past sees

  lemma {:induction false} NewestSnapshotIsStored(snapshots: seq<Snapshot>, c: Commit)
    ensures var s := NewestSnapshot(snapshots, c); s.Some? ==> s.value in snapshots && s.value.commit == Some(c)
  {
    if snapshots != [] {
      NewestSnapshotIsStored(snapshots[..|snapshots| - 1], c);
    }
  }

  /** Stored or recomputed, the reported state of a commit is the relation log as of that commit. */
  lemma StateAtCommitIsReplay(log: Log, c: Commit)
    requires Inv(log) && TimeTravels(log)
    ensures StateAtCommit(log, c) == if Indexed(log.events, c)
            then Some(State(log.relations, TimeForCommit(log.events, c))) else None
  {
    TimeForCommitFound(log.events, log.now, c);
    NewestSnapshotIsStored(log.snapshots, c);
    var s := NewestSnapshot(log.snapshots, c);
    if s.Some? {
      var i :| 0 <= i < |log.snapshots| && log.snapshots[i] == s.value;
      assert Agrees(log, log.snapshots[i]);
      IndexedHasTime(log, s.value, c);
    }
  }

  lemma TimeIsFixed(log: Log, later: Log, c: Commit)
    requires Inv(log) && Inv(later) && Extends(log, later) && Indexed(log.events, c) && IndexedOnce(later.events)
    ensures TimeForCommit(later.events, c) == TimeForCommit(log.events, c)
    ensures exists t: Time :: TimeForCommit(log.events, c) == Some(t) && t <= log.now
  {
    TimeForCommitFound(log.events, log.now, c);
    TimeForCommitFound(later.events, later.now, c);
    var k: nat :| NewestCreation(log.events, c, k) &&
        TimeForCommit(log.events, c) == Some(log.events[k].body.createdAt);
    assert later.events[k] == log.events[k];
    assert Indexed(later.events, c);
    var m: nat :| NewestCreation(later.events, c, m) &&
        TimeForCommit(later.events, c) == Some(later.events[m].body.createdAt);
    assert k == m;
  }

  /** Only a creation of a commit that is already indexed can spoil a stored snapshot. */
  lemma NotRecreatingIsHarmless(log: Log, a: Action)
    requires Inv(log) && !Recreates(log, a)
    ensures Harmless(log, a)
  {
    forall i | 0 <= i < |log.snapshots| && log.snapshots[i].commit.Some?
      ensures Indexed(log.events, log.snapshots[i].commit.value)
    {
      IndexedHasTime(log, log.snapshots[i], log.snapshots[i].commit.value);
    }
  }

  /** A continuation after which every commit is still indexed once keeps all snapshots in agreement. */
  lemma {:induction false} TimeTravelsOn(log: Log, more: seq<(Action, nat)>)
    requires Inv(log) && TimeTravels(log) && IndexedOnce(After(log, more).events)
    ensures Inv(After(log, more)) && TimeTravels(After(log, more))
  {
    if more != [] {
      var n := |more| - 1;
      var mid := After(log, more[..n]);
      IndexedOnceStep(mid, more[n].0, more[n].1);
      TimeTravelsOn(log, more[..n]);
      NotRecreatingIsHarmless(mid, more[n].0);
      TimeTravelStep(mid, more[n].0, more[n].1);
      StepKeepsInv(mid, more[n].0, more[n].1);
    }
  }

  ghost function ImpactAt(log: Log, file: Entity, c: Commit): set<Entity> {
    var edges := Edges(Relations(log.relations, TimeForCommit(log.events, c)));
    Ball(NodesOf(edges, file), edges, {file}, IMPACT_DEPTH)
  }

  /** Nothing that happens later changes the state or the relations reported for an indexed commit. */
  lemma ThePastDoesNotChange(log: Log, more: seq<(Action, nat)>, c: Commit)
    requires Inv(log) && TimeTravels(log) && Indexed(log.events, c) && IndexedOnce(After(log, more).events)
    ensures var later := After(log, more);
            && StateAtCommit(later, c) == StateAtCommit(log, c)
            && Relations(later.relations, TimeForCommit(later.events, c)) ==
               Relations(log.relations, TimeForCommit(log.events, c))
  {
    var later := After(log, more);
    AfterExtends(log, more);
    TimeTravelsOn(log, more);
    TimeIsFixed(log, later, c);
    var t: Time :| TimeForCommit(log.events, c) == Some(t) && t <= log.now;
    PastIsFrozen(log, later, t);
    StateAtCommitIsReplay(log, c);
    StateAtCommitIsReplay(later, c);
    var i :| 0 <= i < |log.events| && CreatesCommit(log.events[i], c);
    assert later.events[i] == log.events[i];
  }

  lemma {:induction false} AfterSplits(log: Log, actions: seq<(Action, nat)>, more: seq<(Action, nat)>)
    ensures After(log, actions + more) == After(After(log, actions), more)
  {
    if more == [] {
      assert actions + more == actions;
    } else {
      var n := |more| - 1;
      assert (actions + more)[..|actions| + n] == actions + more[..n];
      AfterSplits(log, actions, more[..n]);
    }
  }

  lemma {:induction false} NeverRecreatesBefore(actions: seq<(Action, nat)>, more: seq<(Action, nat)>)
    requires NeverRecreates(actions + more)
    ensures NeverRecreates(actions)
  {
    if more == [] {
      assert actions + more == actions;
    } else {
      var n := |more| - 1;
      assert (actions + more)[..|actions| + n] == actions + more[..n];
      NeverRecreatesBefore(actions, more[..n]);
    }
  }

  /**
   What a caller can check: as long as nobody records the creation of an indexed commit, every
   stored snapshot agrees with the log and every state reported is a replay, in every reachable log.
   */
  lemma WithoutRecreationTimeTravels(actions: seq<(Action, nat)>, c: Commit)
    requires NeverRecreates(actions)
    ensures var log := After(EMPTY, actions);
            && TimeTravels(log) && IndexedOnce(log.events)
            && StateAtCommit(log, c) ==
               (if Indexed(log.events, c) then Some(State(log.relations, TimeForCommit(log.events, c))) else None)
  {
    IngestionIsIdempotent(actions);
    TimeTravelsOn(EMPTY, actions);
    StateAtCommitIsReplay(After(EMPTY, actions), c);
  }

  /** And then nothing that happens later changes what is reported about an indexed commit. */
  lemma WithoutRecreationThePastStays(actions: seq<(Action, nat)>, more: seq<(Action, nat)>, c: Commit)
    requires NeverRecreates(actions + more) && Indexed(After(EMPTY, actions).events, c)
    ensures var log, later := After(EMPTY, actions), After(EMPTY, actions + more);
            && StateAtCommit(later, c) == StateAtCommit(log, c)
            && Relations(later.relations, TimeForCommit(later.events, c)) ==
               Relations(log.relations, TimeForCommit(log.events, c))
  {
    NeverRecreatesBefore(actions, more);
    WithoutRecreationTimeTravels(actions, c);
    ReachableInv(actions);
    IngestionIsIdempotent(actions + more);
    AfterSplits(EMPTY, actions, more);
    ThePastDoesNotChange(After(EMPTY, actions), more, c);
  }

  /** The commit `c` was indexed no later than `d`. */
  predicate NoLaterThan(log: Log, c: Commit, d: Commit) {
    var t, u := TimeForCommit(log.events, c), TimeForCommit(log.events, d);
    t.Some? && u.Some? && t.value <= u.value
  }

  /** The impact of a file at an earlier commit is contained in its impact at a later one, in any log at all. */
  lemma EarlierImpactWithinLater(log: Log, c: Commit, d: Commit, file: Entity)
    requires NoLaterThan(log, c, d)
    ensures ImpactAt(log, file, c) <= ImpactAt(log, file, d)
  {
    var t, u := TimeForCommit(log.events, c), TimeForCommit(log.events, d);
    RelationsGrow(log.relations, t, u);
    EdgesGrow(Relations(log.relations, t), Relations(log.relations, u));
    ImpactGrows(Edges(Relations(log.relations, t)), Edges(Relations(log.relations, u)), file);
  }

  /** The state at an earlier commit is contained in the state at a later one. */
  lemma EarlierWithinLater(log: Log, c: Commit, d: Commit)
    requires Inv(log) && TimeTravels(log) && NoLaterThan(log, c, d)
    ensures StateAtCommit(log, c).Some? && StateAtCommit(log, d).Some?
    ensures StateAtCommit(log, c).value <= StateAtCommit(log, d).value
  {
    TimeForCommitFound(log.events, log.now, c);
    TimeForCommitFound(log.events, log.now, d);
    StateAtCommitIsReplay(log, c);
    StateAtCommitIsReplay(log, d);
    StateGrows(log.relations, TimeForCommit(log.events, c), TimeForCommit(log.events, d));
  }

  lemma EdgesGrow(a: seq<Relation>, b: seq<Relation>)
    requires forall r :: r in a ==> r in b
    ensures forall e :: e in Edges(a) ==> e in Edges(b)
  {
    forall e | e in Edges(a) ensures e in Edges(b) {
      var i :| 0 <= i < |a| && Edges(a)[i] == e;
      assert a[i] in b;
      var j :| 0 <= j < |b| && b[j] == a[i];
      assert Edges(b)[j] == e;
    }
  }

  // ----- the snapshot of a commit adds exactly its evidence

  ghost predicate Names(links: seq<Link>, e: Entity) {
    exists i :: 0 <= i < |links| && (links[i].source == e || links[i].target == e)
  }

  lemma ValuesGain(before: seq<Relation>, after: seq<Relation>, links: seq<Link>, e: Entity)
    requires before <= after && |after| == |before| + |links|
    requires forall i :: |before| <= i < |after| ==> after[i].link == links[i - |before|]
    ensures e in Values(after) <==> e in Values(before) || Names(links, e)
  {
  }

  lemma StateGain(before: Log, after: Log, links: seq<Link>, e: Entity)
    requires Inv(before) && Inv(after) && before.relations <= after.relations
    requires |after.relations| == |before.relations| + |links|
    requires forall i :: |before.relations| <= i < |after.relations| ==>
               after.relations[i].link == links[i - |before.relations|]
    ensures e in State(after.relations, None) <==>
            e in State(before.relations, None) || (Names(links, e) && e.kind < STATE_KINDS)
  {
    StateNow(before, before.now);
    StateNow(after, after.now);
    ValuesGain(before.relations, after.relations, links, e);
  }

  lemma AnnotateAdds(log: Log, input: EventInput, links: seq<Link>, delay: nat, e: Entity)
    requires Inv(log)
    ensures var r := Annotate(log, input, links, delay);
            && Inv(r) && State(r.relations, Some(r.now)) == State(r.relations, None)
            && (e in State(r.relations, None) <==>
                e in State(log.relations, None) || (Names(links, e) && e.kind < STATE_KINDS))
  {
    var r := Annotate(log, input, links, delay);
    AnnotateKeepsInv(log, input, links, delay);
    AttachShape(Append(log, input, delay), links, input.commit);
    StateNow(r, r.now);
    StateGain(log, r, links, e);
  }

  /** The file is one end of a dependency. */
  predicate DependsOn(dependencies: seq<(nat, nat)>, file: nat) {
    exists i :: 0 <= i < |dependencies| && (dependencies[i].0 == file || dependencies[i].1 == file)
  }

  /** What a commit's evidence names, and the commit itself if anything is related to it. */
  predicate IsEvidence(c: Commit, p: CommitEvidence, e: Entity) {
    || (e.kind == REQUIREMENT && e.id in p.requirements)
    || (e.kind == DECISION && e.id in p.decisions)
    || (e.kind == AGENT && p.agent == Some(e.id))
    || (e.kind == SKILL && e.id in p.skills)
    || (e.kind == FILE && e.id in p.files)
    || (e.kind == TEST && e.id in p.tests)
    || (e.kind == FILE && DependsOn(p.dependencies, e.id))
    || (e == Entity(COMMIT, c) &&
        p.(dependencies := [], trace := None, payload := 0) != CommitEvidence([], [], None, [], [], [], [], None, 0))
  }

  lemma NamesStar(c: Commit, facing: Facing, kind: nat, items: seq<nat>, name: nat, e: Entity)
    ensures Names(Star(c, facing, kind, items, name), e) <==>
            (e.kind == kind && e.id in items) || (items != [] && e == Entity(COMMIT, c))
  {
    var star := Star(c, facing, kind, items, name);
    if e.kind == kind && e.id in items {
      var i :| 0 <= i < |items| && items[i] == e.id;
      assert star[i].source == e || star[i].target == e;
    }
    if items != [] && e == Entity(COMMIT, c) {
      assert star[0].source == e || star[0].target == e;
    }
  }

  lemma NamesBoth(a: seq<Link>, b: seq<Link>, e: Entity)
    ensures Names(a + b, e) <==> Names(a, e) || Names(b, e)
  {
    var all := a + b;
    if Names(a, e) {
      var i :| 0 <= i < |a| && (a[i].source == e || a[i].target == e);
      assert all[i] == a[i];
    }
    if Names(b, e) {
      var i :| 0 <= i < |b| && (b[i].source == e || b[i].target == e);
      assert all[|a| + i] == b[i];
    }
  }

  lemma NamesDependencies(dependencies: seq<(nat, nat)>, e: Entity)
    ensures Names(DependencyLinks(dependencies), e) <==>
            e.kind == FILE && DependsOn(dependencies, e.id)
  {
    var links := DependencyLinks(dependencies);
    if e.kind == FILE && DependsOn(dependencies, e.id) {
      var i :| 0 <= i < |dependencies| && (dependencies[i].0 == e.id || dependencies[i].1 == e.id);
      assert links[i].source == e || links[i].target == e;
    }
  }

  lemma EvidenceIsLinked(c: Commit, p: CommitEvidence, e: Entity)
    ensures Names(CommitLinks(c, p), e) <==> IsEvidence(c, p, e)
  {
    var requirements := Star(c, ToCommit, REQUIREMENT, p.requirements, IMPLEMENTED_BY);
    var decisions := Star(c, FromCommit, DECISION, p.decisions, BASED_ON);
    var agents := Star(c, FromCommit, AGENT, Singleton(p.agent), CREATED_BY);
    var skills := Star(c, FromCommit, SKILL, p.skills, USED_SKILL);
    var files := Star(c, FromCommit, FILE, p.files, MODIFIES);
    var tests := Star(c, FromCommit, TEST, p.tests, VALIDATED_BY);
    var dependencies := DependencyLinks(p.dependencies);
    NamesStar(c, ToCommit, REQUIREMENT, p.requirements, IMPLEMENTED_BY, e);
    NamesStar(c, FromCommit, DECISION, p.decisions, BASED_ON, e);
    NamesStar(c, FromCommit, AGENT, Singleton(p.agent), CREATED_BY, e);
    NamesStar(c, FromCommit, SKILL, p.skills, USED_SKILL, e);
    NamesStar(c, FromCommit, FILE, p.files, MODIFIES, e);
    NamesStar(c, FromCommit, TEST, p.tests, VALIDATED_BY, e);
    NamesDependencies(p.dependencies, e);
    NamesBoth(tests, dependencies, e);
    NamesBoth(files, tests + dependencies, e);
    NamesBoth(skills, files + (tests + dependencies), e);
    NamesBoth(agents, skills + (files + (tests + dependencies)), e);
    NamesBoth(decisions, agents + (skills + (files + (tests + dependencies))), e);
    NamesBoth(requirements, decisions + (agents + (skills + (files + (tests + dependencies)))), e);
  }

  /** The state of a newly indexed commit is all that was known before, and its own evidence. */
  lemma IngestAddsItsEvidence(log: Log, c: Commit, p: CommitEvidence, delay: nat, e: Entity)
    requires Inv(log) && !Indexed(log.events, c)
    ensures var r := IngestEvidence(log, c, p, delay);
            e in State(r.relations, TimeForCommit(r.events, c)) <==>
                e in State(log.relations, None) || IsEvidence(c, p, e)
  {
    StepTime(log, Ingest(c, p), delay, c);
    var r := IngestEvidence(log, c, p, delay);
    assert TimeForCommit(r.events, c) == Some(r.now);
    AnnotateAdds(log, CommitInput(c, p), CommitLinks(c, p), delay, e);
    EvidenceIsLinked(c, p, e);
  }

  /** A snapshot without a commit stores everything known. */
  lemma SnapshotOfNow(log: Log, kind: Text)
    ensures var r := Step(log, Snap(None, kind, 0), 0);
            && |r.snapshots| == |log.snapshots| + 1
            && r.snapshots[|log.snapshots|].state == State(log.relations, None)
  {
  }

  /** A snapshot of an indexed commit stores the state as of it. */
  lemma SnapshotOfCommit(log: Log, c: Commit, kind: Text)
    requires TimeForCommit(log.events, c).Some?
    ensures var r := Step(log, Snap(Some(c), kind, 0), 0);
            && |r.snapshots| == |log.snapshots| + 1
            && r.snapshots[|log.snapshots|].state == State(log.relations, TimeForCommit(log.events, c))
  {
  }

  /** A delivery noted without a commit: the snapshot taken next holds the delivery's own entities. */
  lemma DeliverySnapshotNow(log: Log, name: Text, agent: Option<Text>, links: seq<Link>, kind: Text, e: Entity)
    requires Inv(log)
    ensures var noted := Step(log, Note(name, agent, None, 0, links), 0);
            var snapped := Step(noted, Snap(None, kind, 0), 0);
            && |snapped.snapshots| == |noted.snapshots| + 1
            && (e in snapped.snapshots[|noted.snapshots|].state <==>
                e in State(log.relations, None) || (Names(links, e) && e.kind < STATE_KINDS))
  {
    AnnotateAdds(log, Input(Named(name), agent, None, None, 0), links, 0, e);
    SnapshotOfNow(Step(log, Note(name, agent, None, 0, links), 0), kind);
  }

  /**
   A delivery noted with an indexed commit: the snapshot taken next is the state as of the commit,
   without the delivery.
   */
  lemma DeliverySnapshotAtCommit(log: Log, name: Text, agent: Option<Text>, c: Commit, links: seq<Link>, kind: Text)
    requires Inv(log) && Indexed(log.events, c)
    ensures var noted := Step(log, Note(name, agent, Some(c), 0, links), 0);
            var snapped := Step(noted, Snap(Some(c), kind, 0), 0);
            && |snapped.snapshots| == |noted.snapshots| + 1
            && snapped.snapshots[|noted.snapshots|].state == State(log.relations, TimeForCommit(log.events, c))
  {
    var note := Note(name, agent, Some(c), 0, links);
    TimeForCommitFound(log.events, log.now, c);
    StepTime(log, note, 0, c);
    StepExtends(log, note, 0);
    PastIsFrozen(log, Step(log, note, 0), TimeForCommit(log.events, c).value);
    SnapshotOfCommit(Step(log, note, 0), c, kind);
  }

  // ----- the event chain

  /** Every reachable log is a chain in which each event names the hash of the one just before it. */
  lemma EventsFormAChain(actions: seq<(Action, nat)>)
    ensures ChainOk(After(EMPTY, actions).events)
  {
    ReachableInv(actions);
  }

  /** Two chains that end in the same hash are the same history: every hashed field of every event agrees. */
  lemma {:induction false} SameHeadSameHistory(a: seq<Event>, b: seq<Event>)
    requires ChainOk(a) && ChainOk(b) && HashBefore(a, |a|) == HashBefore(b, |b|)
    ensures a == b
  {
    if a != [] && b != [] {
      var m, n := |a| - 1, |b| - 1;
      assert LinkedTo(a[m], HashBefore(a, m)) && LinkedTo(b[n], HashBefore(b, n));
      assert a[m] == b[n];
      ChainFront(a);
      ChainFront(b);
      SameHeadSameHistory(a[..m], b[..n]);
      assert a == a[..m] + [a[m]] && b == b[..n] + [b[n]];
    }
  }

  lemma ChainFront(a: seq<Event>)
    requires ChainOk(a) && a != []
    ensures ChainOk(a[..|a| - 1]) && HashBefore(a[..|a| - 1], |a| - 1) == HashBefore(a, |a| - 1)
  {
    var front := a[..|a| - 1];
    forall i | 0 <= i < |front| ensures LinkedTo(front[i], HashBefore(front, i)) {
      assert LinkedTo(a[i], HashBefore(a, i));
    }
  }
}
