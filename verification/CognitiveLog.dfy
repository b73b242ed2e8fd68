/**
 The cognitive history of one project: an append-only log of events, of relations that each became
 valid with an event, and of stored snapshots. Hashing is a free constructor, so it is injective.
 */
module CognitiveLog {
  import opened Common
  import opened ImpactAnalysis
  import opened GraphBall

  type Time = nat
  type Commit = nat
  /** Text that is stored and compared but never looked into. */
  type Text = nat

  // The kinds of entity that appear in a state; further kinds have larger numbers.
  const REQUIREMENT: nat := 0
  const DECISION: nat := 1
  const AGENT: nat := 2
  const SKILL: nat := 3
  const FILE: nat := 4
  const TEST: nat := 5
  const COMMIT: nat := 6
  const SERVICE: nat := 7
  const STATE_KINDS: nat := 8

  // Labels of the relations that an ingested commit creates.
  const IMPLEMENTED_BY: nat := 0
  const BASED_ON: nat := 1
  const CREATED_BY: nat := 2
  const USED_SKILL: nat := 3
  const MODIFIES: nat := 4
  const VALIDATED_BY: nat := 5
  const DEPENDS_ON: nat := 6

  datatype EventKind = CommitCreated | DependencyCreated | SnapshotCreated | Named(name: Text)

  datatype EventInput = EventInput(kind: EventKind, agent: Option<Text>, commit: Option<Commit>, snapshot: Option<nat>,
                                   trace: Option<Text>, parent: Option<nat>, payload: Text)

  /** The hashed fields of an event. */
  datatype Body = Body(input: EventInput, previous: Option<Hash>, createdAt: Time)
  datatype Hash = Sha256(body: Body)

  datatype Event = Event(body: Body, hash: Hash)

  datatype Link = Link(source: Entity, target: Entity, name: nat)

  datatype Relation = Relation(link: Link, commit: Option<Commit>, event: nat, validFrom: Time)

  /** The sorted lists of a state are represented by the entities they list. */
  datatype Snapshot = Snapshot(commit: Option<Commit>, kind: Text, state: set<Entity>, createdAt: Time)

  /** Rows are numbered in the order of insertion; `now` is the latest clock reading. */
  datatype Log = Log(events: seq<Event>, relations: seq<Relation>, snapshots: seq<Snapshot>, now: Time)

  const EMPTY: Log := Log([], [], [], 0)

  // ----- queries

  /** The newest event by creation time. */
  function Newest(events: seq<Event>): Option<Event> {
    if events == [] then None
    else
      var last, rest := events[|events| - 1], Newest(events[..|events| - 1]);
      if rest.Some? && rest.value.body.createdAt > last.body.createdAt then rest else Some(last)
  }

  predicate CreatesCommit(e: Event, c: Commit) {
    e.body.input.kind.CommitCreated? && e.body.input.commit == Some(c)
  }

  predicate Indexed(events: seq<Event>, c: Commit) {
    exists i :: 0 <= i < |events| && CreatesCommit(events[i], c)
  }

  /** The creation time of the newest event that indexes the commit. */
  function TimeForCommit(events: seq<Event>, c: Commit): Option<Time> {
    if events == [] then None
    else
      var last, rest := events[|events| - 1], TimeForCommit(events[..|events| - 1], c);
      if !CreatesCommit(last, c) || (rest.Some? && rest.value > last.body.createdAt) then rest
      else Some(last.body.createdAt)
  }

  predicate ValidAt(r: Relation, asOf: Option<Time>) {
    asOf.None? || r.validFrom <= asOf.value
  }

  function Relations(relations: seq<Relation>, asOf: Option<Time>): seq<Relation> {
    if relations == [] then []
    else
      var last, rest := relations[|relations| - 1], Relations(relations[..|relations| - 1], asOf);
      if ValidAt(last, asOf) then rest + [last] else rest
  }

  function Values(relations: seq<Relation>): set<Entity> {
    if relations == [] then {}
    else
      var last := relations[|relations| - 1];
      Values(relations[..|relations| - 1]) + {last.link.source, last.link.target}
  }

  function StateKindsOf(values: set<Entity>): set<Entity> {
    set e | e in values && e.kind < STATE_KINDS
  }

  function State(relations: seq<Relation>, asOf: Option<Time>): set<Entity> {
    StateKindsOf(Values(Relations(relations, asOf)))
  }

  function FindRelation(relations: seq<Relation>, link: Link, commit: Option<Commit>): Option<Relation> {
    if relations == [] then None
    else
      var last := relations[|relations| - 1];
      if last.link == link && last.commit == commit then Some(last)
      else FindRelation(relations[..|relations| - 1], link, commit)
  }

  function NewestSnapshot(snapshots: seq<Snapshot>, c: Commit): Option<Snapshot> {
    if snapshots == [] then None
    else
      var last, rest := snapshots[|snapshots| - 1], NewestSnapshot(snapshots[..|snapshots| - 1], c);
      if last.commit != Some(c) || (rest.Some? && rest.value.createdAt > last.createdAt) then rest else Some(last)
  }

  /** The state reported for a commit: the stored one if there is one; nothing for an unknown commit. */
  function StateAtCommit(log: Log, c: Commit): Option<set<Entity>> {
    var stored := NewestSnapshot(log.snapshots, c);
    if stored.Some? then Some(stored.value.state)
    else if TimeForCommit(log.events, c).None? then None
    else Some(State(log.relations, TimeForCommit(log.events, c)))
  }

  function Edges(relations: seq<Relation>): seq<Edge<Entity>> {
    seq(|relations|, i requires 0 <= i < |relations| => EdgeOf(relations[i].link.source, relations[i].link.target))
  }

  // ----- operations; each reads a clock that never shows the same time twice

  function Append(log: Log, input: EventInput, delay: nat): Log {
    var previous := Newest(log.events);
    var now := log.now + 1 + delay;
    var body := Body(input, if previous.Some? then Some(previous.value.hash) else None, now);
    log.(events := log.events + [Event(body, Sha256(body))], now := now)
  }

  predicate ParentExists(log: Log, input: EventInput) {
    input.parent.None? || input.parent.value < |log.events|
  }

  function RecordEvent(log: Log, input: EventInput, delay: nat): Log {
    if ParentExists(log, input) then Append(log, input, delay) else log
  }

  function Input(kind: EventKind, agent: Option<Text>, commit: Option<Commit>, snapshot: Option<nat>,
                 payload: Text): EventInput {
    EventInput(kind, agent, commit, snapshot, None, None, payload)
  }

  /** Attaches relations to the event recorded last. */
  function Attach(log: Log, links: seq<Link>, commit: Option<Commit>): Log
    requires log.events != []
  {
    if links == [] then log
    else
      var rest := Attach(log, links[..|links| - 1], commit);
      rest.(relations := rest.relations + [Relation(links[|links| - 1], commit, |log.events| - 1, log.now)])
  }

  /** One transaction: an event and the relations it makes valid. */
  function Annotate(log: Log, input: EventInput, links: seq<Link>, delay: nat): Log {
    Attach(Append(log, input, delay), links, input.commit)
  }

  function AddRelation(log: Log, link: Link, commit: Option<Commit>, actor: Option<Text>, payload: Text,
                       delay: nat): Log {
    if FindRelation(log.relations, link, commit).Some? then log
    else Annotate(log, Input(DependencyCreated, actor, commit, None, payload), [link], delay)
  }

  datatype CommitEvidence = CommitEvidence(requirements: seq<nat>, decisions: seq<nat>, agent: Option<nat>,
                                           skills: seq<nat>, files: seq<nat>, tests: seq<nat>,
                                           dependencies: seq<(nat, nat)>, trace: Option<Text>, payload: Text)

  function CommitInput(c: Commit, p: CommitEvidence): EventInput {
    EventInput(CommitCreated, p.agent, Some(c), None, p.trace, None, p.payload)
  }

  datatype Facing = FromCommit | ToCommit

  /** One relation between the commit and each item. */
  function Star(c: Commit, facing: Facing, kind: nat, items: seq<nat>, name: nat): seq<Link> {
    seq(|items|, i requires 0 <= i < |items| =>
      if facing.ToCommit? then Link(Entity(kind, items[i]), Entity(COMMIT, c), name)
      else Link(Entity(COMMIT, c), Entity(kind, items[i]), name))
  }

  function DependencyLinks(dependencies: seq<(nat, nat)>): seq<Link> {
    seq(|dependencies|, i requires 0 <= i < |dependencies| =>
      Link(Entity(FILE, dependencies[i].0), Entity(FILE, dependencies[i].1), DEPENDS_ON))
  }

  function Singleton(item: Option<nat>): seq<nat> {
    if item.None? then [] else [item.value]
  }

  function CommitLinks(c: Commit, p: CommitEvidence): seq<Link> {
    Star(c, ToCommit, REQUIREMENT, p.requirements, IMPLEMENTED_BY) +
    (Star(c, FromCommit, DECISION, p.decisions, BASED_ON) +
    (Star(c, FromCommit, AGENT, Singleton(p.agent), CREATED_BY) +
    (Star(c, FromCommit, SKILL, p.skills, USED_SKILL) +
    (Star(c, FromCommit, FILE, p.files, MODIFIES) +
    (Star(c, FromCommit, TEST, p.tests, VALIDATED_BY) +
    DependencyLinks(p.dependencies))))))
  }

  /** The evidence transaction of an ingestion; it does nothing for a commit that is already indexed. */
  function IngestEvidence(log: Log, c: Commit, p: CommitEvidence, delay: nat): Log {
    if Indexed(log.events, c) then log
    else Annotate(log, CommitInput(c, p), CommitLinks(c, p), delay)
  }

  /** A snapshot as of a commit, or of everything; a commit that is not indexed is an error. */
  function CreateSnapshot(log: Log, commit: Option<Commit>, kind: Text, payload: Text, delay: nat): Log {
    var asOf := if commit.Some? then TimeForCommit(log.events, commit.value) else None;
    if commit.Some? && asOf.None? then log
    else StoreSnapshot(log, Snapshot(commit, kind, State(log.relations, asOf), log.now + 1 + delay), payload)
  }

  function StoreSnapshot(log: Log, s: Snapshot, payload: Text): Log {
    Append(log.(snapshots := log.snapshots + [s], now := s.createdAt),
           Input(SnapshotCreated, None, s.commit, Some(|log.snapshots|), payload), 0)
  }

  /**
   The transactions of the service. An annotation is an event of another kind with its relations,
   as a handoff or a completed delivery records; an ingestion is an evidence transaction and then
   a snapshot, which other transactions can separate.
   */
  datatype Action =
    | Record(input: EventInput)
    | Relate(link: Link, commit: Option<Commit>, actor: Option<Text>, payload: Text)
    | Note(name: Text, agent: Option<Text>, commit: Option<Commit>, payload: Text, links: seq<Link>)
    | Ingest(commitHash: Commit, evidence: CommitEvidence)
    | Snap(commit: Option<Commit>, kind: Text, payload: Text)

  function Step(log: Log, a: Action, delay: nat): Log {
    match a
    case Record(input) => RecordEvent(log, input, delay)
    case Relate(link, commit, actor, payload) => AddRelation(log, link, commit, actor, payload, delay)
    case Note(name, agent, commit, payload, links) =>
      Annotate(log, Input(Named(name), agent, commit, None, payload), links, delay)
    case Ingest(c, p) => IngestEvidence(log, c, p, delay)
    case Snap(commit, kind, payload) => CreateSnapshot(log, commit, kind, payload, delay)
  }

  function After(log: Log, actions: seq<(Action, nat)>): Log {
    if actions == [] then log
    else
      var (a, delay) := actions[|actions| - 1];
      Step(After(log, actions[..|actions| - 1]), a, delay)
  }

  // ----- the log only grows, and only into the future

  ghost predicate Extends(log: Log, later: Log) {
    && log.now <= later.now
    && log.events <= later.events && log.relations <= later.relations && log.snapshots <= later.snapshots
    && (forall i :: |log.events| <= i < |later.events| ==> later.events[i].body.createdAt > log.now)
    && (forall i :: |log.relations| <= i < |later.relations| ==> later.relations[i].validFrom > log.now)
  }

  lemma ExtendsTransitive(a: Log, b: Log, c: Log)
    requires Extends(a, b) && Extends(b, c)
    ensures Extends(a, c)
  {
  }

  lemma {:induction false} AttachShape(log: Log, links: seq<Link>, commit: Option<Commit>)
    requires log.events != []
    ensures var r := Attach(log, links, commit);
            && r.events == log.events && r.snapshots == log.snapshots && r.now == log.now
            && log.relations <= r.relations && |r.relations| == |log.relations| + |links|
            && forall i :: |log.relations| <= i < |r.relations| ==>
                 r.relations[i] == Relation(links[i - |log.relations|], commit, |log.events| - 1, log.now)
  {
    if links != [] {
      AttachShape(log, links[..|links| - 1], commit);
    }
  }

  lemma AnnotateExtends(log: Log, input: EventInput, links: seq<Link>, delay: nat)
    ensures Extends(log, Annotate(log, input, links, delay))
  {
    AttachShape(Append(log, input, delay), links, input.commit);
  }

  lemma StepExtends(log: Log, a: Action, delay: nat)
    ensures Extends(log, Step(log, a, delay))
  {
    match a
    case Record(input) => AnnotateExtends(log, input, [], delay);
    case Relate(link, commit, actor, payload) =>
      AnnotateExtends(log, Input(DependencyCreated, actor, commit, None, payload), [link], delay);
    case Note(name, agent, commit, payload, links) =>
      AnnotateExtends(log, Input(Named(name), agent, commit, None, payload), links, delay);
    case Ingest(c, p) => AnnotateExtends(log, CommitInput(c, p), CommitLinks(c, p), delay);
    case Snap(commit, kind, payload) =>
  }

  lemma {:induction false} AfterExtends(log: Log, actions: seq<(Action, nat)>)
    ensures Extends(log, After(log, actions))
  {
    if actions != [] {
      var n := |actions| - 1;
      AfterExtends(log, actions[..n]);
      StepExtends(After(log, actions[..n]), actions[n].0, actions[n].1);
      ExtendsTransitive(log, After(log, actions[..n]), After(log, actions));
    }
  }

  lemma {:induction false} LaterRelationsInvisible(relations: seq<Relation>, more: seq<Relation>, t: Time)
    requires forall i :: 0 <= i < |more| ==> more[i].validFrom > t
    ensures Relations(relations + more, Some(t)) == Relations(relations, Some(t))
  {
    if more == [] {
      assert relations + more == relations;
    } else {
      assert (relations + more)[..|relations + more| - 1] == relations + more[..|more| - 1];
      LaterRelationsInvisible(relations, more[..|more| - 1], t);
    }
  }

  /** What a query sees as of a past time never changes again. */
  lemma PastIsFrozen(log: Log, later: Log, t: Time)
    requires Extends(log, later) && t <= log.now
    ensures Relations(later.relations, Some(t)) == Relations(log.relations, Some(t))
    ensures State(later.relations, Some(t)) == State(log.relations, Some(t))
  {
    var more := later.relations[|log.relations|..];
    assert later.relations == log.relations + more;
    LaterRelationsInvisible(log.relations, more, t);
  }

  // ----- the invariant: times increase, relations follow their events, hashes form a chain

  ghost predicate ChainOk(events: seq<Event>) {
    forall i {:trigger HashBefore(events, i)} :: 0 <= i < |events| ==> LinkedTo(events[i], HashBefore(events, i))
  }

  function HashBefore(events: seq<Event>, i: nat): Option<Hash>
    requires i <= |events|
  {
    if i == 0 then None else Some(events[i - 1].hash)
  }

  predicate LinkedTo(e: Event, previous: Option<Hash>) {
    e.hash == Sha256(e.body) && e.body.previous == previous
  }

  ghost predicate TimesOk(events: seq<Event>, now: Time) {
    && (forall i :: 0 <= i < |events| ==> events[i].body.createdAt <= now)
    && (forall i, j :: 0 <= i < j < |events| ==> events[i].body.createdAt < events[j].body.createdAt)
  }

  ghost predicate RelationsOk(log: Log) {
    forall i :: 0 <= i < |log.relations| ==> RelationOk(log.events, log.relations[i])
  }

  /** A relation is valid from the moment of the event that created it. */
  predicate RelationOk(events: seq<Event>, r: Relation) {
    r.event < |events| && r.validFrom == events[r.event].body.createdAt
  }

  /** A snapshot of a commit is the state as of some event that indexed the commit. */
  ghost predicate SnapshotOk(log: Log, s: Snapshot) {
    s.commit.Some? ==> exists k: nat :: AsOfEvent(log, s, s.commit.value, k)
  }

  predicate AsOfEvent(log: Log, s: Snapshot, c: Commit, k: nat) {
    k < |log.events| && CreatesCommit(log.events[k], c) &&
        s.state == State(log.relations, Some(log.events[k].body.createdAt))
  }

  ghost predicate SnapshotsOk(log: Log) {
    forall i :: 0 <= i < |log.snapshots| ==> SnapshotOk(log, log.snapshots[i]) && log.snapshots[i].createdAt <= log.now
  }

  ghost predicate Inv(log: Log) {
    ChainOk(log.events) && TimesOk(log.events, log.now) && RelationsOk(log) && SnapshotsOk(log)
  }

  lemma {:induction false} NewestIsLast(events: seq<Event>, now: Time)
    requires TimesOk(events, now)
    ensures Newest(events) == if events == [] then None else Some(events[|events| - 1])
  {
    if events != [] {
      NewestIsLast(events[..|events| - 1], now);
    }
  }

  ghost predicate NewestCreation(events: seq<Event>, c: Commit, k: nat) {
    k < |events| && CreatesCommit(events[k], c) && forall j :: k < j < |events| ==> !CreatesCommit(events[j], c)
  }

  lemma {:induction false} TimeForCommitFound(events: seq<Event>, now: Time, c: Commit)
    requires TimesOk(events, now)
    ensures var t := TimeForCommit(events, c);
            if t.None? then !Indexed(events, c)
            else exists k: nat :: NewestCreation(events, c, k) && t == Some(events[k].body.createdAt)
  {
    if events != [] {
      var front := events[..|events| - 1];
      TimeForCommitFound(front, now, c);
      var rest := TimeForCommit(front, c);
      if rest.Some? {
        var k: nat :| NewestCreation(front, c, k) && rest == Some(front[k].body.createdAt);
        assert events[k] == front[k];
        if CreatesCommit(events[|front|], c) {
          assert NewestCreation(events, c, |front|);
        } else {
          assert NewestCreation(events, c, k);
        }
      } else {
        forall i | 0 <= i < |front| ensures !CreatesCommit(events[i], c) {
          assert events[i] == front[i];
        }
        assert CreatesCommit(events[|front|], c) ==> NewestCreation(events, c, |front|);
      }
    }
  }

  lemma AppendKeepsEvents(log: Log, input: EventInput, delay: nat)
    requires ChainOk(log.events) && TimesOk(log.events, log.now)
    ensures var r := Append(log, input, delay); ChainOk(r.events) && TimesOk(r.events, r.now)
  {
    NewestIsLast(log.events, log.now);
    var r := Append(log, input, delay);
    forall i | 0 <= i < |r.events| ensures LinkedTo(r.events[i], HashBefore(r.events, i)) {
      if i < |log.events| {
        assert LinkedTo(log.events[i], HashBefore(log.events, i));
      }
    }
  }

  /** Old snapshots stay right, because the past they describe is frozen. */
  lemma SnapshotsSurvive(log: Log, later: Log)
    requires Inv(log) && Extends(log, later)
    ensures forall i :: 0 <= i < |log.snapshots| ==>
            SnapshotOk(later, later.snapshots[i]) && later.snapshots[i].createdAt <= later.now
  {
    forall i | 0 <= i < |log.snapshots|
      ensures SnapshotOk(later, later.snapshots[i]) && later.snapshots[i].createdAt <= later.now
    {
      var s := log.snapshots[i];
      assert SnapshotOk(log, s) && s == later.snapshots[i];
      if s.commit.Some? {
        var k: nat :| AsOfEvent(log, s, s.commit.value, k);
        assert later.events[k] == log.events[k];
        PastIsFrozen(log, later, log.events[k].body.createdAt);
        assert AsOfEvent(later, s, s.commit.value, k);
      }
    }
  }

  lemma AnnotateKeepsInv(log: Log, input: EventInput, links: seq<Link>, delay: nat)
    requires Inv(log)
    ensures Inv(Annotate(log, input, links, delay))
  {
    var mid := Append(log, input, delay);
    var r := Annotate(log, input, links, delay);
    AppendKeepsEvents(log, input, delay);
    AttachShape(mid, links, input.commit);
    assert Extends(log, r);
    forall i | 0 <= i < |r.relations| ensures RelationOk(r.events, r.relations[i]) {
      if i < |log.relations| { assert r.relations[i] == log.relations[i]; }
    }
    SnapshotsSurvive(log, r);
  }

  lemma NewSnapshotOk(log: Log, later: Log, c: Commit, s: Snapshot)
    requires Inv(log) && log.events <= later.events && later.relations == log.relations && s.commit == Some(c)
    requires TimeForCommit(log.events, c).Some? && s.state == State(log.relations, TimeForCommit(log.events, c))
    ensures SnapshotOk(later, s)
  {
    TimeForCommitFound(log.events, log.now, c);
    var k: nat :| NewestCreation(log.events, c, k) &&
        TimeForCommit(log.events, c) == Some(log.events[k].body.createdAt);
    assert later.events[k] == log.events[k];
    assert AsOfEvent(later, s, c, k);
  }

  lemma StoreKeepsInv(log: Log, s: Snapshot, payload: Text)
    requires Inv(log) && s.createdAt > log.now && SnapshotOk(StoreSnapshot(log, s, payload), s)
    ensures Inv(StoreSnapshot(log, s, payload))
  {
    var r := StoreSnapshot(log, s, payload);
    AppendKeepsEvents(log.(snapshots := log.snapshots + [s], now := s.createdAt),
                      Input(SnapshotCreated, None, s.commit, Some(|log.snapshots|), payload), 0);
    forall i | 0 <= i < |r.relations| ensures RelationOk(r.events, r.relations[i]) {
      assert RelationOk(log.events, log.relations[i]);
    }
    SnapshotsSurvive(log, r);
  }

  lemma StoreShape(log: Log, s: Snapshot, payload: Text)
    ensures var r := StoreSnapshot(log, s, payload); log.events <= r.events && r.relations == log.relations
  {
  }

  lemma StoreCommitKeepsInv(log: Log, c: Commit, s: Snapshot, payload: Text)
    requires Inv(log) && s.createdAt > log.now && s.commit == Some(c)
    requires TimeForCommit(log.events, c).Some? && s.state == State(log.relations, TimeForCommit(log.events, c))
    ensures Inv(StoreSnapshot(log, s, payload))
  {
    StoreShape(log, s, payload);
    NewSnapshotOk(log, StoreSnapshot(log, s, payload), c, s);
    StoreKeepsInv(log, s, payload);
  }

  lemma SnapshotKeepsInv(log: Log, commit: Option<Commit>, kind: Text, payload: Text, delay: nat)
    requires Inv(log)
    ensures Inv(CreateSnapshot(log, commit, kind, payload, delay))
  {
    var asOf := if commit.Some? then TimeForCommit(log.events, commit.value) else None;
    var s := Snapshot(commit, kind, State(log.relations, asOf), log.now + 1 + delay);
    if commit.None? {
      StoreKeepsInv(log, s, payload);
    } else if asOf.Some? {
      StoreCommitKeepsInv(log, commit.value, s, payload);
    }
  }

  lemma StepKeepsInv(log: Log, a: Action, delay: nat)
    requires Inv(log)
    ensures Inv(Step(log, a, delay))
  {
    match a
    case Record(input) => AnnotateKeepsInv(log, input, [], delay);
    case Relate(link, commit, actor, payload) =>
      AnnotateKeepsInv(log, Input(DependencyCreated, actor, commit, None, payload), [link], delay);
    case Note(name, agent, commit, payload, links) =>
      AnnotateKeepsInv(log, Input(Named(name), agent, commit, None, payload), links, delay);
    case Ingest(c, p) =>
      AnnotateKeepsInv(log, CommitInput(c, p), CommitLinks(c, p), delay);
    case Snap(commit, kind, payload) => SnapshotKeepsInv(log, commit, kind, payload, delay);
  }

  lemma {:induction false} ReachableInv(actions: seq<(Action, nat)>)
    ensures Inv(After(EMPTY, actions))
  {
    if actions != [] {
      var n := |actions| - 1;
      ReachableInv(actions[..n]);
      StepKeepsInv(After(EMPTY, actions[..n]), actions[n].0, actions[n].1);
    }
  }
}
