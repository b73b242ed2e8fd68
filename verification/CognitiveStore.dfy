/** The service over the log of one project: every method is one or two transactions on its rows. */
module CognitiveStore {
  import opened Common
  import opened CognitiveLog
  import opened ImpactAnalysis

  class Store {
    var events: seq<Event>
    var relations: seq<Relation>
    var snapshots: seq<Snapshot>
    var now: Time

    constructor ()
      ensures Contents() == EMPTY
    {
      events, relations, snapshots, now := [], [], [], 0;
    }

    function Contents(): Log
      reads this
    {
      Log(events, relations, snapshots, now)
    }

    /** Adds an event that links to the newest one. */
    method AppendEvent(input: EventInput, delay: nat) returns (event: Event)
      modifies this
      ensures Contents() == Append(old(Contents()), input, delay)
      ensures events == old(events) + [event]
    {
      var previous := Newest(events);
      var createdAt := now + 1 + delay;
      var body := Body(input, if previous.Some? then Some(previous.value.hash) else None, createdAt);
      event := Event(body, Sha256(body));
      events := events + [event];
      now := createdAt;
    }

    method RecordEvent(input: EventInput, delay: nat) returns (event: Option<Event>)
      modifies this
      ensures Contents() == CognitiveLog.RecordEvent(old(Contents()), input, delay)
      ensures event.None? <==> !ParentExists(old(Contents()), input)
      ensures event.Some? ==> events == old(events) + [event.value]
    {
      if input.parent.Some? && input.parent.value >= |events| {
        return None;
      }
      var recorded := AppendEvent(input, delay);
      event := Some(recorded);
    }

    /** Returns the relation that already says the same, or records a new one. */
    method AddRelation(link: Link, commit: Option<Commit>, actor: Option<Text>, payload: Text,
                       delay: nat)
      returns (row: Relation)
      modifies this
      ensures Contents() == CognitiveLog.AddRelation(old(Contents()), link, commit, actor, payload, delay)
      ensures row in relations && row.link == link && row.commit == commit
    {
      FoundIsStored(relations, link, commit);
      var existing := FindRelation(relations, link, commit);
      if existing.Some? {
        return existing.value;
      }
      var event := AppendEvent(Input(DependencyCreated, actor, commit, None, payload), delay);
      ghost var recorded := Contents();
      row := Relation(link, commit, |events| - 1, now);
      relations := relations + [row];
      assert [link][..0] == [] && Attach(recorded, [], commit) == recorded;
    }

    /** Adds the relations of an event one by one. */
    method AttachAll(links: seq<Link>, commit: Option<Commit>)
      requires events != []
      modifies this`relations
      ensures Contents() == Attach(old(Contents()), links, commit)
    {
      ghost var start := Contents();
      for n := 0 to |links|
        invariant events == start.events && now == start.now && snapshots == start.snapshots
        invariant Contents() == Attach(start, links[..n], commit)
      {
        assert links[..n + 1][..n] == links[..n];
        relations := relations + [Relation(links[n], commit, |events| - 1, now)];
      }
      assert links[..|links|] == links;
    }

    /** Stores the state as of a commit, or of everything; reports nothing for a commit that is not indexed. */
    method CreateSnapshot(commit: Option<Commit>, kind: Text, payload: Text, delay: nat) returns (s: Option<Snapshot>)
      modifies this
      ensures Contents() == CognitiveLog.CreateSnapshot(old(Contents()), commit, kind, payload, delay)
      ensures s.None? ==> Contents() == old(Contents())
      ensures s.Some? ==> snapshots == old(snapshots) + [s.value]
    {
      var asOf := if commit.Some? then TimeForCommit(events, commit.value) else None;
      if commit.Some? && asOf.None? {
        return None;
      }
      var values := ValuesOf(Relations(relations, asOf));
      var stored := Snapshot(commit, kind, StateKindsOf(values), now + 1 + delay);
      snapshots := snapshots + [stored];
      now := now + 1 + delay;
      var event := AppendEvent(Input(SnapshotCreated, None, commit, Some(|snapshots| - 1), payload), 0);
      s := Some(stored);
    }

    /** Indexes a commit and takes its snapshot; a commit that is indexed already changes nothing. */
    method IngestCommit(c: Commit, p: CommitEvidence, kind: Text, payload: Text, delay: nat, pause: nat)
      returns (idempotent: bool, s: Option<Snapshot>)
      modifies this
      ensures idempotent <==> Indexed(old(events), c)
      ensures idempotent ==> Contents() == old(Contents()) && s == NewestSnapshot(snapshots, c)
      ensures !idempotent ==>
                Contents() == CognitiveLog.CreateSnapshot(IngestEvidence(old(Contents()), c, p, delay), Some(c), kind,
                    payload, pause)
    {
      idempotent := Indexed(events, c);
      if idempotent {
        s := NewestSnapshot(snapshots, c);
        return;
      }
      var event := AppendEvent(CommitInput(c, p), delay);
      AttachAll(CommitLinks(c, p), Some(c));
      s := CreateSnapshot(Some(c), kind, payload, pause);
    }
  }

  lemma {:induction false} FoundIsStored(relations: seq<Relation>, link: Link, commit: Option<Commit>)
    ensures var r := FindRelation(relations, link, commit);
            r.Some? ==> r.value in relations && r.value.link == link && r.value.commit == commit
  {
    if relations != [] {
      FoundIsStored(relations[..|relations| - 1], link, commit);
    }
  }

  /** Collects both ends of every relation. */
  method ValuesOf(relations: seq<Relation>) returns (values: set<Entity>)
    ensures values == Values(relations)
  {
    values := {};
    for n := 0 to |relations|
      invariant values == Values(relations[..n])
    {
      assert relations[..n + 1][..n] == relations[..n];
      values := values + {relations[n].link.source} + {relations[n].link.target};
    }
    assert relations[..|relations|] == relations;
  }
}
