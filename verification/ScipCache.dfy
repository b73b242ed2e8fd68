/**
 The cached SCIP index and its manifest: two files replaced one after the other by any number of
 concurrent writers that take no lock, and two readers that decide whether the pair may be used.
 A writer can die, and any process can be overtaken by another, between any two steps.
 */
module ScipCache {
  import opened Common
  import JsonPreflight

  type Bytes = seq<JsonPreflight.Byte>

  const MAX_INDEX_BYTES: nat := 8 * 1024 * 1024
  const MAX_MANIFEST_BYTES: nat := 64 * 1024
  const SCHEMA: string := "code-intelligence-snapshot/v1"

  /** SHA-256 taken as collision-free: a digest is the content it was computed from, or some other text. */
  datatype Digest = Sha256(content: Bytes) | OtherText(text: string)

  datatype Indexer = Indexer(language: string, name: string, version: string)

  datatype CodeState = CodeState(revision: string, workspaceHash: string, complete: bool)

  /** The manifest fields that are read back; any of them can be missing. */
  datatype Manifest = Manifest(schema: Option<string>, revision: Option<string>, workspaceHash: Option<string>,
                               complete: Option<bool>, digest: Option<Digest>, indexers: seq<Indexer>)

  datatype Body = NotJson | NotObject | Fields(manifest: Manifest)

  datatype ManifestFile = ManifestFile(size: nat, body: Body)

  /** One completed run of the configured indexers, and the bytes it produced. */
  datatype Run = Run(state: CodeState, indexers: seq<Indexer>, bytes: Bytes)

  function ManifestOf(r: Run): Manifest {
    Manifest(Some(SCHEMA), Some(r.state.revision), Some(r.state.workspaceHash), Some(r.state.complete),
             Some(Sha256(r.bytes)), r.indexers)
  }

  /** What a JSON parser makes of the index text, as far as the gate looks. */
  datatype Shape = Unparsable | NoObject | NoMetadata | BadDocuments | WellShaped

  datatype Status = Unavailable | Truncated | Stale | Invalid

  // ----- the two readers

  /** The first half of the reuse check: everything that does not need the index content. */
  predicate ManifestIsCurrent(m: Manifest, state: CodeState, indexers: seq<Indexer>) {
    && m.revision == Some(state.revision) && m.workspaceHash == Some(state.workspaceHash)
    && state.complete && m.complete == Some(true) && m.indexers == indexers
  }

  function CurrentManifest(index: Option<Bytes>, file: Option<ManifestFile>, state: CodeState,
                           indexers: seq<Indexer>): Option<Manifest> {
    if index.None? || file.None? || file.value.size > MAX_MANIFEST_BYTES || |index.value| > MAX_INDEX_BYTES then None
    else if file.value.body.Fields? && ManifestIsCurrent(file.value.body.manifest, state, indexers)
        then Some(file.value.body.manifest)
    else None
  }

  predicate DigestMatches(m: Manifest, index: Option<Bytes>) {
    index.Some? && m.digest == Some(Sha256(index.value))
  }

  /** A missing and an empty text are the same to the gate. */
  function NonEmpty(t: Option<string>): Option<string> {
    if t == Some("") then None else t
  }

  datatype Opening = Refuse(status: Status) | Proceed(manifest: Manifest)

  /** The head of the gate, up to the comparison of the manifest with the repository state. */
  function OpenGate(index: Option<Bytes>, file: Option<ManifestFile>, state: CodeState): Opening {
    if index.None? then Refuse(Unavailable)
    else if !state.complete then Refuse(Truncated)
    else if file.None? then Refuse(Stale)
    else if file.value.size > MAX_MANIFEST_BYTES || !file.value.body.Fields? then Refuse(Invalid)
    else
      var m := file.value.body.manifest;
      if m.schema != Some(SCHEMA) then Refuse(Invalid)
      else if NonEmpty(m.revision) != Some(state.revision) || NonEmpty(m.workspaceHash) != Some(state.workspaceHash) ||
              m.complete != Some(true) then Refuse(Stale)
      else Proceed(m)
  }

  datatype Closing = Reject(status: Status) | Accept(content: Bytes)

  /** The rest of the gate, on the index content as it is read; no index is a failed read. */
  function CloseGate(m: Manifest, index: Option<Bytes>, shape: Shape): Closing {
    if index.None? then Reject(Invalid)
    else if !JsonPreflight.Accepts(index.value) then Reject(Truncated)
    else if shape.Unparsable? || shape.NoObject? || shape.NoMetadata? then Reject(Invalid)
    else if m.digest != Some(Sha256(index.value)) then Reject(Invalid)
    else if shape.BadDocuments? then Reject(Invalid)
    else Accept(index.value)
  }

  // ----- processes

  datatype Pc =
    | Idle
    | Checking(state: CodeState, indexers: seq<Indexer>)
    | Comparing(state: CodeState, indexers: seq<Indexer>, manifest: Manifest)
    | Indexing(state: CodeState, indexers: seq<Indexer>)
    | WritingIndex(run: Run, size: nat, written: nat)
    | WritingManifest(run: Run, size: nat, written: nat)
    | Reused(state: CodeState, indexers: seq<Indexer>, content: Bytes)
    | Sizing(state: CodeState, manifest: Manifest)
    | Reading(state: CodeState, manifest: Manifest)

  /** An import into a repository graph: the state it was made for, and the index content it used. */
  datatype Import = Import(state: CodeState, content: Bytes)

  type Pid = nat

  datatype System = System(index: Option<Bytes>, manifest: Option<ManifestFile>, processes: map<Pid, Pc>,
                           produced: set<Run>, graph: seq<Import>)

  datatype Event =
    | Ensure(pid: Pid, state: CodeState, indexers: seq<Indexer>)
    | Merge(pid: Pid, state: CodeState)
    | Advance(pid: Pid)
    | Produce(pid: Pid, bytes: Bytes, size: nat)
    | WriteMore(pid: Pid, n: nat)
    | ReadIndex(pid: Pid, shape: Shape)
    | Stop(pid: Pid)

  function At(s: System, p: Pid): Pc {
    if p in s.processes then s.processes[p] else Idle
  }

  function Goto(s: System, p: Pid, pc: Pc): System {
    s.(processes := s.processes[p := pc])
  }

  /** An event that is not possible does nothing; a process that fails or dies becomes idle. */
  function Step(s: System, e: Event): System {
    match e
    case Ensure(p, state, indexers) => if At(s, p).Idle? then Goto(s, p, Checking(state, indexers)) else s
    case Merge(p, state) =>
      if !At(s, p).Idle? then s
      else
        var opening := OpenGate(s.index, s.manifest, state);
        if opening.Refuse? then s else Goto(s, p, Sizing(state, opening.manifest))
    case Produce(p, bytes, size) => if At(s, p).Indexing? then Produced(s, p, At(s, p), bytes, size) else s
    case WriteMore(p, n) => Goto(s, p, Written(At(s, p), n))
    case Advance(p) => Advanced(s, p, At(s, p))
    case ReadIndex(p, shape) => if At(s, p).Reading? then IndexRead(s, p, At(s, p), shape) else s
    case Stop(p) => Goto(s, p, Idle)
  }

  function Produced(s: System, p: Pid, pc: Pc, bytes: Bytes, size: nat): System
    requires pc.Indexing?
  {
    if |bytes| > MAX_INDEX_BYTES then Goto(s, p, Idle)
    else
      var run := Run(pc.state, pc.indexers, bytes);
      Goto(s.(produced := s.produced + {run}), p, WritingIndex(run, size, 0))
  }

  /** Both files are first written, piece by piece, under a temporary name. */
  function Written(pc: Pc, n: nat): Pc {
    match pc
    case WritingIndex(run, size, written) =>
      if written + n <= |run.bytes| then WritingIndex(run, size, written + n) else pc
    case WritingManifest(run, size, written) =>
      if written + n <= size then WritingManifest(run, size, written + n) else pc
    case _ => pc
  }

  function Advanced(s: System, p: Pid, pc: Pc): System {
    match pc
    case Checking(state, indexers) =>
      var found := CurrentManifest(s.index, s.manifest, state, indexers);
      Goto(s, p, if found.None? then Indexing(state, indexers) else Comparing(state, indexers, found.value))
    case Comparing(state, indexers, m) =>
      Goto(s, p, if DigestMatches(m, s.index) then Reused(state, indexers, s.index.value)
          else Indexing(state, indexers))
    case WritingIndex(run, size, written) =>
      if written == |run.bytes| then Goto(s.(index := Some(run.bytes[..written])), p, WritingManifest(run, size, 0))
      else s
    case WritingManifest(run, size, written) =>
      if written == size then Goto(s.(manifest := Some(ManifestFile(size, Fields(ManifestOf(run))))), p, Idle) else s
    case Sizing(state, m) =>
      Goto(s, p, if s.index.Some? && |s.index.value| <= MAX_INDEX_BYTES then Reading(state, m) else Idle)
    case _ => s
  }

  function IndexRead(s: System, p: Pid, pc: Pc, shape: Shape): System
    requires pc.Reading?
  {
    var closing := CloseGate(pc.manifest, s.index, shape);
    var s' := Goto(s, p, Idle);
    if closing.Reject? then s' else s'.(graph := s.graph + [Import(pc.state, closing.content)])
  }

  function After(s: System, events: seq<Event>): System {
    if events == [] then s else Step(After(s, events[..|events| - 1]), events[|events| - 1])
  }

  const START: System := System(None, None, map[], {}, [])

  // ----- the invariant

  ghost predicate Vouched(m: Manifest, produced: set<Run>) {
    exists r :: r in produced && m == ManifestOf(r)
  }

  /** The gate does not look at the indexers, so they are left open. */
  ghost predicate ProducedFor(state: CodeState, content: Bytes, produced: set<Run>) {
    exists r :: r in produced && r.state == state && r.bytes == content
  }

  ghost predicate PcOk(pc: Pc, produced: set<Run>) {
    match pc
    case Comparing(state, indexers, m) => Vouched(m, produced) && ManifestIsCurrent(m, state, indexers)
    case WritingIndex(run, _, _) => run in produced
    case WritingManifest(run, _, _) => run in produced
    case Reused(state, indexers, content) => Run(state, indexers, content) in produced
    case Sizing(state, m) => Vouched(m, produced) && ForState(m, state)
    case Reading(state, m) => Vouched(m, produced) && ForState(m, state)
    case _ => true
  }

  predicate ForState(m: Manifest, state: CodeState) {
    m.revision == Some(state.revision) && m.workspaceHash == Some(state.workspaceHash) && m.complete == Some(true) &&
        state.complete
  }

  /** Neither file is ever partial, and a manifest describes a run that took place. */
  ghost predicate FilesOk(index: Option<Bytes>, manifest: Option<ManifestFile>, produced: set<Run>) {
    && (index.Some? ==> exists r :: r in produced && r.bytes == index.value)
    && (manifest.Some? ==> manifest.value.body.Fields? && Vouched(manifest.value.body.manifest, produced))
  }

  ghost predicate PcsOk(processes: map<Pid, Pc>, produced: set<Run>) {
    forall p :: p in processes ==> PcOk(processes[p], produced)
  }

  ghost predicate GraphOk(graph: seq<Import>, produced: set<Run>) {
    forall i :: 0 <= i < |graph| ==> ProducedFor(graph[i].state, graph[i].content, produced)
  }

  ghost predicate Bounded(produced: set<Run>) {
    forall r :: r in produced ==> |r.bytes| <= MAX_INDEX_BYTES
  }

  ghost predicate Inv(s: System) {
    && FilesOk(s.index, s.manifest, s.produced) && PcsOk(s.processes, s.produced)
    && GraphOk(s.graph, s.produced) && Bounded(s.produced)
  }

  /** Growing the set of runs keeps every claim about them. */
  lemma MoreRuns(s: System, run: Run)
    requires Inv(s) && |run.bytes| <= MAX_INDEX_BYTES
    ensures Inv(s.(produced := s.produced + {run}))
  {
  }

  lemma AdvanceKeepsInv(s: System, p: Pid)
    requires Inv(s)
    ensures Inv(Advanced(s, p, At(s, p)))
  {
    var pc := At(s, p);
    assert PcOk(pc, s.produced);
    match pc
    case WritingIndex(run, size, written) =>
      assert written == |run.bytes| ==> run.bytes[..written] == run.bytes;
    case Comparing(state, indexers, m) =>
      var r :| r in s.produced && m == ManifestOf(r);
      assert DigestMatches(m, s.index) ==> Run(state, indexers, s.index.value) == r;
    case _ =>
  }

  lemma ReadKeepsInv(s: System, p: Pid, shape: Shape)
    requires Inv(s) && At(s, p).Reading?
    ensures Inv(IndexRead(s, p, At(s, p), shape))
  {
  }

  lemma StepKeepsInv(s: System, e: Event)
    requires Inv(s)
    ensures Inv(Step(s, e))
  {
    assert PcOk(At(s, e.pid), s.produced);
    match e
    case Produce(p, bytes, size) =>
      if At(s, p).Indexing? && |bytes| <= MAX_INDEX_BYTES {
        MoreRuns(s, Run(At(s, p).state, At(s, p).indexers, bytes));
      }
    case Advance(p) => AdvanceKeepsInv(s, p);
    case ReadIndex(p, shape) =>
      if At(s, p).Reading? {
        ReadKeepsInv(s, p, shape);
      }
    case _ =>
  }

  lemma {:induction false} ReachableInv(events: seq<Event>)
    ensures Inv(After(START, events))
  {
    if events != [] {
      ReachableInv(events[..|events| - 1]);
      StepKeepsInv(After(START, events[..|events| - 1]), events[|events| - 1]);
    }
  }

  // ----- what the two checks guarantee

  /** Everything ever imported was produced by a run for exactly the state it was imported for. */
  lemma ImportsAreCurrent(events: seq<Event>, i: nat)
    requires i < |After(START, events).graph|
    ensures var s := After(START, events); ProducedFor(s.graph[i].state, s.graph[i].content, s.produced)
  {
    ReachableInv(events);
  }

  /** A reused index was produced for exactly the requested state by exactly the selected indexers. */
  lemma ReuseIsCurrent(events: seq<Event>, p: Pid)
    requires At(After(START, events), p).Reused?
    ensures var pc := At(After(START, events), p);
            Run(pc.state, pc.indexers, pc.content) in After(START, events).produced
  {
    ReachableInv(events);
    assert PcOk(At(After(START, events), p), After(START, events).produced);
  }

  /** The graph changes only when a reader accepts, and then by exactly what it read. */
  lemma OnlyAcceptanceChangesTheGraph(s: System, e: Event)
    ensures Step(s, e).graph == s.graph ||
            (e.ReadIndex? && At(s, e.pid).Reading? && s.index.Some? && JsonPreflight.Accepts(s.index.value) &&
             e.shape.WellShaped? &&
             At(s, e.pid).manifest.digest == Some(Sha256(s.index.value)) &&
             Step(s, e).graph == s.graph + [Import(At(s, e.pid).state, s.index.value)])
  {
  }

  ghost predicate PairFrom(s: System, r: Run) {
    s.index == Some(r.bytes) && s.manifest.Some? && s.manifest.value.body == Fields(ManifestOf(r))
  }

  /**
   On files left by any run, the gate accepts exactly a matching pair: index and manifest of one
   run, for the very state asked about, within the limits of size and structure.
   */
  lemma GateAcceptsMatchingPair(events: seq<Event>, state: CodeState, shape: Shape)
    ensures var s := After(START, events);
            var opening := OpenGate(s.index, s.manifest, state);
            (opening.Proceed? && |s.index.value| <= MAX_INDEX_BYTES &&
             CloseGate(opening.manifest, s.index, shape).Accept?)
            <==>
            (exists r :: r in s.produced && PairFrom(s, r) && r.state == state && state.complete &&
                         state.revision != "" && state.workspaceHash != "" &&
                             s.manifest.value.size <= MAX_MANIFEST_BYTES &&
                         JsonPreflight.Accepts(r.bytes) && shape.WellShaped?)
  {
    var s := After(START, events);
    ReachableInv(events);
    if s.manifest.Some? {
      var r :| r in s.produced && s.manifest.value.body.manifest == ManifestOf(r);
      assert s.index == Some(r.bytes) ==> PairFrom(s, r);
    }
  }

  /** The reuse check accepts exactly a matching pair made by the same indexers. */
  lemma ReuseAcceptsMatchingPair(events: seq<Event>, state: CodeState, indexers: seq<Indexer>)
    ensures var s := After(START, events);
            var found := CurrentManifest(s.index, s.manifest, state, indexers);
            (found.Some? && DigestMatches(found.value, s.index))
            <==>
            (s.index.Some? && PairFrom(s, Run(state, indexers, s.index.value)) && state.complete &&
             Run(state, indexers, s.index.value) in s.produced && s.manifest.value.size <= MAX_MANIFEST_BYTES)
  {
    var s := After(START, events);
    ReachableInv(events);
    if s.manifest.Some? && s.index.Some? {
      var r :| r in s.produced && s.manifest.value.body.manifest == ManifestOf(r);
      var q := Run(state, indexers, s.index.value);
      assert ManifestOf(r) == ManifestOf(q) ==> r == q;
    }
  }

  /** Whatever was left behind, one undisturbed run makes its own index reusable. */
  lemma UndisturbedRunIsReusable(s: System, p: Pid, state: CodeState, indexers: seq<Indexer>, bytes: Bytes, size: nat)
    requires At(s, p) == Indexing(state, indexers) && state.complete && |bytes| <= MAX_INDEX_BYTES &&
             size <= MAX_MANIFEST_BYTES
    ensures var written := Step(Step(s, Produce(p, bytes, size)), WriteMore(p, |bytes|));
            var done := Step(Step(Step(written, Advance(p)), WriteMore(p, size)), Advance(p));
            var found := CurrentManifest(done.index, done.manifest, state, indexers);
            done.index == Some(bytes) && found.Some? && DigestMatches(found.value, done.index)
  {
    var run := Run(state, indexers, bytes);
    var written := Step(Step(s, Produce(p, bytes, size)), WriteMore(p, |bytes|));
    assert At(written, p) == WritingIndex(run, size, |bytes|);
    assert bytes[..|bytes|] == bytes;
    var half := Step(written, Advance(p));
    assert half.index == Some(bytes) && At(half, p) == WritingManifest(run, size, 0);
  }
}
