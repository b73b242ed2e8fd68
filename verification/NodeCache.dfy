/**
 The shared npm snapshot. Any number of processes restore a worktree from the snapshot of a cache
 key, or install and publish a new one, one file at a time; a process can fail or die between any
 two file-system steps. The file system is a value, and every step is a function on it.
 */
module NodeCache {
  import opened Common

  type Key = nat
  type Pid = nat
  /** A file stands for its path together with its content. */
  type File = nat
  type Tree = set<File>

  /** The part of a directory that the protocol touches: `node_modules`, and uniquely named copies of it. */
  datatype Dir = Dir(modules: Option<Tree>, temps: map<nat, Tree>)

  /** A marker file is written in two steps, so a crash can leave one that holds no whole key. */
  datatype Note = Partial | Whole(key: Key)

  datatype Cache = Cache(dir: Dir, marker: Option<Note>, draft: Option<Note>, lock: Option<Pid>)

  datatype Direction = Restoring | Publishing

  datatype Outcome = Shared | Installed | Uncached | Failed

  /** Where a process stands; the number names the temporary directory it is filling. */
  datatype Pc =
    | Idle
    | Checking
    | Installing
    | Unmarking
    | MakingTemp(way: Direction)
    | Copying(way: Direction, temp: nat)
    | Removing(way: Direction, temp: nat)
    | Renaming(way: Direction, temp: nat)
    | Drafting
    | Marking
    | Cleaning(temp: nat, way: Direction)
    | Leaving(outcome: Outcome)

  datatype Process = Process(pc: Pc, key: Key, worktree: Dir)

  /** What one process can touch: itself, the cache of its key, and the log of successful installs. */
  datatype View = View(me: Process, cache: Cache, installs: set<(Key, Tree)>)

  datatype Move =
    | Lock(key: Key)
    | CheckReady(readable: bool)
    | InstallWrites(modules: Option<Tree>)
    | InstallEnds(ok: bool)
    | Unmark
    | MakeTemp(name: nat)
    | CopyFile(file: File)
    | CopyEnds
    | RemoveFile(file: File)
    | RemoveEnds
    | Rename
    | WriteDraft(note: Note)
    | Mark
    | Fail
    | CleanFile(file: File)
    | CleanEnds
    | Unlock
    | Crash
    | Work(modules: Option<Tree>)

  // ----- the steps of one process

  function Source(v: View, way: Direction): Dir {
    if way.Restoring? then v.cache.dir else v.me.worktree
  }

  function Target(v: View, way: Direction): Dir {
    if way.Restoring? then v.me.worktree else v.cache.dir
  }

  function SetTarget(v: View, way: Direction, d: Dir): View {
    if way.Restoring? then v.(me := v.me.(worktree := d)) else v.(cache := v.cache.(dir := d))
  }

  function Goto(v: View, pc: Pc): View {
    v.(me := v.me.(pc := pc))
  }

  predicate Ready(cache: Cache, key: Key) {
    cache.dir.modules.Some? && cache.marker == Some(Whole(key))
  }

  /** Where an exception takes a process: its `finally` clause, then the release of the lock. */
  function Raise(pc: Pc): Pc {
    match pc
    case Copying(way, n) => Cleaning(n, way)
    case Removing(way, n) => Cleaning(n, way)
    case Renaming(way, n) => Cleaning(n, way)
    case MakingTemp(way) => Leaving(if way.Restoring? then Failed else Uncached)
    case Cleaning(_, way) => Leaving(if way.Restoring? then Failed else Uncached)
    case Unmarking => Leaving(Uncached)
    case Drafting => Leaving(Uncached)
    case Marking => Leaving(Uncached)
    case _ => Leaving(Failed)
  }

  /** A move that is not possible in the current state does nothing. */
  function Act(v: View, m: Move): View {
    match m
    case Lock(key) => v
    case Work(modules) => if v.me.pc.Idle? then v.(me := v.me.(worktree := v.me.worktree.(modules := modules))) else v
    case Crash => if v.me.pc.Idle? then v else Goto(v.(cache := v.cache.(lock := None)), Idle)
    case Unlock => if v.me.pc.Leaving? then Goto(v.(cache := v.cache.(lock := None)), Idle) else v
    case Fail => if v.me.pc.Idle? || v.me.pc.Leaving? then v else Goto(v, Raise(v.me.pc))
    case CheckReady(readable) =>
      if !v.me.pc.Checking? then v
      else if readable && Ready(v.cache, v.me.key) then Goto(v, MakingTemp(Restoring))
      else Goto(v, Installing)
    case InstallWrites(modules) =>
      if v.me.pc.Installing? then v.(me := v.me.(worktree := v.me.worktree.(modules := modules))) else v
    case InstallEnds(ok) => if v.me.pc.Installing? then InstallEnd(v, ok) else v
    case Unmark => if v.me.pc.Unmarking? then Goto(v.(cache := v.cache.(marker := None)), MakingTemp(Publishing)) else v
    case MakeTemp(name) => if v.me.pc.MakingTemp? then StartCopy(v, v.me.pc.way, name) else v
    case CopyFile(file) => if v.me.pc.Copying? then CopyOne(v, v.me.pc.way, v.me.pc.temp, file) else v
    case CopyEnds => if v.me.pc.Copying? then EndCopy(v, v.me.pc.way, v.me.pc.temp) else v
    case RemoveFile(file) => if v.me.pc.Removing? then RemoveOne(v, v.me.pc.way, file) else v
    case RemoveEnds => if v.me.pc.Removing? then EndRemove(v, v.me.pc.way, v.me.pc.temp) else v
    case Rename => if v.me.pc.Renaming? then RenameTemp(v, v.me.pc.way, v.me.pc.temp) else v
    case WriteDraft(note) => if v.me.pc.Drafting? then WriteNote(v, note) else v
    case Mark => if v.me.pc.Marking? then RenameDraft(v) else v
    case CleanFile(file) => if v.me.pc.Cleaning? then CleanOne(v, v.me.pc.way, v.me.pc.temp, file) else v
    case CleanEnds => if v.me.pc.Cleaning? then EndClean(v, v.me.pc.way, v.me.pc.temp) else v
  }

  /** A zero exit code logs the installed tree; without a regular directory nothing is published. */
  function InstallEnd(v: View, ok: bool): View {
    if !ok then Goto(v, Leaving(Failed))
    else if v.me.worktree.modules.None? then Goto(v, Leaving(Uncached))
    else Goto(v.(installs := v.installs + {(v.me.key, v.me.worktree.modules.value)}), Unmarking)
  }

  function StartCopy(v: View, way: Direction, name: nat): View {
    var d := Target(v, way);
    if name in d.temps then v else Goto(SetTarget(v, way, d.(temps := d.temps[name := {}])), Copying(way, name))
  }

  function CopyOne(v: View, way: Direction, n: nat, file: File): View {
    var d := Target(v, way);
    if n in d.temps && Source(v, way).modules.Some? && file in Source(v, way).modules.value
    then SetTarget(v, way, d.(temps := d.temps[n := d.temps[n] + {file}]))
    else v
  }

  /** The copy succeeds when it finds nothing left to copy in the source as it then is. */
  function EndCopy(v: View, way: Direction, n: nat): View {
    var d := Target(v, way);
    if n in d.temps && Source(v, way).modules.Some? && Source(v, way).modules.value <= d.temps[n]
    then Goto(v, Removing(way, n))
    else v
  }

  function RemoveOne(v: View, way: Direction, file: File): View {
    var d := Target(v, way);
    if d.modules.Some? then SetTarget(v, way, d.(modules := Some(d.modules.value - {file}))) else v
  }

  function EndRemove(v: View, way: Direction, n: nat): View {
    var d := Target(v, way);
    if d.modules == None || d.modules == Some({})
    then Goto(SetTarget(v, way, d.(modules := None)), Renaming(way, n))
    else v
  }

  function RenameTemp(v: View, way: Direction, n: nat): View {
    var d := Target(v, way);
    if n in d.temps
    then Goto(SetTarget(v, way, Dir(Some(d.temps[n]), d.temps - {n})),
              if way.Restoring? then Leaving(Shared) else Drafting)
    else v
  }

  function WriteNote(v: View, note: Note): View {
    var v' := v.(cache := v.cache.(draft := Some(note)));
    if note == Whole(v.me.key) then Goto(v', Marking)
    else if note.Partial? then v'
    else v
  }

  function RenameDraft(v: View): View {
    Goto(v.(cache := v.cache.(marker := v.cache.draft, draft := None)), Leaving(Installed))
  }

  function CleanOne(v: View, way: Direction, n: nat, file: File): View {
    var d := Target(v, way);
    if n in d.temps then SetTarget(v, way, d.(temps := d.temps[n := d.temps[n] - {file}])) else v
  }

  function EndClean(v: View, way: Direction, n: nat): View {
    var d := Target(v, way);
    if n !in d.temps || d.temps[n] == {}
    then Goto(SetTarget(v, way, d.(temps := d.temps - {n})), Leaving(if way.Restoring? then Failed else Uncached))
    else v
  }

  // ----- the system

  datatype System = System(caches: map<Key, Cache>, processes: map<Pid, Process>, installs: set<(Key, Tree)>)

  const EMPTY: Dir := Dir(None, map[])

  function CacheAt(s: System, k: Key): Cache {
    if k in s.caches then s.caches[k] else Cache(EMPTY, None, None, None)
  }

  function ProcessAt(s: System, p: Pid): Process {
    if p in s.processes then s.processes[p] else Process(Idle, 0, EMPTY)
  }

  /**
   A process moves, or a copying child that outlived its dead parent writes another file into a
   temporary snapshot that no living process is using.
   */
  datatype Event = Moves(pid: Pid, move: Move) | StrayWrite(key: Key, temp: nat, file: File)

  function ViewOf(s: System, p: Pid): View {
    View(ProcessAt(s, p), CacheAt(s, ProcessAt(s, p).key), s.installs)
  }

  function Put(s: System, p: Pid, v: View): System {
    System(s.caches[v.me.key := v.cache], s.processes[p := v.me], v.installs)
  }

  /** The lock of a key is granted only when nobody holds it, to a process that holds no other. */
  function TakeLock(s: System, p: Pid, k: Key): System {
    if ProcessAt(s, p).pc.Idle? && CacheAt(s, k).lock.None?
    then System(s.caches[k := CacheAt(s, k).(lock := Some(p))],
                s.processes[p := Process(Checking, k, ProcessAt(s, p).worktree)], s.installs)
    else s
  }

  predicate InUse(s: System, k: Key, n: nat) {
    var c := CacheAt(s, k);
    c.lock.Some? && TempOf(ProcessAt(s, c.lock.value).pc) == Some(n)
  }

  function TempOf(pc: Pc): Option<nat> {
    match pc
    case Copying(_, n) => Some(n)
    case Removing(_, n) => Some(n)
    case Renaming(_, n) => Some(n)
    case Cleaning(n, _) => Some(n)
    case _ => None
  }

  function Stray(s: System, k: Key, n: nat, file: File): System {
    var c := CacheAt(s, k);
    if n in c.dir.temps && !InUse(s, k, n)
    then s.(caches := s.caches[k := c.(dir := c.dir.(temps := c.dir.temps[n := c.dir.temps[n] + {file}]))])
    else s
  }

  function Step(s: System, e: Event): System {
    match e
    case Moves(p, m) => if m.Lock? then TakeLock(s, p, m.key) else Put(s, p, Act(ViewOf(s, p), m))
    case StrayWrite(k, n, file) => Stray(s, k, n, file)
  }

  function After(events: seq<Event>): System {
    if events == [] then System(map[], map[], {}) else Step(After(events[..|events| - 1]), events[|events| - 1])
  }

  // ----- the invariant

  /** A snapshot is complete when it is exactly what a successful install for the key left behind. */
  predicate Complete(k: Key, modules: Option<Tree>, installs: set<(Key, Tree)>) {
    modules.Some? && (k, modules.value) in installs
  }

  predicate CacheOk(k: Key, c: Cache, installs: set<(Key, Tree)>) {
    c.marker.Some? ==> c.marker.value == Whole(k) && Complete(k, c.dir.modules, installs)
  }

  /** What holds of a process at each point, given the cache of its key. */
  predicate ProcessOk(v: View) {
    var k, mine, shared := v.me.key, v.me.worktree.modules, v.cache.dir.modules;
    match v.me.pc
    case Unmarking => Complete(k, mine, v.installs)
    case MakingTemp(way) => Stage(v, way)
    case Copying(way, n) => Stage(v, way) &&
      (n in Target(v, way).temps ==> Target(v, way).temps[n] <= Source(v, way).modules.value)
    case Removing(way, n) =>
      Stage(v, way) && (n in Target(v, way).temps ==> Some(Target(v, way).temps[n]) == Source(v, way).modules)
    case Renaming(way, n) =>
      Stage(v, way) && (n in Target(v, way).temps ==> Some(Target(v, way).temps[n]) == Source(v, way).modules)
    case Drafting => v.cache.marker.None? && mine == shared && Complete(k, mine, v.installs)
    case Marking => v.cache.marker.None? && mine == shared && Complete(k, mine, v.installs) &&
      v.cache.draft == Some(Whole(k))
    case Leaving(Shared) => v.cache.marker == Some(Whole(k)) && mine == shared && Complete(k, mine, v.installs)
    case Leaving(Installed) => v.cache.marker == Some(Whole(k)) && mine == shared && Complete(k, mine, v.installs)
    case _ => true
  }

  /** The source of a copy is complete; a restore needs the marker, and a publication needs it gone. */
  predicate Stage(v: View, way: Direction) {
    && Complete(v.me.key, Source(v, way).modules, v.installs)
    && (if way.Restoring? then v.cache.marker == Some(Whole(v.me.key)) else v.cache.marker.None?)
  }

  ghost predicate Inv(s: System) {
    && (forall k :: CacheOk(k, CacheAt(s, k), s.installs))
    && (forall p :: ProcessOk(ViewOf(s, p)))
    && (forall p :: Holds(s, p))
  }

  /** Whoever is not idle holds the lock of its key. */
  predicate Holds(s: System, p: Pid) {
    ProcessAt(s, p).pc.Idle? || CacheAt(s, ProcessAt(s, p).key).lock == Some(p)
  }

  predicate Kept(p: Pid, v: View, w: View) {
    && CacheOk(w.me.key, w.cache, w.installs) && ProcessOk(w)
    && w.me.key == v.me.key && v.installs <= w.installs
    && (w.me.pc.Idle? || w.cache.lock == Some(p))
    && (v.me.pc.Idle? ==> w.cache == v.cache)
  }

  /** One process keeps its own obligations and those of its cache. */
  lemma ActKeepsOk(p: Pid, v: View, m: Move)
    requires CacheOk(v.me.key, v.cache, v.installs) && ProcessOk(v)
    requires v.me.pc.Idle? || v.cache.lock == Some(p)
    ensures Kept(p, v, Act(v, m))
  {
    if IsFileMove(m) {
      FileMoveKeepsOk(p, v, m);
    } else if IsInterruption(m) {
      InterruptionKeepsOk(p, v, m);
    } else {
      ControlMoveKeepsOk(p, v, m);
    }
  }

  /** The moves that copy, remove and rename trees. */
  predicate IsFileMove(m: Move) {
    m.MakeTemp? || m.CopyFile? || m.CopyEnds? || m.RemoveFile? || m.RemoveEnds? || m.Rename? || m.CleanFile? ||
        m.CleanEnds?
  }

  /** The moves by which a process enters or leaves the protocol. */
  predicate IsInterruption(m: Move) {
    m.Lock? || m.Unlock? || m.Fail? || m.Crash? || m.Work?
  }

  lemma InterruptionKeepsOk(p: Pid, v: View, m: Move)
    requires CacheOk(v.me.key, v.cache, v.installs) && ProcessOk(v) && IsInterruption(m)
    requires v.me.pc.Idle? || v.cache.lock == Some(p)
    ensures Kept(p, v, Act(v, m))
  {
  }

  lemma ControlMoveKeepsOk(p: Pid, v: View, m: Move)
    requires CacheOk(v.me.key, v.cache, v.installs) && ProcessOk(v) && !IsFileMove(m) && !IsInterruption(m)
    requires v.me.pc.Idle? || v.cache.lock == Some(p)
    ensures Kept(p, v, Act(v, m))
  {
  }

  lemma FileMoveKeepsOk(p: Pid, v: View, m: Move)
    requires CacheOk(v.me.key, v.cache, v.installs) && ProcessOk(v) && IsFileMove(m)
    requires v.me.pc.Idle? || v.cache.lock == Some(p)
    ensures Kept(p, v, Act(v, m))
  {
    if m.CopyEnds? && v.me.pc.Copying? {
      CopyEndsWhole(v, v.me.pc.way, v.me.pc.temp);
    }
  }

  lemma CopyEndsWhole(v: View, way: Direction, n: nat)
    requires ProcessOk(v) && v.me.pc == Copying(way, n)
    ensures ProcessOk(EndCopy(v, way, n)) && EndCopy(v, way, n).cache == v.cache
  {
    if n in Target(v, way).temps && Source(v, way).modules.value <= Target(v, way).temps[n] {
      assert Target(v, way).temps[n] == Source(v, way).modules.value;
    }
  }

  lemma MoreInstalls(v: View, more: set<(Key, Tree)>)
    requires v.installs <= more && ProcessOk(v)
    ensures ProcessOk(v.(installs := more))
  {
  }

  lemma MoveKeepsInv(s: System, p: Pid, m: Move)
    requires Inv(s) && !m.Lock?
    ensures Inv(Put(s, p, Act(ViewOf(s, p), m)))
  {
    var v := ViewOf(s, p);
    var w := Act(v, m);
    var s' := Put(s, p, w);
    assert ProcessOk(v) && Holds(s, p) && CacheOk(v.me.key, CacheAt(s, v.me.key), s.installs);
    ActKeepsOk(p, v, m);
    forall k ensures CacheOk(k, CacheAt(s', k), s'.installs) {
      assert CacheOk(k, CacheAt(s, k), s.installs);
    }
    forall q ensures ProcessOk(ViewOf(s', q)) && Holds(s', q) {
      assert ProcessOk(ViewOf(s, q)) && Holds(s, q);
      if q != p {
        Undisturbed(s, p, m, q);
        MoreInstalls(ViewOf(s, q), s'.installs);
      }
    }
  }

  /** A move changes neither another process nor the cache another process is using. */
  lemma Undisturbed(s: System, p: Pid, m: Move, q: Pid)
    requires Inv(s) && !m.Lock? && q != p
    ensures var s' := Put(s, p, Act(ViewOf(s, p), m));
            && ProcessAt(s', q) == ProcessAt(s, q)
            && (ProcessAt(s, q).pc.Idle? || CacheAt(s', ProcessAt(s, q).key) == CacheAt(s, ProcessAt(s, q).key))
  {
    assert Holds(s, p) && Holds(s, q);
    assert ProcessOk(ViewOf(s, p)) && CacheOk(ProcessAt(s, p).key, CacheAt(s, ProcessAt(s, p).key), s.installs);
    ActKeepsOk(p, ViewOf(s, p), m);
  }

  lemma LockKeepsInv(s: System, p: Pid, k: Key)
    requires Inv(s)
    ensures Inv(TakeLock(s, p, k))
  {
    var s' := TakeLock(s, p, k);
    forall j ensures CacheOk(j, CacheAt(s', j), s'.installs) {
      assert CacheOk(j, CacheAt(s, j), s.installs);
    }
    forall q ensures ProcessOk(ViewOf(s', q)) && Holds(s', q) {
      assert ProcessOk(ViewOf(s, q)) && Holds(s, q);
    }
  }

  lemma StrayKeepsInv(s: System, k: Key, n: nat, file: File)
    requires Inv(s)
    ensures Inv(Stray(s, k, n, file))
  {
    var s' := Stray(s, k, n, file);
    forall j ensures CacheOk(j, CacheAt(s', j), s'.installs) {
      assert CacheOk(j, CacheAt(s, j), s.installs);
    }
    forall q ensures ProcessOk(ViewOf(s', q)) && Holds(s', q) {
      assert ProcessOk(ViewOf(s, q)) && Holds(s, q);
    }
  }

  lemma StepKeepsInv(s: System, e: Event)
    requires Inv(s)
    ensures Inv(Step(s, e))
  {
    match e
    case Moves(p, Lock(k)) => LockKeepsInv(s, p, k);
    case Moves(p, m) => MoveKeepsInv(s, p, m);
    case StrayWrite(k, n, file) => StrayKeepsInv(s, k, n, file);
  }

  lemma {:induction false} ReachableInv(events: seq<Event>)
    ensures Inv(After(events))
  {
    if events != [] {
      ReachableInv(events[..|events| - 1]);
      StepKeepsInv(After(events[..|events| - 1]), events[|events| - 1]);
    }
  }

  // ----- what the protocol is for

  /** Whatever fails or dies, a marker vouches for a complete snapshot of its own key. */
  lemma MarkerMeansComplete(events: seq<Event>, k: Key)
    ensures var s := After(events);
            CacheAt(s, k).marker.Some? ==> Ready(CacheAt(s, k), k) && Complete(k, CacheAt(s, k).dir.modules, s.installs)
  {
    ReachableInv(events);
    assert CacheOk(k, CacheAt(After(events), k), After(events).installs);
  }

  /** A process that reports a shared hit has in its worktree the whole of a successful install for its key. */
  lemma RestoreIsComplete(events: seq<Event>, p: Pid)
    requires ProcessAt(After(events), p).pc == Leaving(Shared)
    ensures Complete(ProcessAt(After(events), p).key, ProcessAt(After(events), p).worktree.modules,
            After(events).installs)
  {
    ReachableInv(events);
    assert ProcessOk(ViewOf(After(events), p));
  }

  /** A process that reports an installation has published exactly its own worktree. */
  lemma PublishIsVisible(events: seq<Event>, p: Pid)
    requires ProcessAt(After(events), p).pc == Leaving(Installed)
    ensures var v := ViewOf(After(events), p);
            Ready(v.cache, v.me.key) && v.cache.dir.modules == v.me.worktree.modules &&
                Complete(v.me.key, v.me.worktree.modules, v.installs)
  {
    ReachableInv(events);
    assert ProcessOk(ViewOf(After(events), p));
  }

  /** Two processes are never inside the protocol for the same key. */
  lemma OneAtATime(events: seq<Event>, p: Pid, q: Pid)
    requires var s := After(events);
             !ProcessAt(s, p).pc.Idle? && !ProcessAt(s, q).pc.Idle? && ProcessAt(s, p).key == ProcessAt(s, q).key
    ensures p == q
  {
    ReachableInv(events);
    assert Holds(After(events), p) && Holds(After(events), q);
  }

  /** While one process is inside the protocol, no other event alters its key's snapshot, marker or draft. */
  lemma SnapshotIsFrozen(events: seq<Event>, p: Pid, e: Event)
    requires !ProcessAt(After(events), p).pc.Idle? && !(e.Moves? && e.pid == p)
    ensures var s, k := After(events), ProcessAt(After(events), p).key;
            var c, c' := CacheAt(s, k), CacheAt(Step(s, e), k);
            c'.dir.modules == c.dir.modules && c'.marker == c.marker && c'.draft == c.draft && c'.lock == Some(p)
  {
    var s := After(events);
    ReachableInv(events);
    assert Holds(s, p);
    if e.Moves? && !e.move.Lock? {
      Undisturbed(s, e.pid, e.move, p);
    }
  }

  // ----- no crash leaves a cache that cannot be filled again

  function Acts(v: View, moves: seq<Move>): View {
    if moves == [] then v else Act(Acts(v, moves[..|moves| - 1]), moves[|moves| - 1])
  }

  lemma {:induction false} ActsAppend(v: View, a: seq<Move>, b: seq<Move>)
    ensures Acts(v, a + b) == Acts(Acts(v, a), b)
  {
    if b == [] {
      assert a + b == a;
    } else {
      assert (a + b)[..|a + b| - 1] == a + b[..|b| - 1];
      ActsAppend(v, a, b[..|b| - 1]);
    }
  }

  ghost function FilesCopied(v: View, n: nat, files: Tree): View
    requires n in v.cache.dir.temps
  {
    v.(cache := v.cache.(dir := v.cache.dir.(temps := v.cache.dir.temps[n := v.cache.dir.temps[n] + files])))
  }

  lemma {:induction false} CopyMany(v: View, n: nat, files: Tree) returns (moves: seq<Move>)
    requires v.me.pc == Copying(Publishing, n) && n in v.cache.dir.temps
    requires v.me.worktree.modules.Some? && files <= v.me.worktree.modules.value
    ensures Acts(v, moves) == FilesCopied(v, n, files)
    decreases files
  {
    moves := [];
    if files == {} {
      assert v.cache.dir.temps[n] + files == v.cache.dir.temps[n];
      assert FilesCopied(v, n, files).cache.dir.temps == v.cache.dir.temps;
    } else {
      var f :| f in files;
      var first := CopyMany(v, n, files - {f});
      moves := first + [CopyFile(f)];
      assert (v.cache.dir.temps[n] + (files - {f})) + {f} == v.cache.dir.temps[n] + files;
    }
  }

  lemma {:induction false} RemoveMany(v: View, n: nat, files: Tree) returns (moves: seq<Move>)
    requires v.me.pc == Removing(Publishing, n) && v.cache.dir.modules.Some?
    ensures Acts(v, moves) ==
            v.(cache := v.cache.(dir := v.cache.dir.(modules := Some(v.cache.dir.modules.value - files))))
    decreases files
  {
    moves := [];
    if files == {} {
      assert v.cache.dir.modules.value - files == v.cache.dir.modules.value;
    } else {
      var f :| f in files;
      var first := RemoveMany(v, n, files - {f});
      moves := first + [RemoveFile(f)];
      assert (v.cache.dir.modules.value - (files - {f})) - {f} == v.cache.dir.modules.value - files;
    }
  }

  lemma {:induction false} UnusedName(names: set<nat>) returns (n: nat)
    ensures forall k :: k in names ==> k < n
  {
    if names == {} {
      n := 0;
    } else {
      var k :| k in names;
      var m := UnusedName(names - {k});
      n := Max(m, k + 1);
      forall j | j in names ensures j < n {
        assert j == k || j in names - {k};
      }
    }
  }

  /** Filling a temporary snapshot with the whole worktree. */
  lemma FillTemp(v: View, t: Tree) returns (moves: seq<Move>, n: nat)
    requires v.me.pc == MakingTemp(Publishing) && v.me.worktree.modules == Some(t)
    ensures var w := Acts(v, moves);
            && w.me == v.me.(pc := Removing(Publishing, n)) && n in w.cache.dir.temps && w.cache.dir.temps[n] == t
            && w.cache == v.cache.(dir := v.cache.dir.(temps := w.cache.dir.temps)) && w.installs == v.installs
  {
    n := UnusedName(v.cache.dir.temps.Keys);
    var v1 := Act(v, MakeTemp(n));
    var copies := CopyMany(v1, n, t);
    moves := [MakeTemp(n)] + copies + [CopyEnds];
    ActsAppend(v, [MakeTemp(n)], copies);
    assert Acts(v, [MakeTemp(n)]) == v1 by { assert Acts(v, []) == v; }
    assert Acts(v, [MakeTemp(n)] + copies) == FilesCopied(v1, n, t);
    assert FilesCopied(v1, n, t).cache.dir.temps[n] == t;
  }

  /** Clearing what an earlier attempt left under the final name. */
  lemma ClearTarget(v: View, n: nat) returns (moves: seq<Move>)
    requires v.me.pc == Removing(Publishing, n)
    ensures Acts(v, moves) ==
            v.(me := v.me.(pc := Renaming(Publishing, n)), cache := v.cache.(dir := v.cache.dir.(modules := None)))
  {
    if v.cache.dir.modules.None? {
      moves := [RemoveEnds];
      assert Acts(v, []) == v;
    } else {
      var removes := RemoveMany(v, n, v.cache.dir.modules.value);
      assert v.cache.dir.modules.value - v.cache.dir.modules.value == {};
      var empty := v.(cache := v.cache.(dir := v.cache.dir.(modules := Some({}))));
      assert Acts(v, removes) == empty;
      moves := removes + [RemoveEnds];
      assert moves[..|moves| - 1] == removes;
      assert Acts(v, moves) == Act(empty, RemoveEnds);
    }
  }

  /**
   Whatever an earlier crash left in the cache directory, a process that holds the lock can still
   publish any tree it installs.
   */
  lemma CacheIsNeverStuck(v: View, t: Tree) returns (moves: seq<Move>)
    requires v.me.pc.Checking?
    ensures var w := Acts(v, moves);
            w.me.pc == Leaving(Installed) && Ready(w.cache, w.me.key) && w.cache.dir.modules == Some(t)
  {
    var install := [CheckReady(false), InstallWrites(Some(t)), InstallEnds(true), Unmark];
    var v1 := Acts(v, install);
    assert v1.me.pc == MakingTemp(Publishing) && v1.me.worktree.modules == Some(t) && v1.me.key == v.me.key by {
      InstallRun(v, t);
    }
    var fill, n := FillTemp(v1, t);
    var v2 := Acts(v1, fill);
    var clear := ClearTarget(v2, n);
    var v3 := Acts(v2, clear);
    var finish := [Rename, WriteDraft(Partial), WriteDraft(Whole(v.me.key)), Mark];
    FinishRun(v3, n, t);
    moves := install + fill + clear + finish;
    ActsAppend(v, install, fill);
    ActsAppend(v, install + fill, clear);
    ActsAppend(v, install + fill + clear, finish);
  }

  lemma InstallRun(v: View, t: Tree)
    requires v.me.pc.Checking?
    ensures var w := Acts(v, [CheckReady(false), InstallWrites(Some(t)), InstallEnds(true), Unmark]);
            w.me.pc == MakingTemp(Publishing) && w.me.worktree.modules == Some(t) && w.me.key == v.me.key
  {
    var v1 := Act(v, CheckReady(false));
    var v2 := Act(v1, InstallWrites(Some(t)));
    var v3 := Act(v2, InstallEnds(true));
    var ms := [CheckReady(false), InstallWrites(Some(t)), InstallEnds(true), Unmark];
    FourActs(v, ms);
  }

  lemma FinishRun(v: View, n: nat, t: Tree)
    requires v.me.pc == Renaming(Publishing, n) && n in v.cache.dir.temps && v.cache.dir.temps[n] == t
    ensures var w := Acts(v, [Rename, WriteDraft(Partial), WriteDraft(Whole(v.me.key)), Mark]);
            w.me.pc == Leaving(Installed) && Ready(w.cache, w.me.key) && w.cache.dir.modules == Some(t)
  {
    FourActs(v, [Rename, WriteDraft(Partial), WriteDraft(Whole(v.me.key)), Mark]);
  }

  lemma FourActs(v: View, ms: seq<Move>)
    requires |ms| == 4
    ensures Acts(v, ms) == Act(Act(Act(Act(v, ms[0]), ms[1]), ms[2]), ms[3])
  {
    assert ms[..3][..2] == ms[..2] && ms[..2][..1] == ms[..1] && ms[..1][..0] == [];
    assert Acts(v, ms[..1]) == Act(v, ms[0]);
    assert Acts(v, ms[..2]) == Act(Act(v, ms[0]), ms[1]);
    assert Acts(v, ms[..3]) == Act(Acts(v, ms[..2]), ms[2]);
  }
}
