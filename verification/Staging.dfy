/**
 Staging of build contexts: many workers, in processes that may die at any moment, each fill
 a private `.pending-` directory and publish it by renaming it to the context id.
 */
module Staging {
  import opened Results
  import opened Text

  // ---------------------------------------------------------------- directory trees

  type Path = seq<string>

  datatype Node = Directory | File(content: string, executable: bool)

  /** What lies below a directory. */
  type Tree = map<Path, Node>

  datatype Entry =
    | DirectoryEntry(path: Path)
    | FileEntry(path: Path, content: string, executable: bool)
    | SymlinkEntry(path: Path)

  /** `create_dir_all`: fails when a file is in the way. */
  function MakeDirs(t: Tree, path: Path): Option<Tree> {
    if path == [] then Some(t)
    else
      match MakeDirs(t, path[..|path| - 1])
      case None => None
      case Some(above) =>
        if path in above && above[path].File? then None else Some(above[path := Directory])
  }

  /** Opens a file that must not exist yet: its parents are made first, its content is still missing. */
  function BeginFile(t: Tree, e: Entry): Option<Tree>
    requires e.FileEntry?
  {
    if e.path == [] then None
    else
      match MakeDirs(t, e.path[..|e.path| - 1])
      case None => None
      case Some(above) =>
        if e.path in above then None else Some(above[e.path := File("", e.executable)])
  }

  /** The effect of one manifest entry; a symbolic link is refused. */
  function Placed(t: Tree, e: Entry): Option<Tree> {
    match e
    case DirectoryEntry(path) => MakeDirs(t, path)
    case SymlinkEntry(_) => None
    case FileEntry(path, content, executable) =>
      match BeginFile(t, e)
      case None => None
      case Some(begun) => Some(begun[path := File(content, executable)])
  }

  /** The complete materialization of a manifest. */
  function Materialization(entries: seq<Entry>): Option<Tree> {
    if entries == [] then Some(map[])
    else
      match Materialization(entries[..|entries| - 1])
      case None => None
      case Some(t) => Placed(t, entries[|entries| - 1])
  }

  // ---------------------------------------------------------------- workers

  /** The five values whose digest is the context id. */
  datatype Request = Request(tenant: string, repository: string, reference: string, commit: string, metadata: string)

  /** A name in the contexts directory. The digest of a request is taken to be an injective name for it. */
  datatype Name = Published(request: Request) | Pending(request: Request, process: nat, generation: nat)

  datatype Phase =
    | Entered
    | Looked                                   // the context was not there
    | Filling(name: Name, placed: nat, open: bool)
    | Ready(name: Name)
    | Cleaning(name: Name, ok: bool)
    | Finished(ok: bool)

  datatype Worker = Worker(request: Request, process: nat, phase: Phase)

  /** `generations` is each process's next staging number. */
  datatype System = System(contexts: map<Name, Tree>, workers: map<nat, Worker>, generations: map<nat, nat>)

  datatype Action =
    | Arrive(id: nat, request: Request, process: nat)
    | Look(id: nat)
    | CreateStaging(id: nat)
    | Place(id: nat)                           // one directory entry, or the start of one file
    | Write(id: nat, part: string)             // some content of the open file
    | Close(id: nat)                           // the whole content of the open file
    | Fail(id: nat)                            // any error while filling
    | Sync(id: nat)
    | Rename(id: nat, refused: bool, existed: bool)
    | Remove(id: nat, left: set<Path>)         // a removal that leaves some paths behind
    | Cleaned(id: nat, removed: bool)
    | Crash(process: nat)

  function NextGeneration(s: System, process: nat): nat {
    if process in s.generations then s.generations[process] else 1
  }

  /** The manifests that the repositories hold. */
  type Source = Request -> Option<seq<Entry>>

  function InPhase(s: System, id: nat, phase: Phase): System
    requires id in s.workers
  {
    s.(workers := s.workers[id := s.workers[id].(phase := phase)])
  }

  /** One step; an action that is not possible changes nothing. */
  function Act(s: System, a: Action, source: Source): System {
    match a
    case Arrive(id, request, process) =>
      if id in s.workers then s else s.(workers := s.workers[id := Worker(request, process, Entered)])
    case Crash(process) =>
      System(s.contexts, map id | id in s.workers && s.workers[id].process != process :: s.workers[id],
             s.generations - {process})
    case _ =>
      if a.id !in s.workers then s else WorkerAct(s, a, s.workers[a.id], source)
  }

  function WorkerAct(s: System, a: Action, w: Worker, source: Source): System
    requires !a.Crash? && !a.Arrive? && a.id in s.workers && s.workers[a.id] == w
  {
    match w.phase
    case Entered =>
      if !a.Look? then s
      else if Published(w.request) in s.contexts then InPhase(s, a.id, Finished(true))
      else InPhase(s, a.id, Looked)
    case Looked =>
      if !a.CreateStaging? then s else StagingCreated(s, a.id, w)
    case Filling(name, placed, open) =>
      if name !in s.contexts then s else FillAct(s, a, w, source)
    case Ready(name) =>
      if !a.Rename? || name !in s.contexts then s else Renamed(s, a, w)
    case Cleaning(name, ok) =>
      if a.Remove? then
        if name !in s.contexts then s
        else s.(contexts := s.contexts[name := map p | p in s.contexts[name] && p in a.left :: s.contexts[name][p]])
      else if a.Cleaned? then
        InPhase(s.(contexts := if a.removed then s.contexts - {name} else s.contexts), a.id, Finished(ok))
      else s
    case Finished(_) => s
  }

  /** The counter is advanced, then the directory is created; creation fails when the name is taken. */
  function StagingCreated(s: System, id: nat, w: Worker): System
    requires id in s.workers && s.workers[id] == w
  {
    var generation := NextGeneration(s, w.process);
    var name := Pending(w.request, w.process, generation);
    var counted := s.(generations := s.generations[w.process := generation + 1]);
    if name in s.contexts then InPhase(counted, id, Finished(false))
    else InPhase(counted.(contexts := s.contexts[name := map[]]), id, Filling(name, 0, false))
  }

  function FillAct(s: System, a: Action, w: Worker, source: Source): System
    requires !a.Crash? && !a.Arrive? && a.id in s.workers && s.workers[a.id] == w
    requires w.phase.Filling? && w.phase.name in s.contexts
  {
    var Filling(name, placed, open) := w.phase;
    var failed := InPhase(s, a.id, Cleaning(name, false));
    if a.Fail? || source(w.request).None? then failed
    else
      var entries := source(w.request).value;
      if placed >= |entries| then
        if a.Sync? then InPhase(s, a.id, Ready(name)) else s
      else
        var e := entries[placed];
        var t := s.contexts[name];
        if a.Place? && !open then
          var next := if e.FileEntry? then BeginFile(t, e) else Placed(t, e);
          if next.None? then failed
          else InPhase(s.(contexts := s.contexts[name := next.value]), a.id,
                       if e.FileEntry? then Filling(name, placed, true) else Filling(name, placed + 1, false))
        else if a.Write? && open then
          s.(contexts := s.contexts[name := t[e.path := File(a.part, e.FileEntry? && e.executable)]])
        else if a.Close? && open && e.FileEntry? then
          InPhase(s.(contexts := s.contexts[name := t[e.path := File(e.content, e.executable)]]), a.id,
                  Filling(name, placed + 1, false))
        else s
  }

  /** `rename`: onto nothing or onto an empty directory it succeeds; otherwise the kernel says that the target exists or is not empty. */
  function Renamed(s: System, a: Action, w: Worker): System
    requires a.Rename? && a.id in s.workers && s.workers[a.id] == w
    requires w.phase.Ready? && w.phase.name in s.contexts
  {
    var name := w.phase.name;
    var destination := Published(w.request);
    if a.refused then InPhase(s, a.id, Cleaning(name, false))
    else if destination !in s.contexts || s.contexts[destination] == map[] then
      InPhase(s.(contexts := (s.contexts - {name})[destination := s.contexts[name]]), a.id, Cleaning(name, true))
    else InPhase(s, a.id, Cleaning(name, a.existed))
  }

  function Run(s: System, actions: seq<Action>, source: Source): System {
    if actions == [] then s
    else Act(Run(s, actions[..|actions| - 1], source), actions[|actions| - 1], source)
  }

  // ---------------------------------------------------------------- the invariant

  /** The request's complete materialization, if its manifest has one. */
  ghost predicate IsMaterialization(t: Tree, request: Request, source: Source) {
    source(request).Some? && Materialization(source(request).value) == Some(t)
  }

  /** A published directory is the complete materialization of exactly its request. */
  ghost predicate PublishedComplete(s: System, source: Source) {
    forall name :: name in s.contexts && name.Published? ==> IsMaterialization(s.contexts[name], name.request, source)
  }

  predicate HasName(p: Phase) { p.Filling? || p.Ready? || p.Cleaning? }

  /** A worker's staging directory is its own, by process and staging number. */
  ghost predicate OwnName(s: System, w: Worker) {
    HasName(w.phase) ==>
      && w.phase.name.Pending? && w.phase.name.request == w.request && w.phase.name.process == w.process
      && w.phase.name.generation < NextGeneration(s, w.process)
  }

  ghost predicate NamesApart(s: System) {
    forall i, j :: i in s.workers && j in s.workers && i != j && HasName(s.workers[i].phase) && HasName(s.workers[j].phase)
      ==> s.workers[i].phase.name != s.workers[j].phase.name
  }

  /** How far a worker's staging directory is. */
  ghost predicate Staged(s: System, w: Worker, source: Source) {
    match w.phase
    case Filling(name, placed, open) =>
      && name in s.contexts
      && (source(w.request).Some? ==>
            var entries := source(w.request).value;
            && placed <= |entries|
            && (open ==> placed < |entries| && entries[placed].FileEntry?)
            && Materialization(entries[..placed]).Some?
            && StagedTree(s.contexts[name], Materialization(entries[..placed]).value, entries, placed, open))
    case Ready(name) =>
      name in s.contexts && IsMaterialization(s.contexts[name], w.request, source)
    case Cleaning(_, ok) => ok ==> Published(w.request) in s.contexts
    case Finished(ok) => ok ==> Published(w.request) in s.contexts
    case _ => true
  }

  /** The staged tree is the placed entries, plus the file that is being written. */
  ghost predicate StagedTree(t: Tree, base: Tree, entries: seq<Entry>, placed: nat, open: bool)
    requires placed <= |entries| && (open ==> placed < |entries| && entries[placed].FileEntry?)
  {
    if !open then t == base
    else
      var e := entries[placed];
      BeginFile(base, e).Some? && exists part :: t == BeginFile(base, e).value[e.path := File(part, e.executable)]
  }

  ghost predicate Inv(s: System, source: Source) {
    && PublishedComplete(s, source)
    && NamesApart(s)
    && (forall id :: id in s.workers ==> OwnName(s, s.workers[id]) && Staged(s, s.workers[id], source))
  }

  // ---------------------------------------------------------------- every step keeps it

  /** A worker's facts survive a step that leaves its own directory, and every published one, in place. */
  lemma WorkerKept(s: System, s': System, w: Worker, source: Source)
    requires OwnName(s, w) && Staged(s, w, source)
    requires NextGeneration(s, w.process) <= NextGeneration(s', w.process)
    requires HasName(w.phase) && w.phase.name in s.contexts ==> w.phase.name in s'.contexts && s'.contexts[w.phase.name] == s.contexts[w.phase.name]
    requires Published(w.request) in s.contexts ==> Published(w.request) in s'.contexts
    ensures OwnName(s', w) && Staged(s', w, source)
  {
  }

  lemma ArriveKeeps(s: System, id: nat, request: Request, process: nat, source: Source)
    requires Inv(s, source)
    ensures Inv(Act(s, Arrive(id, request, process), source), source)
  {
    var s' := Act(s, Arrive(id, request, process), source);
    forall i | i in s'.workers ensures OwnName(s', s'.workers[i]) && Staged(s', s'.workers[i], source) {
      if i in s.workers { WorkerKept(s, s', s.workers[i], source); }
    }
  }

  lemma CrashKeeps(s: System, process: nat, source: Source)
    requires Inv(s, source)
    ensures Inv(Act(s, Crash(process), source), source)
  {
    var s' := Act(s, Crash(process), source);
    forall i | i in s'.workers ensures OwnName(s', s'.workers[i]) && Staged(s', s'.workers[i], source) {
      WorkerKept(s, s', s.workers[i], source);
    }
  }

  /** A step of one worker that touches no directory but its own. */
  lemma OwnStepKeeps(s: System, s': System, id: nat, source: Source)
    requires Inv(s, source) && id in s.workers && s'.workers.Keys == s.workers.Keys
    requires forall i :: i in s.workers && i != id ==> s'.workers[i] == s.workers[i]
    requires OwnName(s', s'.workers[id]) && Staged(s', s'.workers[id], source)
    requires forall p :: NextGeneration(s, p) <= NextGeneration(s', p)
    requires HasName(s'.workers[id].phase) ==>
      forall i :: i in s.workers && i != id && HasName(s.workers[i].phase) ==> s.workers[i].phase.name != s'.workers[id].phase.name
    requires forall i :: i in s.workers && i != id && HasName(s.workers[i].phase) && s.workers[i].phase.name in s.contexts ==>
      s.workers[i].phase.name in s'.contexts && s'.contexts[s.workers[i].phase.name] == s.contexts[s.workers[i].phase.name]
    requires PublishedComplete(s', source)
    requires forall n :: n in s.contexts && n.Published? ==> n in s'.contexts
    ensures Inv(s', source)
  {
    forall i | i in s'.workers ensures OwnName(s', s'.workers[i]) && Staged(s', s'.workers[i], source) {
      if i != id { WorkerKept(s, s', s.workers[i], source); }
    }
  }

  /** No other live worker uses the staging number that a process hands out next. */
  lemma CreateKeeps(s: System, id: nat, source: Source)
    requires Inv(s, source) && id in s.workers && s.workers[id].phase.Looked?
    ensures Inv(StagingCreated(s, id, s.workers[id]), source)
  {
    var w := s.workers[id];
    var s' := StagingCreated(s, id, w);
    var name := Pending(w.request, w.process, NextGeneration(s, w.process));
    forall i | i in s.workers && i != id && HasName(s.workers[i].phase)
      ensures s.workers[i].phase.name != name
    {
      assert OwnName(s, s.workers[i]);
    }
    if source(w.request).Some? { assert source(w.request).value[..0] == []; }
    OwnStepKeeps(s, s', id, source);
  }

  /** A worker's staging directory changes under its own name only. */
  lemma OwnDirectory(s: System, s': System, id: nat, t: Tree, phase: Phase, source: Source)
    requires Inv(s, source) && id in s.workers && HasName(s.workers[id].phase)
    requires HasName(phase) && phase.name == s.workers[id].phase.name && phase.name in s.contexts
    requires s' == InPhase(s.(contexts := s.contexts[phase.name := t]), id, phase)
    requires Staged(s', s'.workers[id], source)
    ensures Inv(s', source)
  {
    assert OwnName(s, s.workers[id]);
    OwnStepKeeps(s, s', id, source);
  }

  lemma FillKeeps(s: System, a: Action, source: Source)
    requires !a.Crash? && !a.Arrive? && a.id in s.workers
    requires Inv(s, source)
    requires s.workers[a.id].phase.Filling? && s.workers[a.id].phase.name in s.contexts
    ensures Inv(FillAct(s, a, s.workers[a.id], source), source)
  {
    var w := s.workers[a.id];
    var s' := FillAct(s, a, w, source);
    var Filling(name, placed, open) := w.phase;
    var t := s.contexts[name];
    assert OwnName(s, w) && Staged(s, w, source);
    assert s.contexts[name := t] == s.contexts;
    if s' == s {
    } else if s'.workers[a.id].phase == Cleaning(name, false) {
      OwnDirectory(s, s', a.id, t, Cleaning(name, false), source);
    } else {
      var entries := source(w.request).value;
      if placed >= |entries| {
        assert entries[..placed] == entries;
        OwnDirectory(s, s', a.id, t, Ready(name), source);
      } else {
        var e := entries[placed];
        assert entries[..placed + 1][..placed] == entries[..placed];
        assert entries[..placed + 1][placed] == e;
        if a.Place? {
          if e.FileEntry? {
            var begun := BeginFile(t, e).value;
            assert begun == begun[e.path := File("", e.executable)];
            OwnDirectory(s, s', a.id, begun, Filling(name, placed, true), source);
          } else {
            OwnDirectory(s, s', a.id, Placed(t, e).value, Filling(name, placed + 1, false), source);
          }
        } else {
          var base := Materialization(entries[..placed]).value;
          var begun := BeginFile(base, e).value;
          var content := if a.Write? then a.part else e.content;
          assert t[e.path := File(content, e.executable)] == begun[e.path := File(content, e.executable)];
          OwnDirectory(s, s', a.id, t[e.path := File(content, e.executable)],
                       if a.Write? then w.phase else Filling(name, placed + 1, false), source);
        }
      }
    }
  }

  lemma RenameKeeps(s: System, a: Action, source: Source)
    requires a.Rename? && a.id in s.workers
    requires Inv(s, source)
    requires s.workers[a.id].phase.Ready? && s.workers[a.id].phase.name in s.contexts
    ensures Inv(Renamed(s, a, s.workers[a.id]), source)
  {
    assert OwnName(s, s.workers[a.id]) && Staged(s, s.workers[a.id], source);
    OwnStepKeeps(s, Renamed(s, a, s.workers[a.id]), a.id, source);
  }

  lemma CleaningKeeps(s: System, a: Action, source: Source)
    requires !a.Crash? && !a.Arrive? && a.id in s.workers
    requires Inv(s, source) && s.workers[a.id].phase.Cleaning?
    ensures Inv(WorkerAct(s, a, s.workers[a.id], source), source)
  {
    assert OwnName(s, s.workers[a.id]) && Staged(s, s.workers[a.id], source);
    var s' := WorkerAct(s, a, s.workers[a.id], source);
    if s' != s { OwnStepKeeps(s, s', a.id, source); }
  }

  lemma LookKeeps(s: System, a: Action, source: Source)
    requires a.Look? && a.id in s.workers
    requires Inv(s, source) && s.workers[a.id].phase.Entered?
    ensures Inv(WorkerAct(s, a, s.workers[a.id], source), source)
  {
    OwnStepKeeps(s, WorkerAct(s, a, s.workers[a.id], source), a.id, source);
  }

  lemma ActKeeps(s: System, a: Action, source: Source)
    requires Inv(s, source)
    ensures Inv(Act(s, a, source), source)
  {
    match a
    case Arrive(id, request, process) => ArriveKeeps(s, id, request, process, source);
    case Crash(process) => CrashKeeps(s, process, source);
    case _ =>
      var id := a.id;
      if id in s.workers {
        var w := s.workers[id];
        assert Staged(s, w, source);
        match w.phase
        case Entered => if a.Look? { LookKeeps(s, a, source); }
        case Looked => if a.CreateStaging? { CreateKeeps(s, id, source); }
        case Filling(_, _, _) => FillKeeps(s, a, source);
        case Ready(_) => if a.Rename? { RenameKeeps(s, a, source); }
        case Cleaning(_, _) => CleaningKeeps(s, a, source);
        case Finished(_) =>
      }
  }

  /** Published directories are complete in every reachable state, under any interleaving and any crashes. */
  lemma {:induction false} RunKeeps(s: System, actions: seq<Action>, source: Source)
    requires Inv(s, source)
    ensures Inv(Run(s, actions, source), source)
  {
    if actions != [] {
      RunKeeps(s, actions[..|actions| - 1], source);
      ActKeeps(Run(s, actions[..|actions| - 1], source), actions[|actions| - 1], source);
    }
  }

  lemma EmptySystemInv(source: Source)
    ensures Inv(System(map[], map[], map[]), source)
  {
  }

  /** Once published, a context stays published with the same content. */
  lemma PublishedStays(s: System, a: Action, request: Request, source: Source)
    requires Inv(s, source) && Published(request) in s.contexts
    ensures var s' := Act(s, a, source);
      Published(request) in s'.contexts && s'.contexts[Published(request)] == s.contexts[Published(request)]
  {
    if !a.Arrive? && !a.Crash? && a.id in s.workers {
      var w := s.workers[a.id];
      assert OwnName(s, w) && Staged(s, w, source);
      assert IsMaterialization(s.contexts[Published(request)], request, source);
    }
  }

  lemma {:induction false} PublishedForever(s: System, actions: seq<Action>, request: Request, source: Source)
    requires Inv(s, source) && Published(request) in s.contexts
    ensures var s' := Run(s, actions, source);
      && Published(request) in s'.contexts && s'.contexts[Published(request)] == s.contexts[Published(request)]
      && IsMaterialization(s'.contexts[Published(request)], request, source)
  {
    if actions != [] {
      var init := actions[..|actions| - 1];
      PublishedForever(s, init, request, source);
      RunKeeps(s, init, source);
      PublishedStays(Run(s, init, source), actions[|actions| - 1], request, source);
    }
  }

  /** A worker that reports success leaves its own request published, whoever won the race. */
  lemma SuccessMeansPublished(s: System, actions: seq<Action>, id: nat, source: Source)
    requires Inv(s, source)
    requires var s' := Run(s, actions, source); id in s'.workers && s'.workers[id].phase == Finished(true)
    ensures var s' := Run(s, actions, source);
      var request := s'.workers[id].request;
      Published(request) in s'.contexts && IsMaterialization(s'.contexts[Published(request)], request, source)
  {
    RunKeeps(s, actions, source);
    var s' := Run(s, actions, source);
    assert Staged(s', s'.workers[id], source);
  }

  // ---------------------------------------------------------------- names as file names

  /** The file name of a name, given the digest that names requests. */
  function FileName(name: Name, digest: Request -> string): string {
    match name
    case Published(request) => digest(request)
    case Pending(request, process, generation) =>
      ".pending-" + digest(request) + "-" + Decimals(process) + "-" + Decimals(generation)
  }

  /** Context ids: the digest is injective and 64 lower-case hexadecimal digits. */
  ghost predicate IsContextDigest(digest: Request -> string) {
    && (forall r :: |digest(r)| == 64 && forall c :: c in digest(r) ==> IsLowerHex(c))
    && (forall r, q :: digest(r) == digest(q) ==> r == q)
  }

  lemma PendingFilesApart(m: Name, n: Name, digest: Request -> string)
    requires IsContextDigest(digest) && m.Pending? && n.Pending?
    requires FileName(m, digest) == FileName(n, digest)
    ensures m == n
  {
    var dm, dn := digest(m.request), digest(n.request);
    var xm, xn := Decimals(m.process) + "-" + Decimals(m.generation), Decimals(n.process) + "-" + Decimals(n.generation);
    assert FileName(m, digest)[9..] == dm + "-" + xm;
    assert FileName(n, digest)[9..] == dn + "-" + xn;
    assert !IsLowerHex('-');
    SplitAtFirst('-', dm, dn, xm, xn);
    SplitAtFirst('-', Decimals(m.process), Decimals(n.process), Decimals(m.generation), Decimals(n.generation));
    DecimalsInjective(m.process, n.process);
    DecimalsInjective(m.generation, n.generation);
  }

  /** Different names are different files; in particular no pending directory is ever found under a context id. */
  lemma FileNamesApart(m: Name, n: Name, digest: Request -> string)
    requires IsContextDigest(digest)
    ensures FileName(m, digest) == FileName(n, digest) <==> m == n
  {
    assert !IsLowerHex('.');
    if m.Pending? && n.Pending? {
      if FileName(m, digest) == FileName(n, digest) { PendingFilesApart(m, n, digest); }
    } else if m.Pending? {
      assert FileName(m, digest)[0] == '.' && FileName(n, digest)[0] in digest(n.request);
    } else if n.Pending? {
      assert FileName(n, digest)[0] == '.' && FileName(m, digest)[0] in digest(m.request);
    }
  }
}
