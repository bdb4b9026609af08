/**
 The action builder's state directory: for each cache id an image archive and a resolution
 file that names the built image. `handle` changes them one file operation at a time and
 may stop between any two of them.
 */
module BuildCache {
  import opened Results
  import opened Text
  import opened Validation

  const MAX_OCI_ARCHIVE_BYTES: nat := 4 * 1024 * 1024 * 1024

  datatype Archive = Archive(content: string, bytes: nat)

  /** A resolution file is created empty and then filled: `Torn` is every content short of the whole. */
  datatype Resolution = Torn | Complete(image: string)

  /** What has happened, in order. `guarded` says that an admitter was configured. */
  datatype Event =
    | Built(cacheId: string, image: string, archive: Archive)
    | Admitted(cacheId: string, image: string, archive: Archive)
    | Recorded(cacheId: string, image: string, guarded: bool)
    | Answered(cacheId: string, image: string, guarded: bool)

  datatype Disk = Disk(
    resolutions: map<string, Resolution>, archives: map<string, Archive>,
    pending: map<(string, nat), Archive>, log: seq<Event>)

  datatype BuildRequest = BuildRequest(cacheId: string, processId: nat, guarded: bool)

  /** What BuildKit does: an archive may be written in part before it is written whole. */
  datatype BuildOutcome =
    | CannotStart
    | Failed(partial: Archive)
    | NoDigest(archive: Archive)
    | Produced(partial: Archive, archive: Archive, image: string)

  datatype Outcome = Outcome(build: BuildOutcome, admits: bool)

  datatype Refusal =
    | InvalidResolution | InvalidArchive | AdmissionRejected | BuildFailed | NoImageDigest | MutableImage | Interrupted

  // ---------------------------------------------------------------- file operations

  datatype Op =
    | DropPending
    | WritePending(archive: Archive)
    | FinishBuild(image: string)       // the build succeeded with this image
    | DropArchive
    | PublishArchive                   // rename of the pending archive
    | Admit(image: string)             // the admitter accepted the image and the stored archive
    | CreateResolution
    | FillResolution(image: string)
    | Answer(image: string)

  predicate ValidArchive(a: Archive) { 0 < a.bytes <= MAX_OCI_ARCHIVE_BYTES }

  function Apply(d: Disk, q: BuildRequest, op: Op): Disk {
    var key := (q.cacheId, q.processId);
    match op
    case DropPending => d.(pending := d.pending - {key})
    case WritePending(a) => d.(pending := d.pending[key := a])
    case FinishBuild(image) =>
      if key in d.pending then d.(log := d.log + [Built(q.cacheId, image, d.pending[key])]) else d
    case DropArchive => d.(archives := d.archives - {q.cacheId})
    case PublishArchive =>
      if key in d.pending then d.(archives := d.archives[q.cacheId := d.pending[key]], pending := d.pending - {key}) else d
    case Admit(image) =>
      if q.cacheId in d.archives then d.(log := d.log + [Admitted(q.cacheId, image, d.archives[q.cacheId])]) else d
    case CreateResolution => d.(resolutions := d.resolutions[q.cacheId := Torn])
    case FillResolution(image) =>
      d.(resolutions := d.resolutions[q.cacheId := Complete(image)], log := d.log + [Recorded(q.cacheId, image, q.guarded)])
    case Answer(image) => d.(log := d.log + [Answered(q.cacheId, image, q.guarded)])
  }

  /** The disk after the first `k` operations. */
  function After(d: Disk, q: BuildRequest, ops: seq<Op>, k: nat): Disk
    requires k <= |ops|
  {
    if k == 0 then d else Apply(After(d, q, ops, k - 1), q, ops[k - 1])
  }

  // ---------------------------------------------------------------- what a request does

  /** The cached answer: nothing on disk changes. */
  function CachedPlan(d: Disk, q: BuildRequest, o: Outcome): (seq<Op>, Result<string, Refusal>)
    requires q.cacheId in d.resolutions
  {
    match d.resolutions[q.cacheId]
    case Torn => ([], Err(InvalidResolution))
    case Complete(image) =>
      if !ImmutableImage(image) then ([], Err(InvalidResolution))
      else if q.cacheId !in d.archives || !ValidArchive(d.archives[q.cacheId]) then ([], Err(InvalidArchive))
      else if q.guarded && !o.admits then ([], Err(AdmissionRejected))
      else ((if q.guarded then [Admit(image)] else []) + [Answer(image)], Ok(image))
  }

  /** A fresh build: archive, admission and resolution, in this order. */
  function BuildPlan(q: BuildRequest, o: Outcome): (seq<Op>, Result<string, Refusal>) {
    match o.build
    case CannotStart => ([DropPending], Err(BuildFailed))
    case Failed(partial) => ([DropPending, WritePending(partial), DropPending], Err(BuildFailed))
    case NoDigest(archive) => ([DropPending, WritePending(archive)], Err(NoImageDigest))
    case Produced(partial, archive, image) =>
      var written := [DropPending, WritePending(partial), WritePending(archive), FinishBuild(image)];
      if !ImmutableImage(image) then (written + [DropPending], Err(MutableImage))
      else if !ValidArchive(archive) then (written, Err(InvalidArchive))
      else
        var stored := written + [DropArchive, PublishArchive];
        if q.guarded && !o.admits then (stored, Err(AdmissionRejected))
        else
          (stored + (if q.guarded then [Admit(image)] else []) + [CreateResolution, FillResolution(image), Answer(image)],
           Ok(image))
  }

  function Plan(d: Disk, q: BuildRequest, o: Outcome): (seq<Op>, Result<string, Refusal>) {
    if q.cacheId in d.resolutions then CachedPlan(d, q, o) else BuildPlan(q, o)
  }

  /** Only the first `cut` operations happen: the process crashed or the next operation failed. */
  function Handled(d: Disk, q: BuildRequest, o: Outcome, cut: nat): (Disk, Result<string, Refusal>) {
    var (ops, reply) := Plan(d, q, o);
    if cut < |ops| then (After(d, q, ops, cut), Err(Interrupted)) else (After(d, q, ops, |ops|), reply)
  }

  // ---------------------------------------------------------------- the invariant

  /** A complete resolution names an image whose archive is the one stored under the same id. */
  predicate ResolutionHonest(d: Disk, id: string) {
    id in d.resolutions && d.resolutions[id].Complete? ==>
      var image := d.resolutions[id].image;
      && ImmutableImage(image)
      && id in d.archives && ValidArchive(d.archives[id])
      && Built(id, image, d.archives[id]) in d.log
  }

  predicate EventHonest(d: Disk, e: Event) {
    match e
    case Built(_, _, _) => true
    case Admitted(_, _, _) => true
    case Recorded(id, image, guarded) =>
      && id in d.resolutions && d.resolutions[id] == Complete(image)
      && (guarded ==> id in d.archives && Admitted(id, image, d.archives[id]) in d.log)
    case Answered(id, image, guarded) =>
      && id in d.resolutions && d.resolutions[id] == Complete(image)
      && (guarded ==> id in d.archives && Admitted(id, image, d.archives[id]) in d.log)
  }

  /** Who filled the resolution: a request with this setting wrote the image into it. */
  predicate FilledBy(d: Disk, id: string, guarded: bool) {
    id in d.resolutions && d.resolutions[id].Complete? && Recorded(id, d.resolutions[id].image, guarded) in d.log
  }

  /** Every complete resolution was filled, once. */
  predicate FilledOnce(d: Disk, id: string) {
    id in d.resolutions && d.resolutions[id].Complete? ==> FilledBy(d, id, true) != FilledBy(d, id, false)
  }

  ghost predicate Consistent(d: Disk) {
    && (forall id :: ResolutionHonest(d, id) && FilledOnce(d, id))
    && (forall e :: e in d.log ==> EventHonest(d, e))
  }

  /** The moment at which an operation may be performed without breaking the invariant. */
  predicate Enabled(d: Disk, q: BuildRequest, op: Op) {
    match op
    case DropPending => true
    case WritePending(_) => true
    case FinishBuild(_) => true
    case Admit(_) => true
    case DropArchive => q.cacheId !in d.resolutions
    case PublishArchive => q.cacheId !in d.resolutions
    case CreateResolution => q.cacheId !in d.resolutions
    case FillResolution(image) =>
      && q.cacheId in d.resolutions && d.resolutions[q.cacheId].Torn?
      && ImmutableImage(image)
      && q.cacheId in d.archives && ValidArchive(d.archives[q.cacheId])
      && Built(q.cacheId, image, d.archives[q.cacheId]) in d.log
      && (q.guarded ==> Admitted(q.cacheId, image, d.archives[q.cacheId]) in d.log)
    case Answer(image) =>
      && q.cacheId in d.resolutions && d.resolutions[q.cacheId] == Complete(image)
      && (q.guarded ==> q.cacheId in d.archives && Admitted(q.cacheId, image, d.archives[q.cacheId]) in d.log)
  }

  /** A torn resolution has never been filled. */
  lemma FirstFilling(d: Disk, q: BuildRequest, image: string)
    requires Consistent(d) && q.cacheId in d.resolutions && d.resolutions[q.cacheId].Torn?
    ensures forall g :: Recorded(q.cacheId, image, g) !in d.log
  {
    forall g ensures Recorded(q.cacheId, image, g) !in d.log {
      assert Recorded(q.cacheId, image, g) in d.log ==> EventHonest(d, Recorded(q.cacheId, image, g));
    }
  }

  lemma OpConsistent(d: Disk, q: BuildRequest, op: Op)
    requires Consistent(d) && Enabled(d, q, op)
    ensures Consistent(Apply(d, q, op))
  {
    var d' := Apply(d, q, op);
    assert d.log <= d'.log;
    forall id ensures ResolutionHonest(d', id) && FilledOnce(d', id) {
      assert ResolutionHonest(d, id) && FilledOnce(d, id);
      if op.FillResolution? && id == q.cacheId { FirstFilling(d, q, op.image); }
    }
    forall e | e in d'.log ensures EventHonest(d', e) {
      if e in d.log { assert EventHonest(d, e); }
    }
  }

  ghost predicate AllEnabled(d: Disk, q: BuildRequest, ops: seq<Op>) {
    forall k :: 0 <= k < |ops| ==> Enabled(After(d, q, ops, k), q, ops[k])
  }

  /** Every prefix of enabled operations leaves the disk consistent. */
  lemma {:induction false} SafeAtEveryCut(d: Disk, q: BuildRequest, ops: seq<Op>, cut: nat)
    requires Consistent(d) && AllEnabled(d, q, ops) && cut <= |ops|
    ensures Consistent(After(d, q, ops, cut))
  {
    if cut > 0 {
      SafeAtEveryCut(d, q, ops, cut - 1);
      OpConsistent(After(d, q, ops, cut - 1), q, ops[cut - 1]);
    }
  }

  lemma CachedEnabled(d: Disk, q: BuildRequest, o: Outcome)
    requires q.cacheId in d.resolutions
    ensures AllEnabled(d, q, CachedPlan(d, q, o).0)
  {
  }

  /** The first six operations of a build that goes through: resolutions stay, the stored archive is this build's. */
  lemma StoredBy(d: Disk, q: BuildRequest, partial: Archive, archive: Archive, image: string, ops: seq<Op>)
    requires [DropPending, WritePending(partial), WritePending(archive), FinishBuild(image), DropArchive, PublishArchive] <= ops
    ensures forall k :: 0 <= k <= 6 ==> After(d, q, ops, k).resolutions == d.resolutions
    ensures var d6 := After(d, q, ops, 6);
      && q.cacheId in d6.archives && d6.archives[q.cacheId] == archive
      && Built(q.cacheId, image, archive) in d6.log
  {
    assert ops[0] == DropPending && ops[1] == WritePending(partial) && ops[2] == WritePending(archive);
    assert ops[3] == FinishBuild(image) && ops[4] == DropArchive && ops[5] == PublishArchive;
    var d1, d2, d3 := After(d, q, ops, 1), After(d, q, ops, 2), After(d, q, ops, 3);
    assert d1 == Apply(After(d, q, ops, 0), q, ops[0]);
    assert d1.resolutions == d2.resolutions == d3.resolutions == d.resolutions;
    assert d3.pending[(q.cacheId, q.processId)] == archive;
    var d4, d5 := After(d, q, ops, 4), After(d, q, ops, 5);
    assert d4.log == d3.log + [Built(q.cacheId, image, archive)];
  }

  lemma BuildEnabled(d: Disk, q: BuildRequest, o: Outcome)
    requires q.cacheId !in d.resolutions
    ensures AllEnabled(d, q, BuildPlan(q, o).0)
  {
    var ops := BuildPlan(q, o).0;
    if o.build.Produced? && ImmutableImage(o.build.image) && ValidArchive(o.build.archive) {
      StoredBy(d, q, o.build.partial, o.build.archive, o.build.image, ops);
      if !(q.guarded && !o.admits) {
        RecordEnabled(d, q, o, ops, if q.guarded then 7 else 6);
      }
    }
  }

  /** The resolution is created, filled and answered for the archive stored before it. */
  lemma RecordEnabled(d: Disk, q: BuildRequest, o: Outcome, ops: seq<Op>, k: nat)
    requires o.build.Produced? && ImmutableImage(o.build.image) && ValidArchive(o.build.archive)
    requires !(q.guarded && !o.admits) && ops == BuildPlan(q, o).0
    requires k == if q.guarded then 7 else 6
    requires q.cacheId !in d.resolutions
    requires var d6 := After(d, q, ops, 6);
      && d6.resolutions == d.resolutions
      && q.cacheId in d6.archives && d6.archives[q.cacheId] == o.build.archive
      && Built(q.cacheId, o.build.image, o.build.archive) in d6.log
    ensures |ops| == k + 3
    ensures forall j :: 6 <= j < |ops| ==> Enabled(After(d, q, ops, j), q, ops[j])
    ensures var d' := After(d, q, ops, |ops|);
      && q.cacheId in d'.resolutions && d'.resolutions[q.cacheId] == Complete(o.build.image)
      && d'.log != [] && d'.log[|d'.log| - 1] == Answered(q.cacheId, o.build.image, q.guarded)
  {
    var image := o.build.image;
    var d6, dk := After(d, q, ops, 6), After(d, q, ops, k);
    assert dk.resolutions == d6.resolutions && dk.archives == d6.archives && d6.log <= dk.log;
    assert q.guarded ==> Admitted(q.cacheId, image, o.build.archive) in dk.log;
    assert ops[k] == CreateResolution && ops[k + 1] == FillResolution(image) && ops[k + 2] == Answer(image);
    var d8, d9 := After(d, q, ops, k + 1), After(d, q, ops, k + 2);
    assert d8 == dk.(resolutions := dk.resolutions[q.cacheId := Torn]);
    assert Enabled(d8, q, ops[k + 1]);
    assert Enabled(d9, q, ops[k + 2]);
  }

  /** Wherever a request stops, the disk is consistent. */
  lemma HandledConsistent(d: Disk, q: BuildRequest, o: Outcome, cut: nat)
    requires Consistent(d)
    ensures Consistent(Handled(d, q, o, cut).0)
  {
    if q.cacheId in d.resolutions { CachedEnabled(d, q, o); } else { BuildEnabled(d, q, o); }
    var ops := Plan(d, q, o).0;
    SafeAtEveryCut(d, q, ops, if cut < |ops| then cut else |ops|);
  }

  // ---------------------------------------------------------------- whole runs

  /** One request served, with what the world did and where the process stopped. */
  datatype Turn = Turn(q: BuildRequest, o: Outcome, cut: nat)

  /** The builder serves one request at a time; a crash only ends the current one. */
  function Served(d: Disk, turns: seq<Turn>): Disk {
    if turns == [] then d
    else
      var last := turns[|turns| - 1];
      Handled(Served(d, turns[..|turns| - 1]), last.q, last.o, last.cut).0
  }

  /** Over any sequence of requests, crashes and failures the state directory stays consistent. */
  lemma {:induction false} ServedConsistent(d: Disk, turns: seq<Turn>)
    requires Consistent(d)
    ensures Consistent(Served(d, turns))
  {
    if turns != [] {
      var init, last := turns[..|turns| - 1], turns[|turns| - 1];
      ServedConsistent(d, init);
      HandledConsistent(Served(d, init), last.q, last.o, last.cut);
    }
  }

  const EMPTY: Disk := Disk(map[], map[], map[], [])

  lemma EmptyDiskConsistent()
    ensures Consistent(EMPTY)
  {
  }

  /** A turn for this cache id by a builder with or without an admitter. */
  predicate TurnOf(t: Turn, id: string, guarded: bool) { t.q.cacheId == id && t.q.guarded == guarded }

  lemma {:induction false} FillingsByOps(d: Disk, q: BuildRequest, ops: seq<Op>, k: nat, id: string, image: string, guarded: bool)
    requires k <= |ops| && Recorded(id, image, guarded) in After(d, q, ops, k).log && Recorded(id, image, guarded) !in d.log
    ensures q.cacheId == id && q.guarded == guarded
  {
    if k > 0 && Recorded(id, image, guarded) in After(d, q, ops, k - 1).log {
      FillingsByOps(d, q, ops, k - 1, id, image, guarded);
    }
  }

  /** Whatever the log says was filled, some turn filled it. */
  lemma {:induction false} FillingsByTurns(turns: seq<Turn>, id: string, image: string, guarded: bool)
    requires Recorded(id, image, guarded) in Served(EMPTY, turns).log
    ensures exists i :: 0 <= i < |turns| && TurnOf(turns[i], id, guarded)
  {
    if turns != [] {
      var init, last := turns[..|turns| - 1], turns[|turns| - 1];
      var before := Served(EMPTY, init);
      if Recorded(id, image, guarded) in before.log {
        FillingsByTurns(init, id, image, guarded);
        var i :| 0 <= i < |init| && TurnOf(init[i], id, guarded);
        assert TurnOf(turns[i], id, guarded);
      } else {
        var ops := Plan(before, last.q, last.o).0;
        FillingsByOps(before, last.q, ops, if last.cut < |ops| then last.cut else |ops|, id, image, guarded);
        assert TurnOf(turns[|turns| - 1], id, guarded);
      }
    }
  }

  /**
   From an empty directory, over any turns: a complete resolution names an image built into the
   stored archive. It was filled by exactly one kind of request, one that some turn made, and if
   an admitter was configured then, the image was admitted for the stored archive.
   */
  lemma {:induction false} CompleteIsAdmitted(turns: seq<Turn>, id: string)
    requires var d := Served(EMPTY, turns); id in d.resolutions && d.resolutions[id].Complete?
    ensures var d := Served(EMPTY, turns);
      var image := d.resolutions[id].image;
      && ImmutableImage(image)
      && id in d.archives && Built(id, image, d.archives[id]) in d.log
      && FilledBy(d, id, true) != FilledBy(d, id, false)
      && (FilledBy(d, id, true) ==> Admitted(id, image, d.archives[id]) in d.log)
      && forall g :: FilledBy(d, id, g) ==> exists i :: 0 <= i < |turns| && TurnOf(turns[i], id, g)
  {
    EmptyDiskConsistent();
    ServedConsistent(EMPTY, turns);
    var d := Served(EMPTY, turns);
    var image := d.resolutions[id].image;
    assert ResolutionHonest(d, id) && FilledOnce(d, id);
    if FilledBy(d, id, true) { assert EventHonest(d, Recorded(id, image, true)); }
    forall g | FilledBy(d, id, g) ensures exists i :: 0 <= i < |turns| && TurnOf(turns[i], id, g) {
      FillingsByTurns(turns, id, image, g);
    }
  }

  /** With an admitter configured throughout, every complete resolution names an image admitted for the stored archive. */
  lemma GuardedThroughout(turns: seq<Turn>, id: string)
    requires forall i :: 0 <= i < |turns| && turns[i].q.cacheId == id ==> turns[i].q.guarded
    requires var d := Served(EMPTY, turns); id in d.resolutions && d.resolutions[id].Complete?
    ensures var d := Served(EMPTY, turns);
      id in d.archives && Admitted(id, d.resolutions[id].image, d.archives[id]) in d.log
  {
    CompleteIsAdmitted(turns, id);
  }

  /** A successful reply is recorded, names the resolution, and was admitted when an admitter is configured. */
  lemma OkReply(d: Disk, q: BuildRequest, o: Outcome, cut: nat, image: string)
    requires Consistent(d)
    requires Handled(d, q, o, cut).1 == Ok(image)
    ensures var d' := Handled(d, q, o, cut).0;
      && Answered(q.cacheId, image, q.guarded) in d'.log
      && q.cacheId in d'.resolutions && d'.resolutions[q.cacheId] == Complete(image)
      && q.cacheId in d'.archives && Built(q.cacheId, image, d'.archives[q.cacheId]) in d'.log
      && (q.guarded ==> Admitted(q.cacheId, image, d'.archives[q.cacheId]) in d'.log)
  {
    HandledConsistent(d, q, o, cut);
    var d' := Handled(d, q, o, cut).0;
    var ops := Plan(d, q, o).0;
    if q.cacheId !in d.resolutions {
      StoredBy(d, q, o.build.partial, o.build.archive, o.build.image, ops);
      RecordEnabled(d, q, o, ops, if q.guarded then 7 else 6);
    }
    assert d'.log[|d'.log| - 1] == Answered(q.cacheId, image, q.guarded);
    assert EventHonest(d', Answered(q.cacheId, image, q.guarded));
    assert ResolutionHonest(d', q.cacheId);
  }

  lemma {:induction false} LogKeptByOps(d: Disk, q: BuildRequest, ops: seq<Op>, k: nat)
    requires k <= |ops|
    ensures d.log <= After(d, q, ops, k).log
  {
    if k > 0 { LogKeptByOps(d, q, ops, k - 1); }
  }

  lemma {:induction false} LogKept(d: Disk, turns: seq<Turn>)
    ensures d.log <= Served(d, turns).log
  {
    if turns != [] {
      var init, last := turns[..|turns| - 1], turns[|turns| - 1];
      LogKept(d, init);
      var before := Served(d, init);
      var ops := Plan(before, last.q, last.o).0;
      LogKeptByOps(before, last.q, ops, if last.cut < |ops| then last.cut else |ops|);
    }
  }

  /** All successful replies for one cache id, however far apart, name the same image. */
  lemma SameImage(d: Disk, first: Turn, between: seq<Turn>, second: Turn)
    requires Consistent(d) && first.q.cacheId == second.q.cacheId
    requires Handled(d, first.q, first.o, first.cut).1.Ok?
    requires var d1 := Handled(d, first.q, first.o, first.cut).0;
      Handled(Served(d1, between), second.q, second.o, second.cut).1.Ok?
    ensures var (d1, r1) := Handled(d, first.q, first.o, first.cut);
      Handled(Served(d1, between), second.q, second.o, second.cut).1 == r1
  {
    var (d1, r1) := Handled(d, first.q, first.o, first.cut);
    OkReply(d, first.q, first.o, first.cut, r1.value);
    HandledConsistent(d, first.q, first.o, first.cut);
    LogKept(d1, between);
    ServedConsistent(d1, between);
    var d2 := Served(d1, between);
    var (d3, r2) := Handled(d2, second.q, second.o, second.cut);
    OkReply(d2, second.q, second.o, second.cut, r2.value);
    HandledConsistent(d2, second.q, second.o, second.cut);
    LogKept(d2, [second]);
    assert [second][..0] == [];
    assert Served(d2, [second]) == d3;
    var e := Answered(first.q.cacheId, r1.value, first.q.guarded);
    assert e in d1.log && e in d2.log && e in d3.log;
    assert EventHonest(d3, e);
  }

  lemma {:induction false} OpsFrozen(d: Disk, q: BuildRequest, ops: seq<Op>, k: nat, id: string)
    requires id in d.resolutions && k <= |ops|
    requires id == q.cacheId ==> forall op :: op in ops ==> op.Admit? || op.Answer?
    ensures var d' := After(d, q, ops, k);
      && id in d'.resolutions && d'.resolutions[id] == d.resolutions[id]
      && (id in d'.archives <==> id in d.archives)
      && (id in d.archives ==> d'.archives[id] == d.archives[id])
  {
    if k > 0 {
      OpsFrozen(d, q, ops, k - 1, id);
      assert ops[k - 1] in ops;
    }
  }

  /** Once an id has a resolution, whole or torn, its resolution and its archive never change. */
  lemma {:induction false} Frozen(d: Disk, turns: seq<Turn>, id: string)
    requires id in d.resolutions
    ensures var d' := Served(d, turns);
      && id in d'.resolutions && d'.resolutions[id] == d.resolutions[id]
      && (id in d'.archives <==> id in d.archives)
      && (id in d.archives ==> d'.archives[id] == d.archives[id])
  {
    if turns != [] {
      var init, last := turns[..|turns| - 1], turns[|turns| - 1];
      Frozen(d, init, id);
      var before := Served(d, init);
      var ops := Plan(before, last.q, last.o).0;
      OpsFrozen(before, last.q, ops, if last.cut < |ops| then last.cut else |ops|, id);
    }
  }

  /** A torn resolution is never answered and never repaired: every later request for its id is refused. */
  lemma TornRefused(d: Disk, turns: seq<Turn>, q: BuildRequest, o: Outcome, cut: nat)
    requires q.cacheId in d.resolutions && d.resolutions[q.cacheId] == Torn
    ensures Handled(Served(d, turns), q, o, cut) == (Served(d, turns), Err(InvalidResolution))
  {
    Frozen(d, turns, q.cacheId);
  }

  /** Where a request can stop and leave a torn resolution: between creating the file and filling it, and nowhere else. */
  lemma TornExactly(d: Disk, q: BuildRequest, o: Outcome, cut: nat)
    requires q.cacheId !in d.resolutions
    ensures var d' := Handled(d, q, o, cut).0;
      q.cacheId in d'.resolutions && d'.resolutions[q.cacheId].Torn? <==>
        && o.build.Produced? && ImmutableImage(o.build.image) && ValidArchive(o.build.archive)
        && (q.guarded ==> o.admits) && cut == if q.guarded then 8 else 7
  {
    var ops := BuildPlan(q, o).0;
    var end := if cut < |ops| then cut else |ops|;
    if o.build.Produced? && ImmutableImage(o.build.image) && ValidArchive(o.build.archive) && (q.guarded ==> o.admits) {
      var k := if q.guarded then 7 else 6;
      assert ops[k] == CreateResolution && ops[k + 1] == FillResolution(o.build.image) && ops[k + 2] == Answer(o.build.image);
      if end <= k {
        ResolutionsKept(d, q, ops, end);
      } else {
        ResolutionsKept(d, q, ops, k);
        var d1, d2, d3 := After(d, q, ops, k + 1), After(d, q, ops, k + 2), After(d, q, ops, |ops|);
        assert d1 == Apply(After(d, q, ops, k), q, CreateResolution);
        assert d2 == Apply(d1, q, FillResolution(o.build.image));
        assert d3 == Apply(d2, q, Answer(o.build.image));
      }
    } else {
      ResolutionsKept(d, q, ops, end);
    }
  }

  lemma {:induction false} ResolutionsKept(d: Disk, q: BuildRequest, ops: seq<Op>, k: nat)
    requires k <= |ops| && forall i :: 0 <= i < k ==> !ops[i].CreateResolution? && !ops[i].FillResolution?
    ensures After(d, q, ops, k).resolutions == d.resolutions
  {
    if k > 0 { ResolutionsKept(d, q, ops, k - 1); }
  }

  // ---------------------------------------------------------------- a resolution that cannot be read

  /**
   The same request when the first read of the resolution may fail although the file exists: the
   builder then builds, and stops where the file to create is already there.
   */
  function HandledReading(d: Disk, q: BuildRequest, o: Outcome, cut: nat, readable: bool): (Disk, Result<string, Refusal>) {
    if readable || q.cacheId !in d.resolutions then Handled(d, q, o, cut)
    else
      var (ops, reply) := BuildPlan(q, o);
      var create := if q.guarded then 7 else 6;
      var end := if create < |ops| then create else |ops|;
      if cut < end then (After(d, q, ops, cut), Err(Interrupted))
      else if end < |ops| then (After(d, q, ops, end), Err(Interrupted))
      else (After(d, q, ops, end), reply)
  }

  /** An archive longer than any that the log mentions. */
  function Longest(log: seq<Event>): nat {
    if log == [] then 0
    else
      var rest, e := Longest(log[..|log| - 1]), log[|log| - 1];
      if e.Built? && |e.archive.content| >= rest then |e.archive.content| + 1 else rest
  }

  lemma {:induction false} LongestIsNew(log: seq<Event>, e: Event)
    requires e in log && e.Built?
    ensures |e.archive.content| < Longest(log)
  {
    var n := |log| - 1;
    if e != log[n] {
      assert e in log[..n];
      LongestIsNew(log[..n], e);
    }
  }

  /** A build whose archive and image the log does not know. */
  function Unrelated(d: Disk, named: string): Outcome {
    var archive := Archive(seq(Longest(d.log), _ => 'x'), 1);
    Outcome(Produced(archive, archive, "x" + named), true)
  }

  lemma AnotherImage(named: string)
    requires ImmutableImage(named)
    ensures ImmutableImage("x" + named) && "x" + named != named
  {
    var (repository, digest) := RSplitOnce(named, SHA256_MARK).value;
    assert "x" + named == ("x" + repository) + SHA256_MARK + digest;
    PinnedImageParts("x" + repository, digest);
    assert |"x" + named| == |named| + 1;
  }

  /**
   Reading the resolution first is what keeps the directory consistent: whatever the build does and
   wherever it stops, it stays so exactly when the file can be read or is not a complete resolution.
   */
  lemma UnreadResolution(d: Disk, q: BuildRequest, readable: bool)
    requires Consistent(d)
    ensures (forall o, cut :: Consistent(HandledReading(d, q, o, cut, readable).0)) <==>
      readable || q.cacheId !in d.resolutions || d.resolutions[q.cacheId].Torn?
  {
    if readable || q.cacheId !in d.resolutions {
      forall o, cut ensures Consistent(HandledReading(d, q, o, cut, readable).0) { HandledConsistent(d, q, o, cut); }
    } else if d.resolutions[q.cacheId].Torn? {
      forall o, cut ensures Consistent(HandledReading(d, q, o, cut, readable).0) { UnreadTorn(d, q, o, cut); }
    } else {
      UnreadComplete(d, q);
    }
  }

  /** Beside a torn resolution the build may replace the archive: nothing vouches for it. */
  lemma {:induction false} UnreadTornTo(d: Disk, q: BuildRequest, ops: seq<Op>, k: nat)
    requires Consistent(d) && q.cacheId in d.resolutions && d.resolutions[q.cacheId].Torn?
    requires k <= |ops| && forall i :: 0 <= i < k ==> !ops[i].CreateResolution? && !ops[i].FillResolution? && !ops[i].Answer?
    ensures Consistent(After(d, q, ops, k)) && After(d, q, ops, k).resolutions == d.resolutions
  {
    if k > 0 {
      UnreadTornTo(d, q, ops, k - 1);
      UnreadTornOp(After(d, q, ops, k - 1), q, ops[k - 1]);
    }
  }

  lemma UnreadTornOp(d: Disk, q: BuildRequest, op: Op)
    requires Consistent(d) && q.cacheId in d.resolutions && d.resolutions[q.cacheId].Torn?
    requires !op.CreateResolution? && !op.FillResolution? && !op.Answer?
    ensures Consistent(Apply(d, q, op)) && Apply(d, q, op).resolutions == d.resolutions
  {
    var d' := Apply(d, q, op);
    assert d.log <= d'.log;
    forall id ensures ResolutionHonest(d', id) && FilledOnce(d', id) {
      assert ResolutionHonest(d, id) && FilledOnce(d, id);
    }
    forall e | e in d'.log ensures EventHonest(d', e) {
      if e in d.log { assert EventHonest(d, e); }
    }
  }

  lemma UnreadTorn(d: Disk, q: BuildRequest, o: Outcome, cut: nat)
    requires Consistent(d) && q.cacheId in d.resolutions && d.resolutions[q.cacheId].Torn?
    ensures Consistent(HandledReading(d, q, o, cut, false).0)
  {
    var ops := BuildPlan(q, o).0;
    var create := if q.guarded then 7 else 6;
    var end := if create < |ops| then create else |ops|;
    UnreadTornTo(d, q, ops, if cut < end then cut else end);
  }

  /** Beside a complete resolution an unrelated build leaves an archive that the named image was not built into. */
  lemma UnreadComplete(d: Disk, q: BuildRequest)
    requires Consistent(d) && q.cacheId in d.resolutions && d.resolutions[q.cacheId].Complete?
    ensures var o := Unrelated(d, d.resolutions[q.cacheId].image); !Consistent(HandledReading(d, q, o, 6, false).0)
  {
    var named := d.resolutions[q.cacheId].image;
    var o := Unrelated(d, named);
    assert ResolutionHonest(d, q.cacheId);
    AnotherImage(named);
    ReplacedArchive(d, q, o);
    var lost := Built(q.cacheId, named, o.build.archive);
    if lost in d.log { LongestIsNew(d.log, lost); }
    var d6 := After(d, q, BuildPlan(q, o).0, 6);
    assert !ResolutionHonest(d6, q.cacheId);
  }

  /** After its first six operations a build has replaced the archive and logged its own image. */
  lemma ReplacedArchive(d: Disk, q: BuildRequest, o: Outcome)
    requires o.build.Produced? && ImmutableImage(o.build.image) && ValidArchive(o.build.archive)
    ensures var d6 := After(d, q, BuildPlan(q, o).0, 6);
      && d6.resolutions == d.resolutions && d6.log == d.log + [Built(q.cacheId, o.build.image, o.build.archive)]
      && q.cacheId in d6.archives && d6.archives[q.cacheId] == o.build.archive
  {
    var ops := BuildPlan(q, o).0;
    StoredBy(d, q, o.build.partial, o.build.archive, o.build.image, ops);
    var d3, d4, d5, d6 := After(d, q, ops, 3), After(d, q, ops, 4), After(d, q, ops, 5), After(d, q, ops, 6);
    assert d3.log == After(d, q, ops, 2).log == After(d, q, ops, 1).log == d.log;
    assert d4 == Apply(d3, q, FinishBuild(o.build.image));
    assert d6.log == d5.log == d4.log;
  }
}
