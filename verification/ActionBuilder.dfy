/** The builder's `handle`, one file operation at a time. */
module ActionBuilder {
  import opened Results
  import opened Validation
  import opened BuildCache

  class Builder {
    var disk: Disk
    var budget: nat   // file operations left before the process stops
    ghost var start: Disk
    ghost var done: nat

    constructor (disk: Disk)
      ensures this.disk == disk
    {
      this.disk := disk;
      this.budget := 0;
      this.start, this.done := disk, 0;
    }

    /** The first `done` operations of the plan, and nothing else, have taken the disk from `start` to where it is. */
    ghost predicate Progress(q: BuildRequest, plan: seq<Op>, cut: nat)
      reads this
    {
      done <= |plan| && disk == After(start, q, plan, done) && budget + done == cut
    }

    /** One file operation, unless the process stops first. */
    method Do(q: BuildRequest, op: Op, ghost plan: seq<Op>, ghost cut: nat) returns (going: bool)
      requires Progress(q, plan, cut) && done < |plan| && plan[done] == op
      modifies this
      ensures Progress(q, plan, cut) && start == old(start)
      ensures done == if going then old(done) + 1 else old(done)
      ensures !going ==> done == cut
    {
      if budget == 0 { return false; }
      budget := budget - 1;
      disk := Apply(disk, q, op);
      done := done + 1;
      going := true;
    }

    method Handle(q: BuildRequest, o: Outcome, cut: nat) returns (reply: Result<string, Refusal>)
      modifies this
      ensures (disk, reply) == Handled(old(disk), q, o, cut)
      ensures old(Consistent(disk)) ==> Consistent(disk)
    {
      if Consistent(disk) { HandledConsistent(disk, q, o, cut); }
      budget, start, done := cut, disk, 0;
      if q.cacheId in disk.resolutions {
        reply := AnswerCached(q, o, cut);
      } else {
        reply := Build(q, o, cut);
      }
    }

    /** The plan was carried out, or the process stopped within it. */
    ghost predicate Ended(q: BuildRequest, plan: seq<Op>, whole: Result<string, Refusal>, cut: nat, reply: Result<string, Refusal>)
      reads this
    {
      && Progress(q, plan, cut)
      && if reply == Err(Interrupted) then done == cut < |plan| else done == |plan| && reply == whole
    }

    method AnswerCached(q: BuildRequest, o: Outcome, cut: nat) returns (reply: Result<string, Refusal>)
      requires q.cacheId in disk.resolutions
      requires Progress(q, CachedPlan(disk, q, o).0, cut) && done == 0 && start == disk
      modifies this
      ensures start == old(start)
      ensures Ended(q, CachedPlan(old(disk), q, o).0, CachedPlan(old(disk), q, o).1, cut, reply)
    {
      ghost var plan := CachedPlan(disk, q, o).0;
      var existing := disk.resolutions[q.cacheId];
      if existing.Torn? || !ImmutableImage(existing.image) { return Err(InvalidResolution); }
      if q.cacheId !in disk.archives || !ValidArchive(disk.archives[q.cacheId]) { return Err(InvalidArchive); }
      if q.guarded {
        if !o.admits { return Err(AdmissionRejected); }
        var admitted := Do(q, Admit(existing.image), plan, cut);
        if !admitted { return Err(Interrupted); }
      }
      var answered := Do(q, Answer(existing.image), plan, cut);
      reply := if answered then Ok(existing.image) else Err(Interrupted);
    }

    method Build(q: BuildRequest, o: Outcome, cut: nat) returns (reply: Result<string, Refusal>)
      requires q.cacheId !in disk.resolutions
      requires Progress(q, BuildPlan(q, o).0, cut) && done == 0 && start == disk
      modifies this
      ensures start == old(start)
      ensures Ended(q, BuildPlan(q, o).0, BuildPlan(q, o).1, cut, reply)
    {
      hide ImmutableImage, Apply;
      ghost var plan := BuildPlan(q, o).0;
      var going := Do(q, DropPending, plan, cut);
      if !going { return Err(Interrupted); }
      match o.build {
        case CannotStart =>
          reply := Err(BuildFailed);
        case Failed(partial) =>
          going := Do(q, WritePending(partial), plan, cut);
          if !going { return Err(Interrupted); }
          going := Do(q, DropPending, plan, cut);
          reply := Err(if going then BuildFailed else Interrupted);
        case NoDigest(archive) =>
          going := Do(q, WritePending(archive), plan, cut);
          reply := Err(if going then NoImageDigest else Interrupted);
        case Produced(partial, archive, image) =>
          going := Do(q, WritePending(partial), plan, cut);
          if !going { return Err(Interrupted); }
          going := Do(q, WritePending(archive), plan, cut);
          if !going { return Err(Interrupted); }
          going := Do(q, FinishBuild(image), plan, cut);
          if !going { return Err(Interrupted); }
          if !ImmutableImage(image) {
            going := Do(q, DropPending, plan, cut);
            reply := Err(if going then MutableImage else Interrupted);
          } else if !ValidArchive(archive) {
            reply := Err(InvalidArchive);
          } else {
            reply := Persist(q, o, cut);
          }
      }
    }

    /** Stores the archive, has it admitted and only then writes the resolution. */
    method Persist(q: BuildRequest, o: Outcome, cut: nat) returns (reply: Result<string, Refusal>)
      requires o.build.Produced? && ImmutableImage(o.build.image) && ValidArchive(o.build.archive)
      requires Progress(q, BuildPlan(q, o).0, cut) && done == 4
      modifies this
      ensures start == old(start)
      ensures Ended(q, BuildPlan(q, o).0, BuildPlan(q, o).1, cut, reply)
    {
      hide ImmutableImage, Apply;
      ghost var plan := BuildPlan(q, o).0;
      var image := o.build.image;
      var going := Do(q, DropArchive, plan, cut);
      if !going { return Err(Interrupted); }
      going := Do(q, PublishArchive, plan, cut);
      if !going { return Err(Interrupted); }
      if q.guarded {
        if !o.admits { return Err(AdmissionRejected); }
        going := Do(q, Admit(image), plan, cut);
        if !going { return Err(Interrupted); }
      }
      going := Do(q, CreateResolution, plan, cut);
      if !going { return Err(Interrupted); }
      going := Do(q, FillResolution(image), plan, cut);
      if !going { return Err(Interrupted); }
      going := Do(q, Answer(image), plan, cut);
      reply := if going then Ok(image) else Err(Interrupted);
    }
  }
}
