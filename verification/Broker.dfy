/**
 The check-run operations as the broker performs them, request by request. Each is proved
 to mean exactly what `CheckRuns` says, so the safety and progress theorems hold of it.
 */
module Broker {
  import opened Results
  import opened CheckRuns
  import opened CheckRunSafety

  class GitHubAppBroker {
    var world: World
    const size: Body -> nat

    constructor (world: World, size: Body -> nat)
      ensures this.world == world && this.size == size
    {
      this.world := world;
      this.size := size;
    }

    /** One request through the transport; `runs` and `nextId` are the provider's state if it applies it. */
    method Send(runs: seq<Run>, nextId: nat) returns (reply: Reply)
      modifies this`world
      ensures reply == ReplyOf(NextFate(old(world)))
      ensures world == Exchange(old(world), runs, nextId)
    {
      var fate := NextFate(world);
      world := Exchange(world, runs, nextId);
      reply := ReplyOf(fate);
    }

    method SendPatch(id: nat, body: Body) returns (reply: Reply)
      modifies this`world
      ensures (reply, world) == Patch(old(world), id, body)
    {
      var known, applied := HasRun(world.runs, id), Applies(NextFate(world));
      reply := Send(Patched(world.runs, id, body), world.nextId);
      if reply.Reply? && applied && !known {
        reply := Reply(404, false);
      }
    }

    /** `append_check_annotations`, with its cursor over the confirmed annotations. */
    method AppendCheckAnnotations(r: CheckRequest, id: nat, start: nat) returns (res: Result<(), Error>, confirmed: nat)
      requires start <= |r.annotations|
      modifies this`world
      ensures (res, world) == Append(old(world), r, id, start, size)
      ensures res.Ok? ==> confirmed == |r.annotations|
      ensures res.Err? && res.error.PartialPublish? ==> res.error == PartialPublish(id, confirmed)
    {
      confirmed := start;
      if start == |r.annotations| {
        assert r.annotations[start..BatchEnd(r, start)] == [];
        var body := CheckBody(r, [], false, size);
        if body.Err? { return Err(body.error), confirmed; }
        var reply := SendPatch(id, body.value);
        if reply.NoReply? { return Err(PartialPublish(id, confirmed)), confirmed; }
        if reply.status != 200 {
          if reply.status == 429 { return Err(StatusError(reply.status)), confirmed; }
          return Err(PartialPublish(id, confirmed)), confirmed;
        }
        return Ok(()), confirmed;
      }
      while confirmed < |r.annotations|
        invariant start <= confirmed <= |r.annotations|
        invariant AppendBatches(world, r, id, confirmed, size) == AppendBatches(old(world), r, id, start, size)
      {
        var end := BatchEnd(r, confirmed);
        var body := CheckBody(r, r.annotations[confirmed..end], false, size);
        if body.Err? { return Err(body.error), confirmed; }
        var reply := SendPatch(id, body.value);
        if reply.NoReply? { return Err(PartialPublish(id, confirmed)), confirmed; }
        if reply.status != 200 {
          if reply.status == 429 { return Err(StatusError(reply.status)), confirmed; }
          return Err(PartialPublish(id, confirmed)), confirmed;
        }
        confirmed := end;
      }
      res := Ok(());
    }

    method PublishCheckRun(r: CheckRequest, admitted: bool) returns (res: Result<Published, Error>)
      modifies this`world
      ensures (res, world) == Publish(old(world), r, admitted, size)
    {
      if !admitted { return Err(InvalidCheckRequest); }
      var first := r.annotations[..BatchEnd(r, 0)];
      var body := CheckBody(r, first, true, size);
      if body.Err? { return Err(body.error); }
      var id := world.nextId;
      var reply := Send(world.runs + [Created(world, body.value)], world.nextId + 1);
      if reply.NoReply? { return Err(Transport); }
      if reply.status != 201 { return Err(StatusError(reply.status)); }
      if !reply.readable || id == 0 { return Err(MalformedResponse); }
      var rest, confirmed := AppendCheckAnnotations(r, id, |first|);
      if rest.Err? { return Err(rest.error); }
      res := Ok(Published(id, Max(Chunks(|r.annotations|), 1)));
    }

    /** A GET, which the provider answers from `world.runs` and which changes nothing. */
    method SendGet() returns (res: Result<(), Error>)
      modifies this`world
      ensures (res, world) == Get(old(world))
    {
      var reply := Send(world.runs, world.nextId);
      if reply.NoReply? { return Err(Transport); }
      if reply.status != 200 { return Err(StatusError(reply.status)); }
      if !reply.readable { return Err(MalformedResponse); }
      res := Ok(());
    }

    /** The ids of the matching runs, none when one of them is not a valid id. */
    method MatchesOnPage(runs: seq<Run>, r: CheckRequest) returns (ids: Option<seq<nat>>)
      ensures ids == if 0 in MatchingIds(runs, r) then None else Some(MatchingIds(runs, r))
    {
      var matchingIds: seq<nat> := [];
      for i := 0 to |runs|
        invariant matchingIds == MatchingIds(runs[..i], r)
        invariant 0 !in matchingIds
      {
        var run := runs[i];
        assert runs[..i + 1][..i] == runs[..i];
        if Is(run, r) {
          if run.id == 0 {
            MatchingIdListed(runs, r, i);
            return None;
          }
          matchingIds := matchingIds + [run.id];
        }
      }
      assert runs[..|runs|] == runs;
      ids := Some(matchingIds);
    }

    method ReconcileCheckRun(r: CheckRequest, admitted: bool) returns (res: Result<Option<Reconciled>, Error>)
      modifies this`world
      ensures (res, world) == Reconcile(old(world), r, admitted)
      ensures res.Ok? && res.value.Some? ==> res.value.value.confirmed <= |r.annotations|
    {
      if !admitted { return Err(InvalidCheckRequest); }
      var runs := Page(world.runs, r.headSha);
      var listed := SendGet();
      if listed.Err? { return Err(listed.error); }
      var matches := MatchesOnPage(runs, r);
      if matches.None? { return Err(MalformedResponse); }
      hide MatchingIds, Page, Is;
      var matchingIds := matches.value;
      if |matchingIds| > 1 { return Err(AmbiguousCheckReconciliation); }
      if matchingIds == [] { return Ok(None); }
      var id := matchingIds[0];
      var before := world;
      var shown := SendGet();
      if shown.Err? { return Err(shown.error); }
      var run := RunWithId(before.runs, id);
      if run.None? || !Is(run.value, r) { return Err(MalformedResponse); }
      if |run.value.annotations| > |r.annotations| { return Err(AmbiguousCheckReconciliation); }
      res := Ok(Some(Reconciled(id, |run.value.annotations|)));
    }

    method ResumeCheckRun(r: CheckRequest, from: Reconciled, admitted: bool) returns (res: Result<Published, Error>)
      requires from.confirmed <= |r.annotations|
      modifies this`world
      ensures (res, world) == Resume(old(world), r, from, admitted, size)
    {
      if !admitted { return Err(InvalidCheckRequest); }
      var rest, confirmed := AppendCheckAnnotations(r, from.checkRunId, from.confirmed);
      if rest.Err? { return Err(rest.error); }
      res := Ok(Published(from.checkRunId, Chunks(|r.annotations| - from.confirmed)));
    }

    /** The SCM worker's publisher: it always reconciles before it creates. */
    method PublishScmCheck(r: CheckRequest, admitted: bool) returns (res: Result<Published, Error>)
      modifies this`world
      ensures (res, world) == Attempt(old(world), r, admitted, size)
      ensures old(Sound(world, r) && Visible(world.runs, r)) ==>
        && Sound(world, r)
        && (res.Ok? ==> Delivered(world.runs, r, res.value.checkRunId))
        && (res.Err? && res.error.PartialPublish? ==> Reported(r, res.error.confirmed, Count(world.runs, r)))
    {
      ghost var w := world;
      if Sound(w, r) && Visible(w.runs, r) {
        AttemptSafe(w, r, admitted, size);
      }
      var found := ReconcileCheckRun(r, admitted);
      if found.Err? { return Err(found.error); }
      if found.value.Some? {
        res := ResumeCheckRun(r, found.value.value, admitted);
      } else {
        res := PublishCheckRun(r, admitted);
      }
    }
  }

  /** A matching run numbered 0 anywhere on the page is among the matching ids. */
  lemma MatchingIdListed(runs: seq<Run>, r: CheckRequest, i: nat)
    requires i < |runs| && Is(runs[i], r)
    ensures runs[i].id in MatchingIds(runs, r)
  {
    assert runs[..i + 1][..i] == runs[..i];
    assert runs == runs[..i + 1] + runs[i + 1..];
    MatchingIdsSplit(runs[..i + 1], runs[i + 1..], r);
  }
}
