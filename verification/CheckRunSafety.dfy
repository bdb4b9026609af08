/**
 What every run of the check-run protocol keeps: at most one matching run at the provider,
 whose annotations are always a prefix of the request's, never shrink, and are the whole
 list once an operation reports success.
 */
module CheckRunSafety {
  import opened Results
  import opened CheckRuns

  predicate AtMostOne(runs: seq<Run>, r: CheckRequest) {
    forall i, j :: 0 <= i < j < |runs| ==> !(Is(runs[i], r) && Is(runs[j], r))
  }

  predicate PrefixOnly(runs: seq<Run>, r: CheckRequest) {
    forall i :: 0 <= i < |runs| && Is(runs[i], r) ==> runs[i].annotations <= WireAll(r.annotations)
  }

  predicate Clean(runs: seq<Run>, r: CheckRequest) {
    AtMostOne(runs, r) && PrefixOnly(runs, r)
  }

  /** The provider numbers its runs apart, from 1. */
  predicate Numbered(runs: seq<Run>, nextId: nat) {
    && 0 < nextId
    && (forall i :: 0 <= i < |runs| ==> 0 < runs[i].id < nextId)
    && (forall i, j :: 0 <= i < j < |runs| ==> runs[i].id != runs[j].id)
  }

  /** The provider's true annotation count for the request. */
  ghost function Count(runs: seq<Run>, r: CheckRequest): nat {
    if exists i :: 0 <= i < |runs| && Is(runs[i], r) then
      var i :| 0 <= i < |runs| && Is(runs[i], r);
      |runs[i].annotations|
    else 0
  }

  lemma CountAt(runs: seq<Run>, r: CheckRequest, i: nat)
    requires AtMostOne(runs, r) && i < |runs| && Is(runs[i], r)
    ensures Count(runs, r) == |runs[i].annotations|
  {
  }

  /** The whole history of a world is clean and its counts never fall. */
  ghost predicate Sound(w: World, r: CheckRequest) {
    && Numbered(w.runs, w.nextId)
    && Clean(w.runs, r)
    && (forall k :: 0 <= k < |w.past| ==> Clean(w.past[k], r) && Count(w.past[k], r) <= Count(w.runs, r))
    && (forall k, l :: 0 <= k < l < |w.past| ==> Count(w.past[k], r) <= Count(w.past[l], r))
  }

  /** The matching run sits at position `i`, is called `id` and holds exactly the first `k` annotations. */
  predicate Holds(runs: seq<Run>, r: CheckRequest, i: nat, id: nat, k: nat) {
    && i < |runs| && k <= |r.annotations|
    && runs[i].id == id && Is(runs[i], r)
    && runs[i].annotations == WireAll(r.annotations)[..k]
  }

  /** Exactly the request: every annotation once, in order, under its final status. */
  predicate Complete(runs: seq<Run>, r: CheckRequest, i: nat, id: nat) {
    && Holds(runs, r, i, id, |r.annotations|)
    && runs[i].annotations == WireAll(r.annotations)
    && runs[i].status == r.status && runs[i].conclusion == r.conclusion
  }

  lemma ExchangeSound(w: World, r: CheckRequest, runs: seq<Run>, nextId: nat)
    requires Sound(w, r)
    requires Numbered(runs, nextId) && Clean(runs, r)
    requires Count(w.runs, r) <= Count(runs, r)
    ensures Sound(Exchange(w, runs, nextId), r)
  {
  }

  lemma WireSlice(annotations: seq<Annotation>, lo: nat, hi: nat)
    requires lo <= hi <= |annotations|
    ensures WireAll(annotations[lo..hi]) == WireAll(annotations)[lo..hi]
    ensures WireAll(annotations)[..lo] + WireAll(annotations[lo..hi]) == WireAll(annotations)[..hi]
  {
    assert WireAll(annotations[lo..hi]) == WireAll(annotations)[lo..hi];
  }

  /** A body with the batch from `cursor` extends the prefix by exactly that batch and touches no other run. */
  lemma PatchedHolds(runs: seq<Run>, nextId: nat, r: CheckRequest, i: nat, id: nat, cursor: nat, body: Body, size: Body -> nat)
    requires Numbered(runs, nextId) && Clean(runs, r) && Holds(runs, r, i, id, cursor)
    requires CheckBody(r, r.annotations[cursor..BatchEnd(r, cursor)], false, size) == Ok(body)
    ensures Holds(Patched(runs, id, body), r, i, id, BatchEnd(r, cursor))
    ensures Patched(runs, id, body)[i].status == r.status && Patched(runs, id, body)[i].conclusion == r.conclusion
    ensures Numbered(Patched(runs, id, body), nextId) && Clean(Patched(runs, id, body), r)
    ensures forall j :: 0 <= j < |runs| && j != i ==> Patched(runs, id, body)[j] == runs[j]
  {
    WireSlice(r.annotations, cursor, BatchEnd(r, cursor));
    var after := Patched(runs, id, body);
    forall j | 0 <= j < |runs| && j != i
      ensures after[j] == runs[j]
    {
      if j < i { assert runs[j].id != runs[i].id; } else { assert runs[i].id != runs[j].id; }
    }
    assert Is(after[i], r);
    forall j, k | 0 <= j < k < |after|
      ensures !(Is(after[j], r) && Is(after[k], r)) && after[j].id != after[k].id
    {
      assert !(Is(runs[j], r) && Is(runs[k], r));
    }
    assert WireAll(r.annotations)[..BatchEnd(r, cursor)] <= WireAll(r.annotations);
  }

  /** The effect of one update on the provider, whatever its fate. */
  lemma PatchOutcome(w: World, r: CheckRequest, i: nat, id: nat, cursor: nat, body: Body, size: Body -> nat)
    requires Sound(w, r) && Holds(w.runs, r, i, id, cursor)
    requires CheckBody(r, r.annotations[cursor..BatchEnd(r, cursor)], false, size) == Ok(body)
    ensures Sound(Patch(w, id, body).1, r)
    ensures Patch(w, id, body).1.runs == if Applies(NextFate(w)) then Patched(w.runs, id, body) else w.runs
    ensures Patch(w, id, body).0 == ReplyOf(NextFate(w))
  {
    PatchedHolds(w.runs, w.nextId, r, i, id, cursor, body, size);
    CountAt(w.runs, r, i);
    CountAt(Patched(w.runs, id, body), r, i);
    ExchangeSound(w, r, Patched(w.runs, id, body), w.nextId);
    assert HasRun(w.runs, id);
  }

  /** Runs other than the one at `i` are as they were. */
  predicate OthersKept(before: seq<Run>, after: seq<Run>, i: nat) {
    |before| == |after| && forall j :: 0 <= j < |before| && j != i ==> after[j] == before[j]
  }

  predicate Terminal(runs: seq<Run>, r: CheckRequest, i: nat)
    requires i < |runs|
  {
    runs[i].status == r.status && runs[i].conclusion == r.conclusion
  }

  /** One update either leaves the count at the cursor or moves it to the end of its batch; success means the latter. */
  lemma AppendBatchOutcome(w: World, r: CheckRequest, i: nat, id: nat, cursor: nat, size: Body -> nat)
    requires Sound(w, r) && Holds(w.runs, r, i, id, cursor)
    ensures
      var (res, w') := AppendBatch(w, r, id, cursor, size);
      && Sound(w', r)
      && (Holds(w'.runs, r, i, id, cursor) || Holds(w'.runs, r, i, id, BatchEnd(r, cursor)))
      && (res.Ok? ==> Holds(w'.runs, r, i, id, BatchEnd(r, cursor)) && Terminal(w'.runs, r, i))
      && (res.Err? && res.error.PartialPublish? ==> res.error == PartialPublish(id, cursor))
      && OthersKept(w.runs, w'.runs, i)
  {
    assert Numbered(w.runs, w.nextId) && Clean(w.runs, r);
    hide PublicTitle, PublicSummary, AnnotationFits, Sound, Holds, Patched, Clean, Numbered;
    match CheckBody(r, r.annotations[cursor..BatchEnd(r, cursor)], false, size)
    case Err(e) =>
    case Ok(body) =>
      PatchOutcome(w, r, i, id, cursor, body, size);
      PatchedHolds(w.runs, w.nextId, r, i, id, cursor, body, size);
  }

  /** What a partial publication at `reported` allows the true count `k` to be. */
  predicate Reported(r: CheckRequest, reported: nat, k: nat) {
    reported <= |r.annotations| && (k == reported || k == BatchEnd(r, reported))
  }

  /** The true count after an append, and what its result says about it. */
  ghost predicate Appended(w': World, r: CheckRequest, res: Result<(), Error>, i: nat, id: nat, k: nat) {
    && Sound(w', r)
    && Holds(w'.runs, r, i, id, k)
    && (res.Ok? ==> k == |r.annotations|)
    && (res.Err? && res.error.PartialPublish? ==> res.error.checkRunId == id && Reported(r, res.error.confirmed, k))
  }

  lemma {:induction false} AppendBatchesOutcome(w: World, r: CheckRequest, i: nat, id: nat, cursor: nat, size: Body -> nat)
    returns (k: nat)
    requires Sound(w, r) && Holds(w.runs, r, i, id, cursor)
    requires cursor == |r.annotations| ==> Complete(w.runs, r, i, id)
    ensures var (res, w') := AppendBatches(w, r, id, cursor, size);
      && cursor <= k && Appended(w', r, res, i, id, k)
      && (res.Ok? ==> Complete(w'.runs, r, i, id))
      && OthersKept(w.runs, w'.runs, i)
    decreases |r.annotations| - cursor
  {
    if cursor == |r.annotations| {
      k := cursor;
    } else {
      AppendBatchOutcome(w, r, i, id, cursor, size);
      var (one, w1) := AppendBatch(w, r, id, cursor, size);
      if one.Err? {
        k := if Holds(w1.runs, r, i, id, cursor) then cursor else BatchEnd(r, cursor);
      } else {
        assert WireAll(r.annotations)[..|r.annotations|] == WireAll(r.annotations);
        k := AppendBatchesOutcome(w1, r, i, id, BatchEnd(r, cursor), size);
      }
    }
  }

  lemma AppendOutcome(w: World, r: CheckRequest, i: nat, id: nat, start: nat, size: Body -> nat)
    returns (k: nat)
    requires Sound(w, r) && Holds(w.runs, r, i, id, start)
    ensures var (res, w') := Append(w, r, id, start, size);
      && start <= k && Appended(w', r, res, i, id, k)
      && (res.Ok? ==> Complete(w'.runs, r, i, id))
      && OthersKept(w.runs, w'.runs, i)
  {
    if start == |r.annotations| {
      AppendBatchOutcome(w, r, i, id, start, size);
      assert WireAll(r.annotations)[..start] == WireAll(r.annotations);
      k := start;
    } else {
      k := AppendBatchesOutcome(w, r, i, id, start, size);
    }
  }

  lemma ResumeOutcome(w: World, r: CheckRequest, from: Reconciled, admitted: bool, size: Body -> nat, i: nat)
    requires Sound(w, r) && Holds(w.runs, r, i, from.checkRunId, from.confirmed)
    ensures var (res, w') := Resume(w, r, from, admitted, size);
      && Sound(w', r) && OthersKept(w.runs, w'.runs, i)
      && Is(w'.runs[i], r) && w'.runs[i].id == from.checkRunId
      && Count(w.runs, r) <= Count(w'.runs, r)
      && (res.Ok? ==> res.value.checkRunId == from.checkRunId && Complete(w'.runs, r, i, from.checkRunId))
      && (res.Err? && res.error.PartialPublish? ==>
            res.error.checkRunId == from.checkRunId && Reported(r, res.error.confirmed, Count(w'.runs, r)))
  {
    CountAt(w.runs, r, i);
    if admitted {
      var k := AppendOutcome(w, r, i, from.checkRunId, from.confirmed, size);
      CountAt(Append(w, r, from.checkRunId, from.confirmed, size).1.runs, r, i);
    }
  }

  // ---------------------------------------------------------------- creation

  lemma CreatedClean(w: World, r: CheckRequest, body: Body, size: Body -> nat)
    requires Sound(w, r)
    requires forall i :: 0 <= i < |w.runs| ==> !Is(w.runs[i], r)
    requires CheckBody(r, r.annotations[..BatchEnd(r, 0)], true, size) == Ok(body)
    ensures var runs := w.runs + [Created(w, body)];
      && Numbered(runs, w.nextId + 1) && Clean(runs, r)
      && Holds(runs, r, |w.runs|, w.nextId, BatchEnd(r, 0))
      && runs[|w.runs|].status == r.status && runs[|w.runs|].conclusion == r.conclusion
      && Count(w.runs, r) <= Count(runs, r)
  {
    WireSlice(r.annotations, 0, BatchEnd(r, 0));
    assert r.annotations[0..BatchEnd(r, 0)] == r.annotations[..BatchEnd(r, 0)];
    assert Count(w.runs, r) == 0;
  }

  /** After a publication: no run yet, or the one new run with some prefix. */
  ghost predicate PublishedOutcome(w: World, w': World, r: CheckRequest, res: Result<Published, Error>) {
    && Sound(w', r)
    && (res.Ok? ==> Complete(w'.runs, r, |w.runs|, res.value.checkRunId))
    && (res.Err? && res.error.PartialPublish? ==>
      && |w.runs| < |w'.runs| && Is(w'.runs[|w.runs|], r)
      && w'.runs[|w.runs|].id == res.error.checkRunId
      && Reported(r, res.error.confirmed, Count(w'.runs, r)))
    && |w.runs| <= |w'.runs| && w'.runs[..|w.runs|] == w.runs
  }

  lemma CreateOutcome(w: World, r: CheckRequest, body: Body, size: Body -> nat)
    requires Sound(w, r)
    requires forall i :: 0 <= i < |w.runs| ==> !Is(w.runs[i], r)
    requires CheckBody(r, r.annotations[..BatchEnd(r, 0)], true, size) == Ok(body)
    ensures var w1 := Exchange(w, w.runs + [Created(w, body)], w.nextId + 1);
      && Sound(w1, r)
      && (Applies(NextFate(w)) ==> Holds(w1.runs, r, |w.runs|, w.nextId, BatchEnd(r, 0)))
      && |w.runs| <= |w1.runs| && w1.runs[..|w.runs|] == w.runs
  {
    CreatedClean(w, r, body, size);
    ExchangeSound(w, r, w.runs + [Created(w, body)], w.nextId + 1);
  }

  lemma PublishOutcome(w: World, r: CheckRequest, admitted: bool, size: Body -> nat)
    requires Sound(w, r)
    requires forall i :: 0 <= i < |w.runs| ==> !Is(w.runs[i], r)
    ensures PublishedOutcome(w, Publish(w, r, admitted, size).1, r, Publish(w, r, admitted, size).0)
  {
    hide PublicTitle, PublicSummary, AnnotationFits, Append, Clean, Numbered, WireAll;
    var body := CheckBody(r, r.annotations[..BatchEnd(r, 0)], true, size);
    if admitted && body.Ok? {
      CreateOutcome(w, r, body.value, size);
      var w1 := Exchange(w, w.runs + [Created(w, body.value)], w.nextId + 1);
      var reply := ReplyOf(NextFate(w));
      if reply.Reply? && reply.status == 201 && reply.readable {
        ResumeOutcome(w1, r, Reconciled(w.nextId, BatchEnd(r, 0)), true, size, |w.runs|);
        var w2 := Append(w1, r, w.nextId, BatchEnd(r, 0), size).1;
        assert w2.runs[..|w.runs|] == w1.runs[..|w.runs|];
      }
    }
  }

  // ---------------------------------------------------------------- reconciliation

  /** A matching run, if there is one, is on the page that reconciliation reads. */
  predicate Visible(runs: seq<Run>, r: CheckRequest) {
    forall i :: 0 <= i < |runs| && Is(runs[i], r) ==> runs[i] in Page(runs, r.headSha)
  }

  lemma {:induction false} MatchingIdsSplit(a: seq<Run>, b: seq<Run>, r: CheckRequest)
    ensures MatchingIds(a + b, r) == MatchingIds(a, r) + MatchingIds(b, r)
  {
    if b == [] {
      assert a + b == a;
    } else {
      var ab := a + b;
      assert ab[..|ab| - 1] == a + b[..|b| - 1];
      MatchingIdsSplit(a, b[..|b| - 1], r);
    }
  }

  lemma {:induction false} NoneOn(runs: seq<Run>, r: CheckRequest)
    requires forall i :: 0 <= i < |runs| ==> !Is(runs[i], r)
    ensures MatchingIds(RunsOn(runs, r.headSha), r) == []
  {
    if runs != [] {
      NoneOn(runs[1..], r);
      MatchingIdsSplit(if runs[0].headSha == r.headSha then [runs[0]] else [], RunsOn(runs[1..], r.headSha), r);
    }
  }

  lemma NoneOnPage(runs: seq<Run>, r: CheckRequest)
    requires forall i :: 0 <= i < |runs| ==> !Is(runs[i], r)
    ensures MatchingIds(Page(runs, r.headSha), r) == []
  {
    var on, page := RunsOn(runs, r.headSha), Page(runs, r.headSha);
    NoneOn(runs, r);
    assert on == page + on[|page|..];
    MatchingIdsSplit(page, on[|page|..], r);
  }

  /** The page names the one matching run exactly once. */
  lemma {:induction false} OneOn(runs: seq<Run>, r: CheckRequest, i: nat)
    requires AtMostOne(runs, r) && i < |runs| && Is(runs[i], r)
    ensures MatchingIds(RunsOn(runs, r.headSha), r) == [runs[i].id]
  {
    var rest := runs[1..];
    MatchingIdsSplit(if runs[0].headSha == r.headSha then [runs[0]] else [], RunsOn(rest, r.headSha), r);
    assert MatchingIds([runs[0]], r) == if Is(runs[0], r) then [runs[0].id] else [] by {
      assert [runs[0]][..0] == [];
    }
    if i == 0 {
      forall j | 0 <= j < |rest| ensures !Is(rest[j], r) { assert rest[j] == runs[j + 1]; }
      NoneOn(rest, r);
    } else {
      assert !Is(runs[0], r);
      forall j, k | 0 <= j < k < |rest| ensures !(Is(rest[j], r) && Is(rest[k], r)) {
        assert rest[j] == runs[j + 1] && rest[k] == runs[k + 1];
      }
      OneOn(rest, r, i - 1);
    }
  }

  lemma {:induction false} MatchingIdsNone(page: seq<Run>, r: CheckRequest, run: Run)
    requires run in page && Is(run, r)
    ensures MatchingIds(page, r) != []
  {
    var init, last := page[..|page| - 1], page[|page| - 1];
    assert page == init + [last];
    if run in init { MatchingIdsNone(init, r, run); }
  }

  lemma {:induction false} MatchingIdsSome(page: seq<Run>, r: CheckRequest)
    requires MatchingIds(page, r) != []
    ensures exists run :: run in page && Is(run, r)
  {
    var init, last := page[..|page| - 1], page[|page| - 1];
    assert page == init + [last];
    if !Is(last, r) { MatchingIdsSome(init, r); }
  }

  lemma {:induction false} RunsOnMembers(runs: seq<Run>, headSha: string, run: Run)
    requires run in RunsOn(runs, headSha)
    ensures run in runs
  {
    assert runs == [runs[0]] + runs[1..];
    if run in RunsOn(runs[1..], headSha) { RunsOnMembers(runs[1..], headSha, run); }
  }

  /** The page shows the one matching run exactly when it is visible. */
  lemma OneOnPage(runs: seq<Run>, r: CheckRequest, i: nat)
    requires AtMostOne(runs, r) && i < |runs| && Is(runs[i], r)
    ensures MatchingIds(Page(runs, r.headSha), r) == if Visible(runs, r) then [runs[i].id] else []
  {
    var on := RunsOn(runs, r.headSha);
    var page := Page(runs, r.headSha);
    OneOn(runs, r, i);
    assert on == page + on[|page|..];
    MatchingIdsSplit(page, on[|page|..], r);
    assert |MatchingIds(page, r)| + |MatchingIds(on[|page|..], r)| == 1;
    if runs[i] in page {
      MatchingIdsNone(page, r, runs[i]);
    } else if MatchingIds(page, r) != [] {
      MatchingIdsSome(page, r);
      var run :| run in page && Is(run, r);
      RunsOnMembers(runs, r.headSha, run);
    }
  }

  lemma {:induction false} RunWithIdAt(runs: seq<Run>, nextId: nat, i: nat)
    requires Numbered(runs, nextId) && i < |runs|
    ensures RunWithId(runs, runs[i].id) == Some(runs[i])
  {
    forall j | 0 <= j < |runs| && j != i ensures runs[j].id != runs[i].id {
      if j < i { assert runs[j].id != runs[i].id; } else { assert runs[i].id != runs[j].id; }
    }
    assert HasRun(runs, runs[i].id);
    var run := RunWithId(runs, runs[i].id).value;
    var j :| 0 <= j < |runs| && runs[j] == run;
  }

  lemma GetSound(w: World, r: CheckRequest)
    requires Sound(w, r)
    ensures Sound(Get(w).1, r) && Get(w).1.runs == w.runs && Get(w).1.nextId == w.nextId
  {
    ExchangeSound(w, r, w.runs, w.nextId);
  }

  /** What the page and the single run shown afterwards say about clean, visible runs. */
  lemma PageExact(w: World, r: CheckRequest)
    requires Sound(w, r) && Visible(w.runs, r)
    ensures var ids := MatchingIds(Page(w.runs, r.headSha), r);
      || (ids == [] && forall i :: 0 <= i < |w.runs| ==> !Is(w.runs[i], r))
      || (exists i: nat :: i < |w.runs| && Holds(w.runs, r, i, w.runs[i].id, |w.runs[i].annotations|) && 0 < w.runs[i].id
            && ids == [w.runs[i].id] && RunWithId(w.runs, w.runs[i].id) == Some(w.runs[i]))
  {
    if i :| 0 <= i < |w.runs| && Is(w.runs[i], r) {
      OneOnPage(w.runs, r, i);
      RunWithIdAt(w.runs, w.nextId, i);
      assert Holds(w.runs, r, i, w.runs[i].id, |w.runs[i].annotations|);
    } else {
      NoneOnPage(w.runs, r);
    }
  }

  /** On clean, visible runs reconciliation never errs about what it finds: `None` means no run, `Some` names the run and its true count. */
  lemma ReconcileExact(w: World, r: CheckRequest, admitted: bool)
    requires Sound(w, r) && Visible(w.runs, r)
    ensures var (res, w') := Reconcile(w, r, admitted);
      && Sound(w', r) && w'.runs == w.runs && w'.nextId == w.nextId
      && (res.Err? ==> res.error != AmbiguousCheckReconciliation && !res.error.PartialPublish?)
      && (res.Ok? && res.value.None? ==> forall i :: 0 <= i < |w.runs| ==> !Is(w.runs[i], r))
      && (res.Ok? && res.value.Some? ==>
        exists i: nat :: Holds(w.runs, r, i, res.value.value.checkRunId, res.value.value.confirmed))
  {
    hide Sound, Holds, Visible, Is;
    GetSound(w, r);
    GetSound(Get(w).1, r);
    PageExact(w, r);
    var w1, ids := Get(w).1, MatchingIds(Page(w.runs, r.headSha), r);
    if ids != [] {
      var i: nat :| i < |w.runs| && Holds(w.runs, r, i, w.runs[i].id, |w.runs[i].annotations|) && 0 < w.runs[i].id
        && ids == [w.runs[i].id] && RunWithId(w.runs, w.runs[i].id) == Some(w.runs[i]);
      ConfirmExact(w1, Get(w1).1, r, i);
    }
  }

  /** The matching run of a sound world holds as many annotations as it has. */
  lemma MatchHolds(w: World, r: CheckRequest, i: nat)
    requires Sound(w, r) && i < |w.runs| && Is(w.runs[i], r)
    ensures Holds(w.runs, r, i, w.runs[i].id, |w.runs[i].annotations|) && Numbered(w.runs, w.nextId) && AtMostOne(w.runs, r)
    ensures 0 < w.runs[i].id && |w.runs[i].annotations| <= |r.annotations|
  {
  }

  /** The single run that is shown again is the one found, with its true count. */
  lemma ConfirmExact(w1: World, w2: World, r: CheckRequest, i: nat)
    requires i < |w1.runs| && RunWithId(w1.runs, w1.runs[i].id) == Some(w1.runs[i])
    requires Holds(w1.runs, r, i, w1.runs[i].id, |w1.runs[i].annotations|)
    ensures Confirm(w1, w2, r, w1.runs[i].id) == (Ok(Some(Reconciled(w1.runs[i].id, |w1.runs[i].annotations|))), w2)
  {
  }

  // ---------------------------------------------------------------- whole runs

  /** The provider holds exactly one run for the request, and it is the whole request. */
  ghost predicate Delivered(runs: seq<Run>, r: CheckRequest, id: nat) {
    AtMostOne(runs, r) && exists i: nat :: Complete(runs, r, i, id)
  }

  /** One reconcile-then-create-or-resume attempt, whatever happens to its requests. */
  lemma AttemptSafe(w: World, r: CheckRequest, admitted: bool, size: Body -> nat)
    requires Sound(w, r) && Visible(w.runs, r)
    ensures var (res, w') := Attempt(w, r, admitted, size);
      && Sound(w', r)
      && Count(w.runs, r) <= Count(w'.runs, r)
      && (res.Ok? ==> Delivered(w'.runs, r, res.value.checkRunId))
      && (res.Err? ==> res.error != AmbiguousCheckReconciliation)
      && (res.Err? && res.error.PartialPublish? ==> Reported(r, res.error.confirmed, Count(w'.runs, r)))
  {
    ReconcileExact(w, r, admitted);
    var (found, w1) := Reconcile(w, r, admitted);
    if found.Ok? {
      match found.value
      case None =>
        PublishOutcome(w1, r, admitted, size);
        assert Count(w.runs, r) == 0;
        PublishNotAmbiguous(w1, r, admitted, size);
      case Some(from) =>
        var i :| Holds(w.runs, r, i, from.checkRunId, from.confirmed);
        ResumeOutcome(w1, r, from, admitted, size, i);
        AppendNotAmbiguous(w1, r, from.checkRunId, from.confirmed, size);
    }
  }

  lemma {:induction false} AppendBatchesNotAmbiguous(w: World, r: CheckRequest, id: nat, cursor: nat, size: Body -> nat)
    requires cursor <= |r.annotations|
    ensures AppendBatches(w, r, id, cursor, size).0 != Err(AmbiguousCheckReconciliation)
    decreases |r.annotations| - cursor
  {
    if cursor < |r.annotations| {
      var (one, w') := AppendBatch(w, r, id, cursor, size);
      if one.Ok? { AppendBatchesNotAmbiguous(w', r, id, BatchEnd(r, cursor), size); }
    }
  }

  lemma AppendNotAmbiguous(w: World, r: CheckRequest, id: nat, start: nat, size: Body -> nat)
    requires start <= |r.annotations|
    ensures Append(w, r, id, start, size).0 != Err(AmbiguousCheckReconciliation)
  {
    AppendBatchesNotAmbiguous(w, r, id, start, size);
  }

  lemma PublishNotAmbiguous(w: World, r: CheckRequest, admitted: bool, size: Body -> nat)
    ensures Publish(w, r, admitted, size).0 != Err(AmbiguousCheckReconciliation)
  {
    var body := CheckBody(r, r.annotations[..BatchEnd(r, 0)], true, size);
    if admitted && body.Ok? {
      AppendNotAmbiguous(Exchange(w, w.runs + [Created(w, body.value)], w.nextId + 1), r, w.nextId, BatchEnd(r, 0), size);
    }
  }

  /** What happens to the provider over time: our attempts, and runs that others create. */
  datatype Event = Attempted(admitted: bool) | Foreign(run: Run)

  function Happens(w: World, r: CheckRequest, e: Event, size: Body -> nat): World {
    match e
    case Attempted(admitted) => Attempt(w, r, admitted, size).1
    case Foreign(run) =>
      w.(runs := w.runs + [run.(id := w.nextId)], nextId := w.nextId + 1, past := w.past + [w.runs + [run.(id := w.nextId)]])
  }

  function Campaign(w: World, r: CheckRequest, events: seq<Event>, size: Body -> nat): World {
    if events == [] then w
    else Happens(Campaign(w, r, events[..|events| - 1], size), r, events[|events| - 1], size)
  }

  /** Others never reuse the request's identity, and each attempt starts with the matching run, if any, on the page. */
  ghost predicate Fair(w: World, r: CheckRequest, events: seq<Event>, size: Body -> nat) {
    forall k :: 0 <= k < |events| ==>
      match events[k]
      case Attempted(_) => Visible(Campaign(w, r, events[..k], size).runs, r)
      case Foreign(run) => !Is(run, r)
  }

  /** Any number of attempts under any fates, with other clients in between: every provider state of the run is clean and the count never falls. */
  lemma {:induction false} CampaignSafe(w: World, r: CheckRequest, events: seq<Event>, size: Body -> nat)
    requires Sound(w, r) && Fair(w, r, events, size)
    ensures Sound(Campaign(w, r, events, size), r)
  {
    if events != [] {
      var init, last := events[..|events| - 1], events[|events| - 1];
      forall k | 0 <= k < |init|
        ensures match init[k]
                case Attempted(_) => Visible(Campaign(w, r, init[..k], size).runs, r)
                case Foreign(run) => !Is(run, r)
      {
        assert init[..k] == events[..k];
      }
      CampaignSafe(w, r, init, size);
      var before := Campaign(w, r, init, size);
      match last
      case Attempted(admitted) => AttemptSafe(before, r, admitted, size);
      case Foreign(run) =>
        assert !Is(run.(id := before.nextId), r);
        ForeignSound(before, r, run.(id := before.nextId));
    }
  }

  lemma ForeignSound(w: World, r: CheckRequest, run: Run)
    requires Sound(w, r) && !Is(run, r) && run.id == w.nextId
    ensures Sound(w.(runs := w.runs + [run], nextId := w.nextId + 1, past := w.past + [w.runs + [run]]), r)
  {
    var runs := w.runs + [run];
    assert Clean(runs, r);
    if i :| 0 <= i < |w.runs| && Is(w.runs[i], r) {
      CountAt(w.runs, r, i);
      assert Is(runs[i], r);
      CountAt(runs, r, i);
    }
  }

  /** The attempt that ends a campaign, if it succeeds, leaves the request delivered exactly once. */
  lemma CampaignDelivers(w: World, r: CheckRequest, events: seq<Event>, admitted: bool, size: Body -> nat)
    requires Sound(w, r) && Fair(w, r, events + [Attempted(admitted)], size)
    ensures var before := Campaign(w, r, events, size);
      var (res, after) := Attempt(before, r, admitted, size);
      && Campaign(w, r, events + [Attempted(admitted)], size) == after
      && (res.Ok? ==> Delivered(after.runs, r, res.value.checkRunId))
      && (res.Err? && res.error.PartialPublish? ==> Reported(r, res.error.confirmed, Count(after.runs, r)))
  {
    var all := events + [Attempted(admitted)];
    assert all[..|events|] == events;
    assert all[|events|] == Attempted(admitted);
    assert Visible(Campaign(w, r, all[..|events|], size).runs, r);
    forall k | 0 <= k < |events|
      ensures match events[k]
              case Attempted(_) => Visible(Campaign(w, r, events[..k], size).runs, r)
              case Foreign(run) => !Is(run, r)
    {
      assert events[k] == all[k] && events[..k] == all[..k];
    }
    CampaignSafe(w, r, events, size);
    AttemptSafe(Campaign(w, r, events, size), r, admitted, size);
  }
}
