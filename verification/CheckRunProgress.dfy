/**
 When the check-run operations succeed, how many requests they take, and what a run hidden
 from the reconciliation page leads to.
 */
module CheckRunProgress {
  import opened Results
  import opened CheckRuns
  import opened Text
  import Markdown
  import opened CheckRunSafety

  predicate BatchEncodes(r: CheckRequest, start: nat, size: Body -> nat)
    requires start <= |r.annotations|
  {
    CheckBody(r, r.annotations[start..BatchEnd(r, start)], false, size).Ok?
  }

  /** The `j`-th request to come is delivered and answered 200. */
  predicate Accepted(fates: seq<Fate>, j: nat) {
    j < |fates| && fates[j].Answered? && fates[j].code == 200
  }

  /** The updates that take `k` confirmed annotations to the whole list. */
  function Updates(r: CheckRequest, k: nat): nat
    requires k <= |r.annotations|
  {
    Max(Chunks(|r.annotations| - k), 1)
  }

  /** The update from `k` plus `j` batches has an encodable body and is accepted. */
  predicate UpdateAccepted(fates: seq<Fate>, r: CheckRequest, k: nat, j: nat, size: Body -> nat) {
    && k + MAX_ANNOTATIONS_PER_REQUEST * j <= |r.annotations|
    && BatchEncodes(r, k + MAX_ANNOTATIONS_PER_REQUEST * j, size)
    && Accepted(fates, j)
  }

  predicate AllAccepted(fates: seq<Fate>, r: CheckRequest, k: nat, size: Body -> nat)
    requires k <= |r.annotations|
  {
    forall j :: 0 <= j < Updates(r, k) ==> UpdateAccepted(fates, r, k, j, size)
  }

  lemma LastUpdate(fates: seq<Fate>, r: CheckRequest, k: nat, size: Body -> nat)
    requires k <= |r.annotations| <= k + MAX_ANNOTATIONS_PER_REQUEST
    ensures Updates(r, k) == 1
    ensures AllAccepted(fates, r, k, size) <==> BatchEncodes(r, k, size) && Accepted(fates, 0)
  {
    assert UpdateAccepted(fates, r, k, 0, size) <==> BatchEncodes(r, k, size) && Accepted(fates, 0);
  }

  lemma ShiftedUpdate(fates: seq<Fate>, r: CheckRequest, k: nat, j: nat, size: Body -> nat)
    requires fates != []
    ensures UpdateAccepted(fates[1..], r, k + MAX_ANNOTATIONS_PER_REQUEST, j, size) == UpdateAccepted(fates, r, k, j + 1, size)
  {
    assert k + MAX_ANNOTATIONS_PER_REQUEST + MAX_ANNOTATIONS_PER_REQUEST * j == k + MAX_ANNOTATIONS_PER_REQUEST * (j + 1);
  }

  lemma NextUpdate(fates: seq<Fate>, r: CheckRequest, k: nat, size: Body -> nat)
    requires k + MAX_ANNOTATIONS_PER_REQUEST < |r.annotations|
    ensures Updates(r, k) == Updates(r, k + MAX_ANNOTATIONS_PER_REQUEST) + 1
    ensures AllAccepted(fates, r, k, size) ==> BatchEncodes(r, k, size) && Accepted(fates, 0)
    ensures fates != [] && AllAccepted(fates, r, k, size) ==> AllAccepted(fates[1..], r, k + MAX_ANNOTATIONS_PER_REQUEST, size)
    ensures BatchEncodes(r, k, size) && Accepted(fates, 0) && AllAccepted(fates[1..], r, k + MAX_ANNOTATIONS_PER_REQUEST, size)
      ==> AllAccepted(fates, r, k, size)
  {
    hide BatchEncodes;
    var next := k + MAX_ANNOTATIONS_PER_REQUEST;
    assert UpdateAccepted(fates, r, k, 0, size) <==> BatchEncodes(r, k, size) && Accepted(fates, 0);
    if fates != [] && AllAccepted(fates, r, k, size) {
      forall j | 0 <= j < Updates(r, next) ensures UpdateAccepted(fates[1..], r, next, j, size) {
        ShiftedUpdate(fates, r, k, j, size);
      }
    }
    if UpdateAccepted(fates, r, k, 0, size) && AllAccepted(fates[1..], r, next, size) {
      forall j | 0 <= j < Updates(r, k) ensures UpdateAccepted(fates, r, k, j, size) {
        if j > 0 { ShiftedUpdate(fates, r, k, j - 1, size); }
      }
    }
  }

  lemma AppendBatchExact(w: World, r: CheckRequest, id: nat, cursor: nat, size: Body -> nat)
    requires HasRun(w.runs, id) && cursor <= |r.annotations|
    ensures var (res, w') := AppendBatch(w, r, id, cursor, size);
      && (res.Ok? <==> BatchEncodes(r, cursor, size) && Accepted(w.fates, 0))
      && (res.Ok? ==> w'.fates == w.fates[1..] && w'.sent == w.sent + 1)
      && w.sent <= w'.sent <= w.sent + 1
      && HasRun(w'.runs, id)
  {
    hide CheckBody;
    var i :| 0 <= i < |w.runs| && w.runs[i].id == id;
    var w' := AppendBatch(w, r, id, cursor, size).1;
    assert w'.runs[i].id == id;
  }

  lemma {:induction false} AppendBatchesExact(w: World, r: CheckRequest, id: nat, cursor: nat, size: Body -> nat)
    requires HasRun(w.runs, id) && cursor < |r.annotations|
    ensures var (res, w') := AppendBatches(w, r, id, cursor, size);
      && (res.Ok? <==> AllAccepted(w.fates, r, cursor, size))
      && (res.Ok? ==> w'.sent == w.sent + Updates(r, cursor))
      && w.sent <= w'.sent <= w.sent + Updates(r, cursor)
    decreases |r.annotations| - cursor
  {
    AppendBatchExact(w, r, id, cursor, size);
    var w1 := AppendBatch(w, r, id, cursor, size).1;
    if cursor + MAX_ANNOTATIONS_PER_REQUEST < |r.annotations| {
      NextUpdate(w.fates, r, cursor, size);
      AppendBatchesExact(w1, r, id, cursor + MAX_ANNOTATIONS_PER_REQUEST, size);
    } else {
      LastUpdate(w.fates, r, cursor, size);
    }
  }

  lemma AppendExact(w: World, r: CheckRequest, id: nat, start: nat, size: Body -> nat)
    requires HasRun(w.runs, id) && start <= |r.annotations|
    ensures var (res, w') := Append(w, r, id, start, size);
      && (res.Ok? <==> AllAccepted(w.fates, r, start, size))
      && (res.Ok? ==> w'.sent == w.sent + Updates(r, start))
      && w.sent <= w'.sent <= w.sent + Updates(r, start)
  {
    if start == |r.annotations| {
      AppendBatchExact(w, r, id, start, size);
      LastUpdate(w.fates, r, start, size);
    } else {
      AppendBatchesExact(w, r, id, start, size);
    }
  }

  /**
   A resume from `k` of `n` annotations succeeds exactly when its max(1, ceil((n-k)/50)) updates
   encode and are accepted, and then sends just those.
   */
  lemma ResumeExact(w: World, r: CheckRequest, from: Reconciled, admitted: bool, size: Body -> nat)
    requires HasRun(w.runs, from.checkRunId) && from.confirmed <= |r.annotations|
    ensures var (res, w') := Resume(w, r, from, admitted, size);
      && (res.Ok? <==> admitted && AllAccepted(w.fates, r, from.confirmed, size))
      && (res.Ok? ==> w'.sent == w.sent + Updates(r, from.confirmed))
      && w'.sent <= w.sent + Updates(r, from.confirmed)
      && (res.Ok? ==> (res.value.annotationRequests == w'.sent - w.sent <==> from.confirmed < |r.annotations|))
  {
    AppendExact(w, r, from.checkRunId, from.confirmed, size);
    var rest := Append(w, r, from.checkRunId, from.confirmed, size).0;
    assert rest.Ok? <==> AllAccepted(w.fates, r, from.confirmed, size);
    assert Resume(w, r, from, admitted, size).0.Ok? <==> admitted && rest.Ok?;
  }

  /** The create request is delivered, answered 201 and its answer names the run. */
  predicate CreateAccepted(w: World) {
    w.fates != [] && w.fates[0].Answered? && w.fates[0].code == 201 && w.fates[0].readable
  }

  /**
   A publication succeeds exactly when the create and every update encode and are accepted.
   It sends max(2, ceil(n/50)) requests: with at most one batch the empty remainder still
   costs an update, so the reported request count is the true one only beyond 50 annotations.
   */
  lemma PublishExact(w: World, r: CheckRequest, admitted: bool, size: Body -> nat)
    requires 0 < w.nextId
    ensures var (res, w') := Publish(w, r, admitted, size);
      var body := CheckBody(r, r.annotations[..BatchEnd(r, 0)], true, size);
      && (res.Ok? <==>
            && admitted && body.Ok? && CreateAccepted(w)
            && AllAccepted(w.fates[1..], r, BatchEnd(r, 0), size))
      && (res.Ok? ==> w'.sent == w.sent + Max(Chunks(|r.annotations|), 2))
      && w'.sent <= w.sent + Max(Chunks(|r.annotations|), 2)
      && (res.Ok? ==> (res.value.annotationRequests == w'.sent - w.sent <==> MAX_ANNOTATIONS_PER_REQUEST < |r.annotations|))
  {
    hide PublicTitle, PublicSummary, AnnotationFits, Append, AllAccepted;
    var body := CheckBody(r, r.annotations[..BatchEnd(r, 0)], true, size);
    if admitted && body.Ok? && CreateAccepted(w) {
      var w1 := Exchange(w, w.runs + [Created(w, body.value)], w.nextId + 1);
      assert w1.runs[|w.runs|].id == w.nextId;
      AppendExact(w1, r, w.nextId, BatchEnd(r, 0), size);
      var rest := Append(w1, r, w.nextId, BatchEnd(r, 0), size).0;
      assert w1.fates == w.fates[1..];
      assert Publish(w, r, admitted, size).0.Ok? <==> rest.Ok?;
      assert Updates(r, BatchEnd(r, 0)) + 1 == Max(Chunks(|r.annotations|), 2);
    }
  }

  // ---------------------------------------------------------------- the page limit

  lemma AppendBatchKeepsMatches(w: World, r: CheckRequest, id: nat, cursor: nat, size: Body -> nat)
    requires cursor <= |r.annotations|
    ensures var w' := AppendBatch(w, r, id, cursor, size).1;
      && |w'.runs| == |w.runs| && forall j :: 0 <= j < |w.runs| && Is(w.runs[j], r) ==> Is(w'.runs[j], r)
  {
  }

  lemma {:induction false} AppendBatchesKeepMatches(w: World, r: CheckRequest, id: nat, cursor: nat, size: Body -> nat)
    requires cursor <= |r.annotations|
    ensures var w' := AppendBatches(w, r, id, cursor, size).1;
      && |w'.runs| == |w.runs| && forall j :: 0 <= j < |w.runs| && Is(w.runs[j], r) ==> Is(w'.runs[j], r)
    decreases |r.annotations| - cursor
  {
    if cursor < |r.annotations| {
      AppendBatchKeepsMatches(w, r, id, cursor, size);
      var (one, w1) := AppendBatch(w, r, id, cursor, size);
      if one.Ok? { AppendBatchesKeepMatches(w1, r, id, BatchEnd(r, cursor), size); }
    }
  }

  /** A publication whose create is applied adds a matching run and takes none away. */
  lemma PublishAdds(w: World, r: CheckRequest, size: Body -> nat)
    requires CheckBody(r, r.annotations[..BatchEnd(r, 0)], true, size).Ok? && Applies(NextFate(w))
    ensures var w' := Publish(w, r, true, size).1;
      && |w'.runs| == |w.runs| + 1 && Is(w'.runs[|w.runs|], r)
      && forall j :: 0 <= j < |w.runs| && Is(w.runs[j], r) ==> Is(w'.runs[j], r)
  {
    hide PublicTitle, PublicSummary, AnnotationFits;
    var body := CheckBody(r, r.annotations[..BatchEnd(r, 0)], true, size);
    var w1 := Exchange(w, w.runs + [Created(w, body.value)], w.nextId + 1);
    assert Is(w1.runs[|w.runs|], r);
    AppendBatchKeepsMatches(w1, r, w.nextId, BatchEnd(r, 0), size);
    AppendBatchesKeepMatches(w1, r, w.nextId, BatchEnd(r, 0), size);
  }

  /**
   Where requests get through, an attempt keeps the matching run unique exactly when the page
   shows it: a run hidden behind 100 others on the commit is created a second time.
   */
  lemma DuplicateExactly(w: World, r: CheckRequest, size: Body -> nat)
    requires Sound(w, r)
    requires |w.fates| >= 2 && w.fates[0] == Answered(200, true) && Applies(w.fates[1])
    requires CheckBody(r, r.annotations[..BatchEnd(r, 0)], true, size).Ok?
    ensures AtMostOne(Attempt(w, r, true, size).1.runs, r) <==> Visible(w.runs, r)
  {
    if Visible(w.runs, r) {
      AttemptSafe(w, r, true, size);
    } else {
      var i :| 0 <= i < |w.runs| && Is(w.runs[i], r) && w.runs[i] !in Page(w.runs, r.headSha);
      OneOnPage(w.runs, r, i);
      var w1 := Get(w).1;
      assert Reconcile(w, r, true) == (Ok(None), w1);
      PublishAdds(w1, r, size);
      var after := Attempt(w, r, true, size).1.runs;
      assert Is(after[i], r) && Is(after[|w.runs|], r);
    }
  }

  // ---- such a world

  function OtherRun(id: nat): Run { Run(id, "other", "commit", "", Completed, Some(Succeeded), []) }

  function OtherRuns(n: nat): (runs: seq<Run>)
    ensures |runs| == n && forall i :: 0 <= i < n ==> runs[i] == OtherRun(i + 1)
  {
    if n == 0 then [] else OtherRuns(n - 1) + [OtherRun(n)]
  }

  const REQUEST: CheckRequest := CheckRequest("check", "commit", "", Completed, Some(Succeeded), "", "", false, false, [])

  /** A hundred other runs on the commit, and then the one that matches. */
  function HiddenRuns(): seq<Run> {
    OtherRuns(RUNS_PER_PAGE) + [Run(RUNS_PER_PAGE + 1, "check", "commit", "", Completed, Some(Succeeded), [])]
  }

  function HiddenWorld(): World {
    World(HiddenRuns(), RUNS_PER_PAGE + 2, [Answered(200, true), Answered(201, true), Answered(200, true)], [], 0)
  }

  lemma {:induction false} AllOnCommit(runs: seq<Run>, headSha: string)
    requires forall i :: 0 <= i < |runs| ==> runs[i].headSha == headSha
    ensures RunsOn(runs, headSha) == runs
  {
    if runs != [] {
      AllOnCommit(runs[1..], headSha);
      assert runs == [runs[0]] + runs[1..];
    }
  }

  lemma HiddenAt(i: nat)
    requires i <= RUNS_PER_PAGE
    ensures |HiddenRuns()| == RUNS_PER_PAGE + 1 && HiddenRuns()[i].id == i + 1 && HiddenRuns()[i].headSha == "commit"
    ensures HiddenRuns()[i].annotations == [] && (Is(HiddenRuns()[i], REQUEST) <==> i == RUNS_PER_PAGE)
  {
    hide OtherRuns;
  }

  lemma HiddenSound()
    ensures Sound(HiddenWorld(), REQUEST)
  {
    hide HiddenRuns, Is, REQUEST;
    HiddenAt(0);
    forall i | 0 <= i <= RUNS_PER_PAGE
      ensures HiddenRuns()[i].id == i + 1 && HiddenRuns()[i].annotations == [] && (Is(HiddenRuns()[i], REQUEST) <==> i == RUNS_PER_PAGE)
    {
      HiddenAt(i);
    }
  }

  lemma NotVisible()
    ensures !Visible(HiddenRuns(), REQUEST)
  {
    hide HiddenRuns, Is;
    var runs := HiddenRuns();
    HiddenAt(100);
    forall i | 0 <= i <= RUNS_PER_PAGE ensures runs[i].headSha == "commit" && runs[i].id == i + 1 { HiddenAt(i); }
    AllOnCommit(runs, "commit");
    assert Page(runs, "commit") == runs[..100];
    assert runs[100] !in runs[..100];
  }

  lemma RequestEncodes(size: Body -> nat)
    requires forall b :: size(b) <= MAX_REQUEST_BYTES
    ensures CheckBody(REQUEST, REQUEST.annotations[..BatchEnd(REQUEST, 0)], true, size).Ok?
  {
    ByteLengthBound(PublicTitle(REQUEST));
    ByteLengthBound(PublicSummary(REQUEST));
    assert Markdown.Escaped("") == "";
  }

  /** A hundred and one runs on the commit, the match last: it is created again although every request gets through. */
  lemma HiddenDuplicated(size: Body -> nat)
    requires forall b :: size(b) <= MAX_REQUEST_BYTES
    ensures Sound(HiddenWorld(), REQUEST) && !AtMostOne(Attempt(HiddenWorld(), REQUEST, true, size).1.runs, REQUEST)
  {
    hide Attempt, Sound, Visible, AtMostOne, CheckBody, HiddenRuns;
    HiddenSound();
    NotVisible();
    RequestEncodes(size);
    DuplicateExactly(HiddenWorld(), REQUEST, size);
  }

  /** At most 100 runs on the commit make every matching run visible. */
  lemma {:induction false} FewRunsVisible(runs: seq<Run>, r: CheckRequest)
    requires |RunsOn(runs, r.headSha)| <= RUNS_PER_PAGE
    ensures Visible(runs, r)
  {
    forall i | 0 <= i < |runs| && Is(runs[i], r)
      ensures runs[i] in Page(runs, r.headSha)
    {
      OnCommit(runs, r.headSha, i);
    }
  }

  lemma {:induction false} OnCommit(runs: seq<Run>, headSha: string, i: nat)
    requires i < |runs| && runs[i].headSha == headSha
    ensures runs[i] in RunsOn(runs, headSha)
  {
    if i > 0 {
      OnCommit(runs[1..], headSha, i - 1);
    }
  }

  // ---------------------------------------------------------------- liveness

  /** Every request of an attempt gets through: `create` says whether the second one is a create. */
  predicate AllThrough(fates: seq<Fate>, create: bool) {
    && |fates| >= 2
    && (forall j :: 0 <= j < |fates| ==> fates[j].Answered? && fates[j].readable)
    && (forall j :: 0 <= j < |fates| && j != 1 ==> fates[j].code == 200)
    && fates[1].code == if create then 201 else 200
  }

  predicate Matched(runs: seq<Run>, r: CheckRequest) {
    exists i :: 0 <= i < |runs| && Is(runs[i], r)
  }

  /** From any sound, visible history one attempt whose requests all get through delivers the request. */
  lemma AttemptCompletes(w: World, r: CheckRequest, size: Body -> nat)
    requires Sound(w, r) && Visible(w.runs, r)
    requires CheckBody(r, r.annotations[..BatchEnd(r, 0)], true, size).Ok?
    requires forall k :: 0 <= k <= |r.annotations| ==> BatchEncodes(r, k, size)
    requires AllThrough(w.fates, !Matched(w.runs, r))
    requires |w.fates| >= 2 + Max(Chunks(|r.annotations|), 2)
    ensures var (res, w') := Attempt(w, r, true, size);
      res.Ok? && Delivered(w'.runs, r, res.value.checkRunId)
  {
    hide CheckBody, Append, AllAccepted, Visible;
    AttemptSafe(w, r, true, size);
    if i :| 0 <= i < |w.runs| && Is(w.runs[i], r) {
      ResumeCompletes(w, r, i, size);
    } else {
      NoneOnPage(w.runs, r);
      var w1 := Get(w).1;
      assert Reconcile(w, r, true) == (Ok(None), w1);
      AllEncodedAccepted(w1.fates[1..], r, BatchEnd(r, 0), size);
      PublishExact(w1, r, true, size);
    }
  }

  /** Reconciliation whose requests get through finds the visible run with its count. */
  lemma Found(w: World, r: CheckRequest, i: nat)
    requires Sound(w, r) && Visible(w.runs, r) && i < |w.runs| && Is(w.runs[i], r)
    requires AllThrough(w.fates, false)
    ensures |w.runs[i].annotations| <= |r.annotations|
    ensures var from := Reconciled(w.runs[i].id, |w.runs[i].annotations|);
      Reconcile(w, r, true) == (Ok(Some(from)), Get(Get(w).1).1)
  {
    hide Visible, Sound, Numbered, MatchingIds, Page, RunWithId, Holds, AtMostOne, Is, Confirm;
    MatchHolds(w, r, i);
    OneOnPage(w.runs, r, i);
    RunWithIdAt(w.runs, w.nextId, i);
    var w1 := Get(w).1;
    ConfirmExact(w1, Get(w1).1, r, i);
  }

  lemma ResumeCompletes(w: World, r: CheckRequest, i: nat, size: Body -> nat)
    requires Sound(w, r) && Visible(w.runs, r) && i < |w.runs| && Is(w.runs[i], r)
    requires forall k :: 0 <= k <= |r.annotations| ==> BatchEncodes(r, k, size)
    requires AllThrough(w.fates, false)
    requires |w.fates| >= 2 + Max(Chunks(|r.annotations|), 2)
    ensures Attempt(w, r, true, size).0.Ok?
  {
    hide Sound, Visible, Reconcile, Append, AllAccepted, Is;
    Found(w, r, i);
    var from := Reconciled(w.runs[i].id, |w.runs[i].annotations|);
    var w2 := Get(Get(w).1).1;
    assert w2.runs[i].id == from.checkRunId;
    assert HasRun(w2.runs, from.checkRunId);
    AllEncodedAccepted(w2.fates, r, from.confirmed, size);
    ResumeExact(w2, r, from, true, size);
  }

  lemma AllEncodedAccepted(fates: seq<Fate>, r: CheckRequest, k: nat, size: Body -> nat)
    requires k <= |r.annotations|
    requires forall k :: 0 <= k <= |r.annotations| ==> BatchEncodes(r, k, size)
    requires |fates| >= Updates(r, k)
    requires forall j :: 0 <= j < |fates| ==> Accepted(fates, j)
    ensures AllAccepted(fates, r, k, size)
  {
    forall j | 0 <= j < Updates(r, k)
      ensures UpdateAccepted(fates, r, k, j, size)
    {
    }
  }
}
