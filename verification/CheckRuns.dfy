/**
 The GitHub side of check-run publication: the runs a provider holds, a transport that
 may lose a request, lose its answer or answer with an error, and the pure meaning of each
 broker operation over them. `Broker.dfy` holds the operations themselves.
 */
module CheckRuns {
  import opened Results
  import opened Text
  import Markdown

  const MAX_ANNOTATIONS_PER_REQUEST: nat := 50
  const MAX_CHECK_TEXT_BYTES: nat := 64 * 1024
  const MAX_CHECK_TITLE_BYTES: nat := 255
  const MAX_REQUEST_BYTES: nat := 2 * 1024 * 1024
  const RUNS_PER_PAGE: nat := 100

  datatype Status = Queued | InProgress | Completed

  datatype Conclusion = ActionRequired | Cancelled | Failed | Neutral | Succeeded | Skipped | TimedOut

  datatype Annotation = Annotation(
    path: string, startLine: nat, endLine: nat, message: string, title: Option<string>)

  datatype CheckRequest = CheckRequest(
    name: string, headSha: string, externalId: string,
    status: Status, conclusion: Option<Conclusion>,
    title: string, summary: string, renderMarkdown: bool, trustedBase: bool,
    annotations: seq<Annotation>)

  datatype Error =
    | InvalidCheckRequest
    | RequestTooLarge
    | MalformedResponse
    | AmbiguousCheckReconciliation
    | Transport
    | RateLimited
    | UnexpectedStatus(status: nat)
    | PartialPublish(checkRunId: nat, confirmed: nat)

  datatype Published = Published(checkRunId: nat, annotationRequests: nat)

  datatype Reconciled = Reconciled(checkRunId: nat, confirmed: nat)

  // ---------------------------------------------------------------- request bodies

  /** The body of a create (`headSha` given) or an update. */
  datatype Body = Body(
    name: string, externalId: string, headSha: Option<string>,
    status: Status, conclusion: Option<Conclusion>,
    title: string, summary: string, annotations: seq<Annotation>)

  /** The annotation as it travels: message and title escaped. */
  function Wire(a: Annotation): Annotation {
    a.(message := Markdown.Escaped(a.message),
       title := if a.title.Some? then Some(Markdown.Escaped(a.title.value)) else None)
  }

  function WireAll(annotations: seq<Annotation>): (r: seq<Annotation>)
    ensures |r| == |annotations|
  {
    seq(|annotations|, i requires 0 <= i < |annotations| => Wire(annotations[i]))
  }

  predicate AnnotationFits(a: Annotation) {
    && ByteLength(Wire(a).message) <= MAX_CHECK_TEXT_BYTES
    && (Wire(a).title.Some? ==> ByteLength(Wire(a).title.value) <= MAX_CHECK_TITLE_BYTES)
  }

  function PlainText(s: string): string {
    seq(|s|, i requires 0 <= i < |s| => if IsControl(s[i]) then ' ' else s[i])
  }

  /** `char::is_control`: the Unicode category Cc. */
  predicate IsControl(c: char) { c < ' ' || '\U{7F}' <= c <= '\U{9F}' }

  function PublicTitle(r: CheckRequest): string {
    if r.renderMarkdown then PlainText(r.title) else Markdown.Escaped(r.title)
  }

  function PublicSummary(r: CheckRequest): string {
    (if r.renderMarkdown then r.summary else Markdown.Escaped(r.summary)) +
    (if r.trustedBase then "\n\nTrusted-base workflow executed: yes" else "\n\nTrusted-base workflow executed: no")
  }

  /** `check_body`; `size` is the length of a body serialized to JSON. */
  function CheckBody(r: CheckRequest, batch: seq<Annotation>, create: bool, size: Body -> nat): Result<Body, Error> {
    if exists i :: 0 <= i < |batch| && !AnnotationFits(batch[i]) then Err(InvalidCheckRequest)
    else if ByteLength(PublicTitle(r)) > MAX_CHECK_TITLE_BYTES || ByteLength(PublicSummary(r)) > MAX_CHECK_TEXT_BYTES then
      Err(InvalidCheckRequest)
    else
      var body := Body(r.name, r.externalId, if create then Some(r.headSha) else None, r.status, r.conclusion,
                       PublicTitle(r), PublicSummary(r), WireAll(batch));
      if size(body) > MAX_REQUEST_BYTES then Err(RequestTooLarge) else Ok(body)
  }

  // ---------------------------------------------------------------- provider and transport

  datatype Run = Run(
    id: nat, name: string, headSha: string, externalId: string,
    status: Status, conclusion: Option<Conclusion>, annotations: seq<Annotation>)

  /** A status that the provider never uses to report success. */
  type ErrorStatus = s: nat | s != 200 && s != 201 witness 500

  /** What becomes of one request. An exhausted script counts as `Lost`. */
  datatype Fate =
    | Lost                                    // never delivered
    | Refused(error: ErrorStatus)             // delivered and not applied
    | AnswerLost                              // applied, the answer never arrives
    | Answered(code: nat, readable: bool)     // applied, answered with any status and any body

  datatype Reply = NoReply | Reply(status: nat, readable: bool)

  /** The provider's runs, the fates of the requests to come, and the provider states seen so far. */
  datatype World = World(runs: seq<Run>, nextId: nat, fates: seq<Fate>, past: seq<seq<Run>>, sent: nat)

  function NextFate(w: World): Fate {
    if w.fates == [] then Lost else w.fates[0]
  }

  predicate Applies(f: Fate) { f.AnswerLost? || f.Answered? }

  function ReplyOf(f: Fate): Reply {
    match f
    case Lost => NoReply
    case AnswerLost => NoReply
    case Refused(error) => Reply(error, false)
    case Answered(code, readable) => Reply(code, readable)
  }

  /** One request whose effect on the provider, if applied, is `runs`. */
  function Exchange(w: World, runs: seq<Run>, nextId: nat): World {
    var applied := Applies(NextFate(w));
    var after := if applied then runs else w.runs;
    World(after, if applied then nextId else w.nextId,
          if w.fates == [] then [] else w.fates[1..], w.past + [after], w.sent + 1)
  }

  /** The provider appends an update's annotations to the run it names and takes over the other fields. */
  function Patched(runs: seq<Run>, id: nat, body: Body): (r: seq<Run>)
    ensures |r| == |runs|
  {
    seq(|runs|, i requires 0 <= i < |runs| =>
      if runs[i].id != id then runs[i]
      else runs[i].(name := body.name, externalId := body.externalId, status := body.status,
                    conclusion := body.conclusion, annotations := runs[i].annotations + body.annotations))
  }

  function Created(w: World, body: Body): Run
    requires body.headSha.Some?
  {
    Run(w.nextId, body.name, body.headSha.value, body.externalId, body.status, body.conclusion, body.annotations)
  }

  predicate HasRun(runs: seq<Run>, id: nat) {
    exists i :: 0 <= i < |runs| && runs[i].id == id
  }

  function RunsOn(runs: seq<Run>, headSha: string): seq<Run> {
    if runs == [] then []
    else (if runs[0].headSha == headSha then [runs[0]] else []) + RunsOn(runs[1..], headSha)
  }

  /** The single page of runs on a commit that reconciliation asks for. */
  function Page(runs: seq<Run>, headSha: string): seq<Run> {
    var on := RunsOn(runs, headSha);
    if |on| <= RUNS_PER_PAGE then on else on[..RUNS_PER_PAGE]
  }

  predicate Is(run: Run, r: CheckRequest) {
    run.name == r.name && run.headSha == r.headSha && run.externalId == r.externalId
  }

  /** The ids of the matching runs, in page order. */
  function MatchingIds(page: seq<Run>, r: CheckRequest): seq<nat> {
    if page == [] then []
    else
      var last := page[|page| - 1];
      MatchingIds(page[..|page| - 1], r) + (if Is(last, r) then [last.id] else [])
  }

  function RunWithId(runs: seq<Run>, id: nat): (r: Option<Run>)
    ensures r.Some? <==> HasRun(runs, id)
    ensures r.Some? ==> r.value in runs && r.value.id == id
  {
    if runs == [] then None
    else if runs[0].id == id then Some(runs[0])
    else RunWithId(runs[1..], id)
  }

  // ---------------------------------------------------------------- meaning of the operations

  function StatusError(status: nat): Error {
    if status == 429 then RateLimited else UnexpectedStatus(status)
  }

  /** One PATCH. An update of a run the provider does not hold is answered 404. */
  function Patch(w: World, id: nat, body: Body): (Reply, World) {
    var reply := ReplyOf(NextFate(w));
    (if reply.Reply? && Applies(NextFate(w)) && !HasRun(w.runs, id) then Reply(404, false) else reply,
     Exchange(w, Patched(w.runs, id, body), w.nextId))
  }

  function BatchEnd(r: CheckRequest, start: nat): nat {
    if start + MAX_ANNOTATIONS_PER_REQUEST < |r.annotations| then start + MAX_ANNOTATIONS_PER_REQUEST else |r.annotations|
  }

  /** One update with the batch that begins at `cursor`, and how its failure is reported. */
  function AppendBatch(w: World, r: CheckRequest, id: nat, cursor: nat, size: Body -> nat): (Result<(), Error>, World)
    requires cursor <= |r.annotations|
  {
    match CheckBody(r, r.annotations[cursor..BatchEnd(r, cursor)], false, size)
    case Err(e) => (Err(e), w)
    case Ok(body) =>
      var (reply, w') := Patch(w, id, body);
      if reply.NoReply? then (Err(PartialPublish(id, cursor)), w')
      else if reply.status == 200 then (Ok(()), w')
      else if reply.status == 429 then (Err(RateLimited), w')
      else (Err(PartialPublish(id, cursor)), w')
  }

  /** The batches from `cursor` on; an empty remainder sends nothing here. */
  function AppendBatches(w: World, r: CheckRequest, id: nat, cursor: nat, size: Body -> nat): (Result<(), Error>, World)
    requires cursor <= |r.annotations|
    decreases |r.annotations| - cursor
  {
    if cursor == |r.annotations| then (Ok(()), w)
    else
      var (one, w') := AppendBatch(w, r, id, cursor, size);
      if one.Err? then (one, w') else AppendBatches(w', r, id, BatchEnd(r, cursor), size)
  }

  /** `append_check_annotations`: an empty remainder still sends one update that carries the status. */
  function Append(w: World, r: CheckRequest, id: nat, start: nat, size: Body -> nat): (Result<(), Error>, World)
    requires start <= |r.annotations|
  {
    if start == |r.annotations| then AppendBatch(w, r, id, start, size)
    else AppendBatches(w, r, id, start, size)
  }

  /** `slice::chunks(n).count()`. */
  function Chunks(n: nat): nat {
    (n + MAX_ANNOTATIONS_PER_REQUEST - 1) / MAX_ANNOTATIONS_PER_REQUEST
  }

  function Max(a: nat, b: nat): nat { if a > b then a else b }

  function Publish(w: World, r: CheckRequest, admitted: bool, size: Body -> nat): (Result<Published, Error>, World) {
    if !admitted then (Err(InvalidCheckRequest), w)
    else
      match CheckBody(r, r.annotations[..BatchEnd(r, 0)], true, size)
      case Err(e) => (Err(e), w)
      case Ok(body) =>
        var reply := ReplyOf(NextFate(w));
        var w' := Exchange(w, w.runs + [Created(w, body)], w.nextId + 1);
        if reply.NoReply? then (Err(Transport), w')
        else if reply.status != 201 then (Err(StatusError(reply.status)), w')
        else if !reply.readable || w.nextId == 0 then (Err(MalformedResponse), w')
        else
          var (rest, w'') := Append(w', r, w.nextId, BatchEnd(r, 0), size);
          if rest.Err? then (Err(rest.error), w'')
          else (Ok(Published(w.nextId, Max(Chunks(|r.annotations|), 1))), w'')
  }

  /** One GET: it changes nothing. */
  function Get(w: World): (Result<(), Error>, World) {
    var reply := ReplyOf(NextFate(w));
    var w' := Exchange(w, w.runs, w.nextId);
    if reply.NoReply? then (Err(Transport), w')
    else if reply.status != 200 then (Err(StatusError(reply.status)), w')
    else if !reply.readable then (Err(MalformedResponse), w')
    else (Ok(()), w')
  }

  function Reconcile(w: World, r: CheckRequest, admitted: bool): (Result<Option<Reconciled>, Error>, World) {
    if !admitted then (Err(InvalidCheckRequest), w)
    else
      var (listed, w1) := Get(w);
      if listed.Err? then (Err(listed.error), w1)
      else
        var ids := MatchingIds(Page(w.runs, r.headSha), r);
        if 0 in ids then (Err(MalformedResponse), w1)
        else if |ids| > 1 then (Err(AmbiguousCheckReconciliation), w1)
        else if ids == [] then (Ok(None), w1)
        else
          var (shown, w2) := Get(w1);
          if shown.Err? then (Err(shown.error), w2)
          else Confirm(w1, w2, r, ids[0])
  }

  /** The checks on the single run that the second GET shows. */
  function Confirm(w1: World, w2: World, r: CheckRequest, id: nat): (Result<Option<Reconciled>, Error>, World) {
    match RunWithId(w1.runs, id)
    case None => (Err(MalformedResponse), w2)
    case Some(run) =>
      if !Is(run, r) then (Err(MalformedResponse), w2)
      else if |run.annotations| > |r.annotations| then (Err(AmbiguousCheckReconciliation), w2)
      else (Ok(Some(Reconciled(id, |run.annotations|))), w2)
  }

  function Resume(w: World, r: CheckRequest, from: Reconciled, admitted: bool, size: Body -> nat): (Result<Published, Error>, World)
    requires from.confirmed <= |r.annotations|
  {
    if !admitted then (Err(InvalidCheckRequest), w)
    else
      var (rest, w') := Append(w, r, from.checkRunId, from.confirmed, size);
      if rest.Err? then (Err(rest.error), w')
      else (Ok(Published(from.checkRunId, Chunks(|r.annotations| - from.confirmed))), w')
  }

  /** The publisher of the SCM worker: reconcile first, then resume or create. */
  function Attempt(w: World, r: CheckRequest, admitted: bool, size: Body -> nat): (Result<Published, Error>, World) {
    var (found, w') := Reconcile(w, r, admitted);
    match found
    case Err(e) => (Err(e), w')
    case Ok(None) => Publish(w', r, admitted, size)
    case Ok(Some(from)) => Resume(w', r, from, admitted, size)
  }
}
