/** What an imported trusted-target workflow runs. */
module TrustedRuns {
  import opened Results
  import opened Text
  import opened Validation
  import opened Workflow
  import opened Expressions
  import opened Lossless
  import opened Actions
  import opened Compatibility

  /** The image that a container action makes the job's, under the name that its lock entry has. */
  function ImageSource(target: Target, reference: string): Option<string> {
    match target
    case Direct(image) => Some(image)
    case Prepared(action) => if action.program.ContainerProgram? then Some(reference) else None
    case _ => None
  }

  function SourceOf(step: Step, options: Options, lib: Library): Option<string> {
    match StaticReference(step, lib) case None => None case Some(reference) => ImageSource(TargetOf(reference, options), reference)
  }

  function StepTarget(step: Step, options: Options, lib: Library): Target {
    if step.uses.Some? then TargetOfUses(step.uses.value, options, lib) else Refused
  }

  /** One image for the job: a container step makes it, and no later step changes it. */
  lemma ImageKept(step: Step, s: JobState, options: Options, lib: Library)
    requires StepOk(step, s, options, lib)
    ensures SourceOf(step, options, lib).Some? ==> StateAfter(step, s, options, lib).image == SourceOf(step, options, lib)
    ensures s.image.Some? ==> StateAfter(step, s, options, lib).image == s.image
  {
    hide StaticString, HeadOk, TargetOf, InputsOk, Rendered, NoRawSecrets, BuiltinOk, ComponentOk, EnvApart, ScriptOk, ActionInputs;
  }

  lemma {:induction false} ImageStays(steps: seq<Step>, k: nat, n: nat, options: Options, lib: Library)
    requires k < n <= |steps| && StepsOkTo(steps, n, options, lib) && SourceOf(steps[k], options, lib).Some?
    ensures StateBefore(steps, n, options, lib).image == SourceOf(steps[k], options, lib)
  {
    hide StepOk, StateAfter, SourceOf;
    ImageKept(steps[n - 1], StateBefore(steps, n - 1, options, lib), options, lib);
    if k < n - 1 { ImageStays(steps, k, n - 1, options, lib); }
  }

  /** An exact component with a lock entry, or a container in an image that is pinned or has a lock entry. */
  ghost predicate RunsPinned(step: NativeStep, runner: NativeRunner, images: set<ImageLock>, components: set<ComponentLock>) {
    || (step.uses.Some? && ComponentPinned(step.uses.value, components))
    || (step.run.Some? && step.run.value.Container? && runner.image.Some? && Pinned(runner.image.value, images))
  }

  /** What a kept action step runs follows from what its reference stands for. */
  lemma KindOf(step: Step, native: NativeStep, outputs: map<string, NativeOutput>, options: Options, lib: Library)
    requires StepKept(step, native, outputs, options, lib) && step.run.None?
    ensures step.uses.Some?
    ensures StepTarget(step, options, lib).BuiltIn? <==> native.uses.None? && native.run.Some? && native.run.value.Command?
    ensures SourceOf(step, options, lib).Some? <==> native.uses.None? && native.run.Some? && native.run.value.Container?
    ensures native.uses.Some? ==> native.run.None?
    ensures native.run.Some? ==> !native.run.value.Script?
    ensures native.uses.Some? || native.run.Some?
  {
    hide DisjointUnion, ContainerSets, EnvCarries, ActionInputs, LowerNamed, Effective, AllOk, CachePaths, NoRawSecrets,
      StaticString, TargetOf, Rendered, HasToken;
    var m: ActionMapping :|
      MappingKept(step, m, outputs, options, lib) && Carries(native, m) && DisjointUnion(step.env, m.env, native.env);
    var target := StepTarget(step, options, lib);
    assert TargetKept(target, step.inputs, m, outputs, lib);
  }

  /**
   A step of an imported trusted-target workflow never runs a script. It runs pinned, a container
   in the image that it names itself, exactly when its reference is not that of a built-in action.
   */
  lemma TrustedStepPinned(
    w: Source, native: NativeWorkflow, states: seq<PermissionState>, images: set<ImageLock>, components: set<ComponentLock>,
    options: Options, lib: Library, i: nat, k: nat)
    requires WorkflowOk(w, options, lib) && w.trustedTarget && WorkflowKept(w, native, options, lib)
    requires JobsSafe(w.jobs, native.jobs, states, images, components)
    requires i < |w.jobs| && k < |w.jobs[i].1.steps|
    ensures w.jobs[i].0 in native.jobs && k < |native.jobs[w.jobs[i].0].steps|
    ensures var step, job := w.jobs[i].1.steps[k], native.jobs[w.jobs[i].0];
      && (job.steps[k].run.Some? ==> !job.steps[k].run.value.Script?)
      && (RunsPinned(job.steps[k], job.runner, images, components) <==> !StepTarget(step, options, lib).BuiltIn?)
      && (SourceOf(step, options, lib).Some? ==> job.runner.image == SourceOf(step, options, lib))
  {
    var job, converted := w.jobs[i].1, native.jobs[w.jobs[i].0];
    assert TrustedJob(job, options, lib) && JobKept(job, converted, options, lib) && JobOk(w.jobs[i].0, job, options, lib);
    assert JobSafe(converted, states[i], images, components);
    TrustedJobPinned(w.jobs[i].0, job, converted, states[i], images, components, options, lib, k);
  }

  lemma TrustedJobPinned(
    id: string, job: Job, native: NativeJob, state: PermissionState, images: set<ImageLock>, components: set<ComponentLock>,
    options: Options, lib: Library, k: nat)
    requires JobOk(id, job, options, lib) && TrustedJob(job, options, lib) && JobKept(job, native, options, lib)
    requires JobSafe(native, state, images, components) && k < |job.steps|
    ensures |native.steps| == |job.steps|
    ensures native.steps[k].run.Some? ==> !native.steps[k].run.value.Script?
    ensures RunsPinned(native.steps[k], native.runner, images, components) <==> !StepTarget(job.steps[k], options, lib).BuiltIn?
    ensures SourceOf(job.steps[k], options, lib).Some? ==> native.runner.image == SourceOf(job.steps[k], options, lib)
  {
    hide JobHeadOk, StepOk, StateAfter, StepKept, SourceOf, StepTarget, ComponentPinned, Pinned, CapabilitiesWithin;
    assert TrustedStep(job.steps[k], options, lib);
    assert StepKept(job.steps[k], native.steps[k], native.outputs, options, lib);
    KindOf(job.steps[k], native.steps[k], native.outputs, options, lib);
    assert StepSafe(native.steps[k], state, components);
    if SourceOf(job.steps[k], options, lib).Some? { ImageStays(job.steps, k, |job.steps|, options, lib); }
  }

  // ---------------------------------------------------------------- names of built-in actions

  predicate BuiltinName(reference: string) {
    RSplitOnce(reference, "@").Some? && BuiltinOf(ToAsciiLower(RSplitOnce(reference, "@").value.0)).Some?
  }

  predicate NoBuiltinNames(options: Options) { forall r :: r in options.actions ==> !BuiltinName(r) }

  lemma NameLetters(name: string)
    ensures BuiltinOf(name).Some? ==> |name| > 6 && name[6] != ':'
  {
  }

  /** A `docker://` reference is not the name of a built-in action. */
  lemma DockerIsNoName(reference: string)
    requires StartsWith(reference, "docker://")
    ensures !BuiltinName(reference)
  {
    var parts := RSplitOnce(reference, "@");
    if parts.Some? && |parts.value.0| > 6 {
      var name := ToAsciiLower(parts.value.0);
      assert reference[6] == "docker://"[6] && reference[6] == parts.value.0[6];
      assert name[6] == ':';
      NameLetters(name);
    }
    if parts.Some? { NameLetters(ToAsciiLower(parts.value.0)); }
  }

  /** The target of a trusted step is a built-in action exactly for the name of one. */
  lemma BuiltinMeans(reference: string, options: Options)
    requires !TargetOf(reference, options).Refused?
    ensures TargetOf(reference, options).BuiltIn? <==> BuiltinName(reference)
  {
  }

  /** When no prepared action has a built-in name, every step of an imported trusted-target workflow runs pinned. */
  lemma AllRunPinned(
    w: Source, native: NativeWorkflow, states: seq<PermissionState>, images: set<ImageLock>, components: set<ComponentLock>,
    options: Options, lib: Library, i: nat, k: nat)
    requires WorkflowOk(w, options, lib) && w.trustedTarget && WorkflowKept(w, native, options, lib)
    requires JobsSafe(w.jobs, native.jobs, states, images, components) && NoBuiltinNames(options)
    requires i < |w.jobs| && k < |w.jobs[i].1.steps|
    ensures w.jobs[i].0 in native.jobs && k < |native.jobs[w.jobs[i].0].steps|
    ensures RunsPinned(native.jobs[w.jobs[i].0].steps[k], native.jobs[w.jobs[i].0].runner, images, components)
  {
    hide WorkflowKept, JobsSafe, RunsPinned;
    TrustedStepPinned(w, native, states, images, components, options, lib, i, k);
    var job := w.jobs[i].1;
    assert TrustedJob(job, options, lib) && JobOk(w.jobs[i].0, job, options, lib);
    NoBuiltinTarget(job.steps[k], StateBefore(job.steps, k, options, lib), options, lib);
  }

  lemma NoBuiltinTarget(step: Step, s: JobState, options: Options, lib: Library)
    requires TrustedStep(step, options, lib) && StepOk(step, s, options, lib) && NoBuiltinNames(options)
    ensures !StepTarget(step, options, lib).BuiltIn?
  {
    hide BuiltinName, TargetOf, HeadOk, StaticString, IsFullSha256Image, EnvApart, ExactProgram;
    var reference := StaticReference(step, lib).value;
    if StartsWith(reference, "docker://") { DockerIsNoName(reference); }
    BuiltinMeans(reference, options);
  }

  /** `pinned_repository_action_references`: what is to be resolved before an import. */
  predicate ToBePrepared(step: Step, reference: string) {
    && step.uses == Some(Str(reference)) && RSplitOnce(reference, "@").Some? && !BuiltinName(reference)
    && IsFullGitCommit(RSplitOnce(reference, "@").value.1) && IsCanonicalRepositoryAction(RSplitOnce(reference, "@").value.0)
  }

  predicate SomeStepNeeds(jobs: seq<(string, Job)>, reference: string) {
    exists i, k :: 0 <= i < |jobs| && 0 <= k < |jobs[i].1.steps| && ToBePrepared(jobs[i].1.steps[k], reference)
  }

  method PinnedReferences(jobs: seq<(string, Job)>) returns (references: set<string>)
    ensures forall r :: r in references <==> SomeStepNeeds(jobs, r)
  {
    hide ToBePrepared;
    references := {};
    for i := 0 to |jobs|
      invariant forall r :: r in references <==> SomeStepNeeds(jobs[..i], r)
    {
      var steps := jobs[i].1.steps;
      ghost var before := references;
      for k := 0 to |steps|
        invariant forall r :: r in references <==> r in before || exists j :: 0 <= j < k && ToBePrepared(steps[j], r)
      {
        var reference := ReferenceToPrepare(steps[k]);
        if reference.Some? { references := references + {reference.value}; }
      }
      forall r ensures SomeStepNeeds(jobs[..i + 1], r) <==> r in references { NeedsMore(jobs, i, r); }
    }
    assert jobs[..|jobs|] == jobs;
  }

  method ReferenceToPrepare(step: Step) returns (r: Option<string>)
    ensures forall reference :: r == Some(reference) <==> ToBePrepared(step, reference)
  {
    r := None;
    if step.uses.None? || !step.uses.value.Str? { return; }
    var reference := step.uses.value.s;
    var parts := RSplitOnce(reference, "@");
    if parts.None? { return; }
    var (action, selector) := parts.value;
    if BuiltinOf(ToAsciiLower(action)).Some? || !IsFullGitCommit(selector) || !IsCanonicalRepositoryAction(action) { return; }
    r := Some(reference);
  }

  lemma NeedsMore(jobs: seq<(string, Job)>, i: nat, r: string)
    requires i < |jobs|
    ensures SomeStepNeeds(jobs[..i + 1], r) <==>
      SomeStepNeeds(jobs[..i], r) || exists k :: 0 <= k < |jobs[i].1.steps| && ToBePrepared(jobs[i].1.steps[k], r)
  {
    hide ToBePrepared;
    var more, less := jobs[..i + 1], jobs[..i];
    assert more[i] == jobs[i] && forall j :: 0 <= j < i ==> more[j] == less[j];
    if SomeStepNeeds(less, r) {
      var j, k :| 0 <= j < |less| && 0 <= k < |less[j].1.steps| && ToBePrepared(less[j].1.steps[k], r);
      assert ToBePrepared(more[j].1.steps[k], r);
    }
    if k :| 0 <= k < |jobs[i].1.steps| && ToBePrepared(jobs[i].1.steps[k], r) {
      assert ToBePrepared(more[i].1.steps[k], r);
    }
  }

  /**
   Preparing what the listing names is safe and enough: no prepared action then has a built-in name,
   and whatever prepared action a step of the workflow can run by a plain reference is listed.
   */
  lemma ListingMeets(jobs: seq<(string, Job)>, options: Options, lib: Library, i: nat, k: nat, r: string)
    requires i < |jobs| && k < |jobs[i].1.steps|
    ensures (forall x :: x in options.actions ==> SomeStepNeeds(jobs, x)) ==> NoBuiltinNames(options)
    ensures jobs[i].1.steps[k].uses == Some(Str(r)) && StepTarget(jobs[i].1.steps[k], options, lib).Prepared? ==>
      SomeStepNeeds(jobs, r)
  {
    if jobs[i].1.steps[k].uses == Some(Str(r)) && StepTarget(jobs[i].1.steps[k], options, lib).Prepared? {
      assert ToBePrepared(jobs[i].1.steps[k], r);
    }
  }
}
