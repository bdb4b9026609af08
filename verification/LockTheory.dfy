/** Which entries the lock file of an import has. */
module LockTheory {
  import opened Results
  import opened Text
  import opened Validation
  import opened Workflow
  import opened Expressions
  import opened Actions
  import opened Compatibility

  datatype Entry = OfImage(image: ImageLock) | OfComponent(component: ComponentLock)

  predicate Listed(e: Entry, s: LockSet) {
    match e case OfImage(l) => l in s.images case OfComponent(l) => l in s.components
  }

  lemma {:induction false} ListedInSteps(e: Entry, steps: seq<Step>, options: Options, lib: Library)
    ensures Listed(e, StepsLocks(steps, options, lib)) <==>
      exists k :: 0 <= k < |steps| && Listed(e, StepLocks(steps[k], options, lib))
  {
    hide StepLocks;
    if steps != [] {
      var n := |steps| - 1;
      ListedInSteps(e, steps[..n], options, lib);
      assert forall k :: 0 <= k < n ==> steps[..n][k] == steps[k];
    }
  }

  lemma {:induction false} ListedInJobs(e: Entry, jobs: seq<(string, Job)>, options: Options, lib: Library)
    ensures Listed(e, JobsLocks(jobs, options, lib)) <==>
      exists i :: 0 <= i < |jobs| && Listed(e, StepsLocks(jobs[i].1.steps, options, lib))
  {
    hide StepsLocks;
    if jobs != [] {
      var n := |jobs| - 1;
      ListedInJobs(e, jobs[..n], options, lib);
      assert forall i :: 0 <= i < n ==> jobs[..n][i] == jobs[i];
    }
  }

  /** The step runs the prepared action with this reference. */
  predicate Runs(step: Step, reference: string, options: Options, lib: Library) {
    StaticReference(step, lib) == Some(reference) && TargetOf(reference, options).Prepared?
  }

  predicate SomeStepRuns(jobs: seq<(string, Job)>, reference: string, options: Options, lib: Library) {
    exists i, k :: 0 <= i < |jobs| && 0 <= k < |jobs[i].1.steps| && Runs(jobs[i].1.steps[k], reference, options, lib)
  }

  lemma EntryOfStep(e: Entry, step: Step, options: Options, lib: Library)
    ensures Listed(e, StepLocks(step, options, lib)) <==>
      exists r :: Runs(step, r, options, lib) && Listed(e, ProgramLocks(r, options.actions[r].program))
  {
    hide StaticString, ProgramLocks;
    var reference := StaticReference(step, lib);
    if reference.Some? && Runs(step, reference.value, options, lib) {
      assert TargetOf(reference.value, options).action == options.actions[reference.value];
    }
  }

  /** The lock file has exactly the entries of the prepared actions that steps of the workflow run. */
  lemma LocksExact(e: Entry, jobs: seq<(string, Job)>, options: Options, lib: Library)
    ensures Listed(e, JobsLocks(jobs, options, lib)) <==>
      exists r :: SomeStepRuns(jobs, r, options, lib) && r in options.actions && Listed(e, ProgramLocks(r, options.actions[r].program))
  {
    hide Listed, StepLocks, ProgramLocks, TargetOf, StaticReference;
    ListedInJobs(e, jobs, options, lib);
    if Listed(e, JobsLocks(jobs, options, lib)) {
      var i :| 0 <= i < |jobs| && Listed(e, StepsLocks(jobs[i].1.steps, options, lib));
      ListedInSteps(e, jobs[i].1.steps, options, lib);
      var k :| 0 <= k < |jobs[i].1.steps| && Listed(e, StepLocks(jobs[i].1.steps[k], options, lib));
      EntryOfStep(e, jobs[i].1.steps[k], options, lib);
      var r :| Runs(jobs[i].1.steps[k], r, options, lib) && Listed(e, ProgramLocks(r, options.actions[r].program));
      assert SomeStepRuns(jobs, r, options, lib);
    }
    if r :| SomeStepRuns(jobs, r, options, lib) && r in options.actions && Listed(e, ProgramLocks(r, options.actions[r].program)) {
      var i, k :| 0 <= i < |jobs| && 0 <= k < |jobs[i].1.steps| && Runs(jobs[i].1.steps[k], r, options, lib);
      EntryOfStep(e, jobs[i].1.steps[k], options, lib);
      ListedInSteps(e, jobs[i].1.steps, options, lib);
    }
  }

  /** Two prepared actions that share a component but not its signer and interface. */
  predicate Disagree(p: Program, q: Program) {
    && p.ComponentProgram? && q.ComponentProgram? && p.reference == q.reference
    && (p.signatureIdentity != q.signatureIdentity || p.wit != q.wit)
  }

  predicate Twice(components: set<ComponentLock>) {
    exists a, b :: a in components && b in components && a.source == b.source && a != b
  }

  predicate SomeDisagree(jobs: seq<(string, Job)>, options: Options, lib: Library) {
    exists r, s :: r in options.actions && s in options.actions
      && SomeStepRuns(jobs, r, options, lib) && SomeStepRuns(jobs, s, options, lib)
      && Disagree(options.actions[r].program, options.actions[s].program)
  }

  /** A component action that is run has one entry, which carries its signer and its interface. */
  lemma EntryOfComponent(jobs: seq<(string, Job)>, r: string, options: Options, lib: Library)
    requires SomeStepRuns(jobs, r, options, lib) && r in options.actions && options.actions[r].program.ComponentProgram?
    ensures var p := options.actions[r].program;
      && RSplitOnce(p.reference, "@").Some?
      && ComponentLock(p.reference, RSplitOnce(p.reference, "@").value.1, p.signatureIdentity, p.wit)
           in JobsLocks(jobs, options, lib).components
  {
    hide JobsLocks, StaticReference;
    var p := options.actions[r].program;
    assert Usable(p);
    ComponentDigest(p.reference);
    var entry := ComponentLock(p.reference, RSplitOnce(p.reference, "@").value.1, p.signatureIdentity, p.wit);
    assert Listed(OfComponent(entry), ProgramLocks(r, p));
    LocksExact(OfComponent(entry), jobs, options, lib);
  }

  /**
   Some component has two entries exactly when two prepared actions that the workflow runs share it
   and differ in its signer or in its interface.
   */
  lemma TwoEntriesExactly(jobs: seq<(string, Job)>, options: Options, lib: Library)
    ensures Twice(JobsLocks(jobs, options, lib).components) <==> SomeDisagree(jobs, options, lib)
  {
    hide JobsLocks, SomeStepRuns;
    var components := JobsLocks(jobs, options, lib).components;
    if Twice(components) {
      var a, b :| a in components && b in components && a.source == b.source && a != b;
      LocksExact(OfComponent(a), jobs, options, lib);
      LocksExact(OfComponent(b), jobs, options, lib);
      assert Listed(OfComponent(a), JobsLocks(jobs, options, lib)) && Listed(OfComponent(b), JobsLocks(jobs, options, lib));
      var r :| SomeStepRuns(jobs, r, options, lib) && r in options.actions
        && Listed(OfComponent(a), ProgramLocks(r, options.actions[r].program));
      var s :| SomeStepRuns(jobs, s, options, lib) && s in options.actions
        && Listed(OfComponent(b), ProgramLocks(s, options.actions[s].program));
      assert Disagree(options.actions[r].program, options.actions[s].program);
    }
    if SomeDisagree(jobs, options, lib) {
      var r, s :| r in options.actions && s in options.actions
        && SomeStepRuns(jobs, r, options, lib) && SomeStepRuns(jobs, s, options, lib)
        && Disagree(options.actions[r].program, options.actions[s].program);
      EntryOfComponent(jobs, r, options, lib);
      EntryOfComponent(jobs, s, options, lib);
    }
  }

  /** No image has two entries. */
  lemma ImagesOnce(jobs: seq<(string, Job)>, options: Options, lib: Library, a: ImageLock, b: ImageLock)
    requires a in JobsLocks(jobs, options, lib).images && b in JobsLocks(jobs, options, lib).images && a.source == b.source
    ensures a == b
  {
    hide JobsLocks, SomeStepRuns;
    LocksExact(OfImage(a), jobs, options, lib);
    LocksExact(OfImage(b), jobs, options, lib);
    assert Listed(OfImage(a), JobsLocks(jobs, options, lib)) && Listed(OfImage(b), JobsLocks(jobs, options, lib));
  }
}
