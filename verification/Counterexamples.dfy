/** Concrete workflows that the importer accepts and that break an expectation. */
module Counterexamples {
  import opened Results
  import opened Text
  import opened Validation
  import opened Workflow
  import opened Expressions
  import opened Lossless
  import opened Actions
  import opened Compatibility
  import LockTheory
  import TrustedRuns

  // ---------------------------------------------------------------- the smallest workflows

  function Zeros(n: nat): (r: string)
    ensures |r| == n && forall i :: 0 <= i < n ==> r[i] == '0'
  {
    if n == 0 then "" else Zeros(n - 1) + "0"
  }

  function UsesStep(reference: string, inputs: Table): Step {
    Step(None, None, None, Some(Str(reference)), inputs, [], None, None, None, [])
  }

  function OneJob(steps: seq<Step>): Job {
    Job(None, None, Some(Str("ubuntu-latest")), None, [], None, [], steps, [], None, None, None, None, None, None, [])
  }

  function OneWorkflow(steps: seq<Step>, trustedTarget: bool): Source {
    Source(None, trustedTarget, None, [], [("job", OneJob(steps))], [])
  }

  predicate Plain(c: char) { c != '{' && c != '}' && c != NUL }

  lemma PlainText(s: string, lib: Library)
    requires forall i :: 0 <= i < |s| ==> Plain(s[i])
    ensures StaticString(Str(s), lib) == Some(s)
  {
    assert '{' !in s && '}' !in s && NUL !in s;
    NoBraces(s);
  }

  lemma JobIsIdentifier()
    ensures ValidIdentifier("job")
  {
    assert "job"[1..] == "ob" && "ob"[1..] == "b" && "b"[1..] == "";
    assert ByteLength("b") == 1 && ByteLength("ob") == 2 && ByteLength("job") == 3;
  }

  lemma UbuntuAccepted(lib: Library)
    ensures RunnerOk(Some(Str("ubuntu-latest")), lib)
  {
    PlainText("ubuntu-latest", lib);
  }

  lemma JobAccepted(steps: seq<Step>, options: Options, lib: Library)
    requires steps != [] && StepsOk(steps, options, lib) && options.defaultImage.None?
    requires var s := FinalState(OneJob(steps), options, lib); s.wasm ==> s.image.None?
    ensures JobOk("job", OneJob(steps), options, lib)
  {
    hide StepsOk, FinalState, RunnerOk, ValidIdentifier;
    JobIsIdentifier();
    UbuntuAccepted(lib);
  }

  /** Such a workflow is accepted when its steps are. */
  lemma Accepted(steps: seq<Step>, trustedTarget: bool, options: Options, lib: Library)
    requires steps != [] && StepsOk(steps, options, lib) && options.defaultImage.None?
    requires var s := FinalState(OneJob(steps), options, lib); s.wasm ==> s.image.None?
    requires trustedTarget ==> forall k :: 0 <= k < |steps| ==> TrustedStep(steps[k], options, lib)
    ensures WorkflowOk(OneWorkflow(steps, trustedTarget), options, lib)
  {
    JobAccepted(steps, options, lib);
    hide StepsOk, JobOk, TrustedStep, FinalState;
  }

  lemma OneWellFormed(steps: seq<Step>, trustedTarget: bool)
    requires forall k :: 0 <= k < |steps| ==> StepTables(steps[k])
    ensures WellFormed(OneWorkflow(steps, trustedTarget))
  {
    hide StepTables;
  }

  // ---------------------------------------------------------------- references

  /** A repository action at a commit. */
  function AtCommit(action: string): string { action + ['@'] + Zeros(40) }

  lemma CommitParts(action: string, lib: Library)
    requires forall i :: 0 <= i < |action| ==> Plain(action[i])
    ensures RSplitOnce(AtCommit(action), "@") == Some((action, Zeros(40))) && IsFullGitCommit(Zeros(40))
    ensures StaticString(Str(AtCommit(action)), lib) == Some(AtCommit(action))
  {
    var s := AtCommit(action);
    assert forall i :: 0 <= i < 40 ==> Zeros(40)[i] == '0';
    assert '@' !in Zeros(40);
    SplitAtLastIs('@', action, Zeros(40));
    forall i | 0 <= i < |s| ensures Plain(s[i]) {
      if i < |action| { assert s[i] == action[i]; } else if i > |action| { assert s[i] == Zeros(40)[i - |action| - 1]; }
    }
    PlainText(s, lib);
  }

  /** An action step without inputs is accepted as far as it does not depend on its target. */
  lemma BareStep(reference: string, s: JobState, options: Options, lib: Library)
    requires StaticString(Str(reference), lib) == Some(reference)
    requires TargetOk(TargetOf(reference, options), reference, [], s, lib)
    ensures StepOk(UsesStep(reference, []), s, options, lib)
  {
    hide TargetOf, StaticString, TargetOk;
  }

  // ---------------------------------------------------------------- a built-in name in a trusted workflow

  const BUILD: string := "docker/build-push-action"

  const IMAGE: string := "tool" + SHA256_MARK + Zeros(64)

  const BUILD_OPTIONS: Options :=
    Options(map[AtCommit(BUILD) := ResolvedAction([], [], [], true, ContainerProgram(IMAGE, None, None))], None)

  lemma PinnedTool()
    ensures IsFullSha256Image(IMAGE)
  {
    var digest := Zeros(64);
    assert forall i :: 0 <= i < 64 ==> digest[i] == '0';
    PinnedImageParts("tool", digest);
  }

  lemma BuildTarget(options: Options, lib: Library)
    ensures TargetOf(AtCommit(BUILD), options) == BuiltIn(BuildPush) && TrustedRuns.BuiltinName(AtCommit(BUILD))
    ensures StaticString(Str(AtCommit(BUILD)), lib) == Some(AtCommit(BUILD))
  {
    BuildPlain();
    CommitParts(BUILD, lib);
    hide AtCommit, Zeros, RSplitOnce, StaticString, IsFullGitCommit, IsCanonicalRepositoryAction, TrimStartMatches, Usable, ToAsciiLower;
    assert BuiltinOf(BUILD) == Some(BuildPush);
  }

  lemma BuildPlain()
    ensures ToAsciiLower(BUILD) == BUILD && forall i :: 0 <= i < |BUILD| ==> Plain(BUILD[i])
  {
  }

  lemma BuildTrusted(lib: Library)
    ensures TrustedStep(UsesStep(AtCommit(BUILD), []), BUILD_OPTIONS, lib)
  {
    BuildTarget(BUILD_OPTIONS, lib);
    PinnedTool();
    hide IsFullSha256Image, StaticString, AtCommit, TargetOf, TrustedRuns.BuiltinName;
  }

  /** A prepared action under a built-in name: the workflow is accepted as trusted, and its step is the built-in image build. */
  lemma BuiltinNameRuns(lib: Library)
    ensures var steps := [UsesStep(AtCommit(BUILD), [])];
      && WellFormed(OneWorkflow(steps, true)) && WorkflowOk(OneWorkflow(steps, true), BUILD_OPTIONS, lib)
      && TrustedRuns.StepTarget(steps[0], BUILD_OPTIONS, lib) == BuiltIn(BuildPush)
      && !TrustedRuns.NoBuiltinNames(BUILD_OPTIONS)
  {
    var steps := [UsesStep(AtCommit(BUILD), [])];
    BuildTarget(BUILD_OPTIONS, lib);
    BuildTrusted(lib);
    BareStep(AtCommit(BUILD), FRESH_JOB, BUILD_OPTIONS, lib);
    hide StepOk, StaticString, AtCommit, TargetOf, TrustedRuns.BuiltinName, WorkflowOk, WellFormed, TrustedStep;
    assert AtCommit(BUILD) in BUILD_OPTIONS.actions;
    assert StateBefore(steps, 0, BUILD_OPTIONS, lib) == FRESH_JOB;
    assert StateBefore(steps, 1, BUILD_OPTIONS, lib) == StateAfter(steps[0], FRESH_JOB, BUILD_OPTIONS, lib);
    Accepted(steps, true, BUILD_OPTIONS, lib);
    OneWellFormed(steps, true);
  }

  // ---------------------------------------------------------------- two signers of one component

  const FIRST: string := "a/b"
  const SECOND: string := "a/c"
  const COMPONENT: string := "wasm://" + IMAGE
  const API: string := "https://h"

  function SignedBy(signer: string): ResolvedAction {
    ResolvedAction([], [], [], true, ComponentProgram(COMPONENT, API, signer, "wit"))
  }

  const SIGNERS: Options := Options(map[AtCommit(FIRST) := SignedBy("alice"), AtCommit(SECOND) := SignedBy("bob")], None)

  lemma EndpointOfApi()
    ensures HttpsEndpoint(API).Some?
  {
    assert StripPrefix(API, "https://") == Some("h") by { assert API == "https://" + "h"; }
    NoSlash("h");
    forall i | 0 <= i <= 1 ensures !OccursAt("h", ":", i) {
      if i == 0 { assert "h"[0..1][0] == 'h'; }
    }
    assert RSplitOnce("h", ":").None?;
  }

  lemma NoSlash(s: string)
    requires '/' !in s
    ensures Segments(s) == [s]
  {
    forall i | 0 <= i <= |s| ensures !OccursAt(s, "/", i) {
      if i < |s| { assert s[i..i + 1][0] == s[i] && s[i] in s; }
    }
  }

  lemma OneSlash(owner: string, name: string)
    requires '/' !in owner && '/' !in name
    ensures Segments(owner + "/" + name) == [owner, name]
  {
    var s := owner + "/" + name;
    assert OccursAt(s, "/", |owner|);
    forall i | 0 <= i < |owner| ensures !OccursAt(s, "/", i) { assert s[i..i + 1][0] == s[i] == owner[i] && owner[i] in owner; }
    assert Find(s, "/") == Some(|owner|);
    assert s[..|owner|] == owner && s[|owner| + 1..] == name;
    NoSlash(name);
  }

  lemma ShortIsNoName(name: string)
    requires |name| < 13
    ensures BuiltinOf(name).None?
  {
  }

  lemma CanonicalName(action: string, name: string)
    requires name == "b" || name == "c"
    requires action == "a" + "/" + name
    ensures IsCanonicalRepositoryAction(action)
  {
    OneSlash("a", name);
    hide Segments;
  }

  lemma ShortNames(action: string)
    requires action == FIRST || action == SECOND
    ensures IsCanonicalRepositoryAction(action) && BuiltinOf(ToAsciiLower(action)).None?
    ensures !StartsWith(action, "./") && !StartsWith(action, "docker://")
    ensures forall i :: 0 <= i < |action| ==> Plain(action[i])
  {
    ShortIsNoName(ToAsciiLower(action));
    hide IsCanonicalRepositoryAction, BuiltinOf, ToAsciiLower;
    if action == FIRST { CanonicalName(action, "b"); } else { CanonicalName(action, "c"); }
  }

  lemma UsableComponent(signer: string)
    ensures Usable(SignedBy(signer).program) && RSplitOnce(COMPONENT, "@").Some?
  {
    PinnedTool();
    assert StripPrefix(COMPONENT, "wasm://") == Some(IMAGE);
    EndpointOfApi();
    ComponentDigest(COMPONENT);
  }

  lemma SignedTarget(action: string, lib: Library)
    requires action == FIRST || action == SECOND
    ensures AtCommit(action) in SIGNERS.actions && TargetOf(AtCommit(action), SIGNERS) == Prepared(SIGNERS.actions[AtCommit(action)])
    ensures StaticString(Str(AtCommit(action)), lib) == Some(AtCommit(action))
    ensures SIGNERS.actions[AtCommit(action)] == SignedBy(if action == FIRST then "alice" else "bob")
  {
    ShortNames(action);
    CommitParts(action, lib);
    UsableComponent("alice");
    UsableComponent("bob");
    Apart();
    hide AtCommit, Zeros, RSplitOnce, StaticString, IsFullGitCommit, IsCanonicalRepositoryAction, Usable, ToAsciiLower, BuiltinOf,
      SignedBy, StartsWith, TrimStartMatches;
  }

  lemma Apart()
    ensures AtCommit(FIRST) != AtCommit(SECOND)
  {
    assert AtCommit(FIRST)[2] == 'b' && AtCommit(SECOND)[2] == 'c';
  }

  /** A step that runs one of them needs nothing of the job, and makes it a component job. */
  lemma SignedStep(action: string, s: JobState, lib: Library)
    requires action == FIRST || action == SECOND
    ensures StepOk(UsesStep(AtCommit(action), []), s, SIGNERS, lib)
    ensures StateAfter(UsesStep(AtCommit(action), []), s, SIGNERS, lib) == s.(wasm := true)
    ensures LockTheory.Runs(UsesStep(AtCommit(action), []), AtCommit(action), SIGNERS, lib)
  {
    SignedTarget(action, lib);
    SignedNeedsNothing(if action == FIRST then "alice" else "bob", lib);
    hide AtCommit, TargetOf, StaticString, SIGNERS, COMPONENT, API, ComponentOk, StepOk, ToAsciiLower, FIRST, SECOND;
    BareStep(AtCommit(action), s, SIGNERS, lib);
  }

  lemma SignedNeedsNothing(signer: string, lib: Library)
    ensures ComponentOk(SignedBy(signer), [], lib)
  {
  }

  const TWO_STEPS: seq<Step> := [UsesStep(AtCommit(FIRST), []), UsesStep(AtCommit(SECOND), [])]

  lemma TwoStepsAccepted(lib: Library)
    ensures WellFormed(OneWorkflow(TWO_STEPS, false)) && WorkflowOk(OneWorkflow(TWO_STEPS, false), SIGNERS, lib)
  {
    SignedStep(FIRST, FRESH_JOB, lib);
    SignedStep(SECOND, FRESH_JOB.(wasm := true), lib);
    hide StepOk, StateAfter, UsesStep, AtCommit, WorkflowOk, WellFormed, LockTheory.Runs;
    assert StateBefore(TWO_STEPS, 0, SIGNERS, lib) == FRESH_JOB;
    assert StateBefore(TWO_STEPS, 1, SIGNERS, lib) == StateAfter(TWO_STEPS[0], FRESH_JOB, SIGNERS, lib);
    assert StateBefore(TWO_STEPS, 2, SIGNERS, lib) == StateAfter(TWO_STEPS[1], FRESH_JOB.(wasm := true), SIGNERS, lib);
    Accepted(TWO_STEPS, false, SIGNERS, lib);
    TablesOf(FIRST);
    TablesOf(SECOND);
    OneWellFormed(TWO_STEPS, false);
  }

  lemma TablesOf(action: string)
    ensures StepTables(UsesStep(AtCommit(action), []))
  {
  }

  /** Both steps are run, and their actions disagree. */
  lemma SignersDisagree(lib: Library)
    ensures LockTheory.SomeDisagree(OneWorkflow(TWO_STEPS, false).jobs, SIGNERS, lib)
  {
    hide StepOk, StateAfter, UsesStep, AtCommit, LockTheory.Runs, TargetOf, StaticString, COMPONENT, SIGNERS, API, IMAGE, Zeros;
    SignedStep(FIRST, FRESH_JOB, lib);
    SignedStep(SECOND, FRESH_JOB, lib);
    SignedTarget(FIRST, lib);
    SignedTarget(SECOND, lib);
    var jobs := OneWorkflow(TWO_STEPS, false).jobs;
    assert jobs[0].1.steps[0] == UsesStep(AtCommit(FIRST), []) && jobs[0].1.steps[1] == UsesStep(AtCommit(SECOND), []);
    assert LockTheory.SomeStepRuns(jobs, AtCommit(FIRST), SIGNERS, lib);
    assert LockTheory.SomeStepRuns(jobs, AtCommit(SECOND), SIGNERS, lib);
    assert LockTheory.Disagree(SIGNERS.actions[AtCommit(FIRST)].program, SIGNERS.actions[AtCommit(SECOND)].program);
  }

  /** Two prepared actions with one component, signed by "alice" and by "bob": the workflow is accepted, and the component has two entries. */
  lemma TwoSigners(lib: Library)
    ensures WellFormed(OneWorkflow(TWO_STEPS, false)) && WorkflowOk(OneWorkflow(TWO_STEPS, false), SIGNERS, lib)
    ensures LockTheory.Twice(JobsLocks(OneWorkflow(TWO_STEPS, false).jobs, SIGNERS, lib).components)
  {
    hide WorkflowOk, WellFormed, OneWorkflow, JobsLocks, LockTheory.Twice, LockTheory.SomeDisagree;
    TwoStepsAccepted(lib);
    SignersDisagree(lib);
    LockTheory.TwoEntriesExactly(OneWorkflow(TWO_STEPS, false).jobs, SIGNERS, lib);
  }

  // ---------------------------------------------------------------- an input that looks like a secret

  const DOCKER: string := "docker://" + IMAGE
  const GIVEN: Table := [("password", Str("x"))]
  const NOTHING: Options := Options(map[], None)

  lemma DockerPlain()
    ensures forall i :: 0 <= i < |DOCKER| ==> Plain(DOCKER[i])
  {
    var front, digest := "docker://tool@sha256:", Zeros(64);
    assert DOCKER == front + digest;
    assert forall i :: 0 <= i < |front| ==> Plain(front[i]);
    assert forall i :: 0 <= i < 64 ==> Plain(digest[i]);
    hide Plain, Zeros;
  }

  lemma DockerParts()
    ensures RSplitOnce(DOCKER, "@") == Some(("docker://tool", "sha256:" + Zeros(64)))
  {
    var digest := "sha256:" + Zeros(64);
    assert SHA256_MARK == ['@'] + "sha256:";
    assert DOCKER == "docker://tool" + ['@'] + digest;
    assert '@' !in digest;
    hide RSplitOnce, Zeros;
    SplitAtLastIs('@', "docker://tool", digest);
  }

  lemma DockerTrimmed()
    ensures TrimStartMatches(DOCKER, "docker://") == IMAGE
  {
    hide Zeros;
    assert DOCKER[|"docker://"|..] == IMAGE && IMAGE[0] == 't';
  }

  lemma DockerTarget(lib: Library)
    ensures TargetOf(DOCKER, NOTHING) == Direct(IMAGE) && StaticString(Str(DOCKER), lib) == Some(DOCKER)
  {
    hide RSplitOnce, StaticString, IsFullSha256Image, TrimStartMatches, ToAsciiLower, BuiltinOf, DOCKER, IMAGE, Zeros, Plain, StartsWith;
    DockerPlain();
    DockerParts();
    DockerTrimmed();
    PlainText(DOCKER, lib);
    PinnedTool();
    DockerName();
    DockerPrefix();
  }

  lemma DockerPrefix()
    ensures StartsWith("docker://tool", "docker://") && !StartsWith("docker://tool", "./")
  {
    assert "docker://tool" == "docker://" + "tool";
    assert "docker://tool"[0] == 'd' && "./"[0] == '.';
  }

  lemma DockerName()
    ensures BuiltinOf(ToAsciiLower("docker://tool")).None?
  {
    var name := ToAsciiLower("docker://tool");
    assert name[6] == ':';
    TrustedRuns.NameLetters(name);
  }

  lemma PasswordLooksSecret()
    ensures LooksLikeSecretName("password")
  {
    var upper, needles := ToAsciiUpper("password"), ["SECRET", "PASSWORD", "PASSWD", "TOKEN", "PRIVATE_KEY", "API_KEY",
                                                    "ACCESS_KEY", "CLIENT_SECRET", "CREDENTIAL"];
    assert upper == "PASSWORD" && needles[1] == "PASSWORD";
    assert OccursAt(upper, needles[1], 0);
    assert Contains(upper, needles[1]);
  }

  /** The given input is neither a secret expression nor the token; its name alone makes it look like a secret. */
  lemma GivenInput(lib: Library)
    requires lib.yamlText(Str("x")) == "x\n"
    ensures ActionInputs(None, GIVEN) == GIVEN && NoRawSecrets(GIVEN, lib) && InputsOk(GIVEN, lib)
    ensures SecretLike(GIVEN[0], lib) && !IsToken(GIVEN[0], lib)
    ensures forall k :: !NamesInput(GIVEN, lib, k)
    ensures !HasToken(GIVEN, lib)
  {
    NoDollar("x\n");
    PasswordLooksSecret();
    hide LooksLikeSecretName, HasSecretExpression, IsGithubTokenExpression, InputName;
    assert GIVEN[..0] == [];
    assert PutAll([], GIVEN) == Put(PutAll([], []), "password", Str("x"));
  }

  lemma DroppedStepOk(lib: Library)
    requires lib.yamlText(Str("x")) == "x\n"
    ensures StepOk(UsesStep(DOCKER, GIVEN), FRESH_JOB, NOTHING, lib)
  {
    DockerTarget(lib);
    GivenInput(lib);
    hide TargetOf, StaticString, NoRawSecrets, InputsOk, ActionInputs, GIVEN, DOCKER, IMAGE;
    assert ActionOk(Str(DOCKER), GIVEN, FRESH_JOB, NOTHING, lib);
  }

  /** Whatever keeps the step gives its container no variable at all. */
  lemma DroppedInput(native: NativeStep, outputs: map<string, NativeOutput>, lib: Library)
    requires lib.yamlText(Str("x")) == "x\n" && StepKept(UsesStep(DOCKER, GIVEN), native, outputs, NOTHING, lib)
    ensures native.env == map[]
  {
    DockerTarget(lib);
    GivenInput(lib);
    hide TargetOf, StaticString, NoRawSecrets, ActionInputs, GIVEN, DOCKER, IMAGE, NamesInput, HasToken;
    var step := UsesStep(DOCKER, GIVEN);
    var m: ActionMapping :|
      MappingKept(step, m, outputs, NOTHING, lib) && Carries(native, m) && DisjointUnion(step.env, m.env, native.env);
    assert ContainerKept(None, GIVEN, m, lib);
    assert m.env == map[];
  }

  /** `password: x` given to a pinned image: the workflow is accepted, and the input is gone. */
  lemma SecretLikeDropped(native: NativeWorkflow, lib: Library)
    requires lib.yamlText(Str("x")) == "x\n"
    ensures var w := OneWorkflow([UsesStep(DOCKER, GIVEN)], false);
      && WellFormed(w) && WorkflowOk(w, NOTHING, lib)
      && (WorkflowKept(w, native, NOTHING, lib) ==>
            "job" in native.jobs && |native.jobs["job"].steps| == 1 && native.jobs["job"].steps[0].env == map[])
  {
    var steps := [UsesStep(DOCKER, GIVEN)];
    var w := OneWorkflow(steps, false);
    DroppedStepOk(lib);
    DockerTarget(lib);
    hide StepOk, TargetOf, StaticString, WorkflowOk, WellFormed, StepKept, GIVEN, DOCKER;
    assert StateBefore(steps, 0, NOTHING, lib) == FRESH_JOB;
    assert StateBefore(steps, 1, NOTHING, lib) == StateAfter(steps[0], FRESH_JOB, NOTHING, lib);
    Accepted(steps, false, NOTHING, lib);
    DistinctGiven();
    OneWellFormed(steps, false);
    if WorkflowKept(w, native, NOTHING, lib) {
      assert w.jobs[0].0 == "job" && JobKept(w.jobs[0].1, native.jobs["job"], NOTHING, lib);
      DroppedInput(native.jobs["job"].steps[0], native.jobs["job"].outputs, lib);
    }
  }

  lemma DistinctGiven()
    ensures StepTables(UsesStep(DOCKER, GIVEN))
  {
  }
}
