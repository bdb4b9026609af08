/** When a workflow is imported, and what the import keeps, pins and grants. */
module Compatibility {
  import opened Results
  import opened Text
  import opened Validation
  import opened Workflow
  import opened Expressions
  import opened Lossless
  import opened Actions
  import PermissionTheory

  // ---------------------------------------------------------------- findings

  datatype Status = Supported | Emulated | RequiresGithub | Unsafe | Unsupported

  predicate Blocking(s: Status) { s.RequiresGithub? || s.Unsafe? || s.Unsupported? }

  datatype Finding = Finding(status: Status, code: string)

  predicate NoBlocking(findings: seq<Finding>) {
    forall i :: 0 <= i < |findings| ==> !Blocking(findings[i].status)
  }

  function Count(findings: seq<Finding>, s: Status): nat {
    if findings == [] then 0
    else Count(findings[..|findings| - 1], s) + (if findings[|findings| - 1].status == s then 1 else 0)
  }

  function CountBlocking(findings: seq<Finding>): nat {
    Count(findings, RequiresGithub) + Count(findings, Unsafe) + Count(findings, Unsupported)
  }

  lemma {:induction false} CountsAddUp(findings: seq<Finding>)
    ensures Count(findings, Supported) + Count(findings, Emulated) + CountBlocking(findings) == |findings|
    ensures CountBlocking(findings) == 0 <==> NoBlocking(findings)
  {
    if findings != [] {
      var before := findings[..|findings| - 1];
      CountsAddUp(before);
      assert forall i :: 0 <= i < |before| ==> before[i] == findings[i];
    }
  }

  /** The compatibility percentage of `finish`: a supported finding earns two halves, an emulated one a half. */
  function Score(halves: nat, total: nat): nat {
    if total == 0 then 100
    else
      Quotient(halves * 100, total * 2, 0);
      halves * 100 / (total * 2)
  }

  function Percent(findings: seq<Finding>): nat {
    Score(Count(findings, Supported) * 2 + Count(findings, Emulated), |findings|)
  }

  lemma Quotient(a: nat, n: nat, q: nat)
    requires n > 0
    ensures q <= a / n <==> q * n <= a
  {
    var d := a / n;
    assert a == n * d + a % n;
    if q <= d { assert q * n <= d * n; } else { assert (d + 1) * n <= q * n; }
  }

  lemma ScoreMeans(supported: nat, emulated: nat, total: nat)
    requires supported + emulated <= total
    ensures Score(supported * 2 + emulated, total) <= 100
    ensures Score(supported * 2 + emulated, total) == 100 <==> supported == total
    ensures supported + emulated == total ==> Score(supported * 2 + emulated, total) >= 50
  {
    if total > 0 {
      var earned := (supported * 2 + emulated) * 100;
      Quotient(earned, total * 2, 100);
      Quotient(earned, total * 2, 101);
      Quotient(earned, total * 2, 50);
    }
  }

  /** It is at most 100, is 100 exactly when every finding is supported, and is at least 50 for what is imported. */
  lemma PercentMeans(findings: seq<Finding>)
    ensures Percent(findings) <= 100
    ensures Percent(findings) == 100 <==> Count(findings, Supported) == |findings|
    ensures NoBlocking(findings) ==> Percent(findings) >= 50
  {
    CountsAddUp(findings);
    ScoreMeans(Count(findings, Supported), Count(findings, Emulated), |findings|);
  }

  // ---------------------------------------------------------------- steps

  predicate NameOk(name: Option<string>) {
    name.None? || (!HasSecretExpression(name.value) && !HasExpression(name.value) && NUL !in name.value)
  }

  function ShellName(shell: Option<Yaml>): Option<string> {
    match shell
    case None => Some("bash")
    case Some(v) => if v == Str("bash") then Some("bash") else if v == Str("sh") then Some("sh") else None
  }

  predicate ScriptOk(script: string) {
    !HasExpression(script) && NUL !in script && !ContainsGithubRuntime(script) && !HasPrivilegedOrHostFeature(script)
  }

  predicate DirectoryOk(v: Yaml, lib: Library) {
    StaticString(v, lib).Some? && SafeRelative(StaticString(v, lib).value, false)
  }

  function Directory(v: Option<Yaml>, lib: Library): Option<string> {
    if v.Some? && DirectoryOk(v.value, lib) then Some(NormalizeRelative(StaticString(v.value, lib).value)) else None
  }

  /** What the steps so far have made of their job: container image, whether a component runs, outputs, runner capabilities. */
  datatype JobState = JobState(image: Option<string>, wasm: bool, outputs: map<string, NativeOutput>, runner: set<string>)

  const FRESH_JOB: JobState := JobState(None, false, map[], {})

  function TargetOfUses(uses: Yaml, options: Options, lib: Library): Target {
    match StaticString(uses, lib) case None => Refused case Some(reference) => TargetOf(reference, options)
  }

  function AfterTarget(target: Target, reference: string, inputs: Table, s: JobState, lib: Library): JobState {
    match target
    case Direct(image) => s.(image := Some(image))
    case Prepared(action) => if action.program.ContainerProgram? then s.(image := Some(reference)) else s.(wasm := true)
    case BuiltIn(b) =>
      if b == UploadArtifact && ArtifactPath(inputs, lib).Some? then
        s.(outputs := s.outputs[ArtifactName(inputs, lib) := NativeOutput(ArtifactPath(inputs, lib).value, Retention(inputs))])
      else if b == BuildPush || b == SetupBuildx then s.(runner := s.runner + {"buildkit"})
      else s
    case Refused => s
  }

  function AfterAction(uses: Yaml, inputs: Table, s: JobState, options: Options, lib: Library): JobState {
    match StaticString(uses, lib)
    case None => s
    case Some(reference) => AfterTarget(TargetOf(reference, options), reference, inputs, s, lib)
  }

  function StateAfter(step: Step, s: JobState, options: Options, lib: Library): JobState {
    if step.uses.Some? then AfterAction(step.uses.value, step.inputs, s, options, lib) else s
  }

  function StateBefore(steps: seq<Step>, k: nat, options: Options, lib: Library): JobState
    requires k <= |steps|
  {
    if k == 0 then FRESH_JOB else StateAfter(steps[k - 1], StateBefore(steps, k - 1, options, lib), options, lib)
  }

  predicate BuiltinOk(b: Builtin, inputs: Table, s: JobState, lib: Library) {
    && AllOk(b, inputs, lib)
    && match b
       case CacheAction(_) => CachePaths(inputs, lib) != [] && HasCacheKey(inputs, lib)
       case UploadArtifact =>
         ValidIdentifier(ArtifactName(inputs, lib)) && ArtifactPath(inputs, lib).Some? && ArtifactName(inputs, lib) !in s.outputs
       case DownloadArtifact => false
       case _ => true
  }

  predicate TargetOk(target: Target, reference: string, inputs: Table, s: JobState, lib: Library) {
    match target
    case Refused => false
    case BuiltIn(b) => BuiltinOk(b, inputs, s, lib)
    case Direct(image) => ContainerOk(image, s.image, None, inputs, lib)
    case Prepared(action) =>
      if action.program.ContainerProgram? then ContainerOk(reference, s.image, Some(action), inputs, lib)
      else ComponentOk(action, inputs, lib)
  }

  predicate ActionOk(uses: Yaml, inputs: Table, s: JobState, options: Options, lib: Library) {
    && NoRawSecrets(inputs, lib)
    && StaticString(uses, lib).Some?
    && TargetOk(TargetOf(StaticString(uses, lib).value, options), StaticString(uses, lib).value, inputs, s, lib)
  }

  predicate ContainerSets(action: Option<ResolvedAction>, inputs: Table, k: string, lib: Library) {
    var t := ActionInputs(action, inputs);
    || (action.Some? && k in RUNTIME_ENV) || NamesInput(t, lib, k)
    || (k == TOKEN_FILE && HasToken(t, lib)) || NamesFile(ActionSecrets(action), k)
  }

  /** The action puts a value into this variable. */
  predicate ActionSets(uses: Yaml, inputs: Table, k: string, options: Options, lib: Library) {
    match TargetOfUses(uses, options, lib)
    case Direct(_) => ContainerSets(None, inputs, k, lib)
    case Prepared(action) => action.program.ContainerProgram? && ContainerSets(Some(action), inputs, k, lib)
    case _ => false
  }

  predicate EnvApart(step: Step, options: Options, lib: Library)
    requires step.uses.Some?
  {
    forall i :: 0 <= i < |step.env| ==> !ActionSets(step.uses.value, step.inputs, step.env[i].0, options, lib)
  }

  predicate HeadOk(step: Step, lib: Library) {
    && step.extra == [] && NameOk(step.name) && (step.id.Some? ==> ValidIdentifier(step.id.value))
    && EnvOk(step.env)
    && (step.continueOnError.Some? ==> step.continueOnError.value.Bool?)
    && (step.workingDirectory.Some? ==> DirectoryOk(step.workingDirectory.value, lib))
  }

  predicate RunOk(step: Step) {
    && step.run.Some? && step.uses.None? && step.inputs == []
    && step.run.value.Str? && ScriptOk(step.run.value.s) && ShellName(step.shell).Some?
  }

  predicate UsesOk(step: Step, s: JobState, options: Options, lib: Library) {
    && step.run.None? && step.uses.Some? && step.shell.None? && step.workingDirectory.None?
    && ActionOk(step.uses.value, step.inputs, s, options, lib)
  }

  /** A step that is imported when the steps before it left the job in `s`. */
  predicate StepOk(step: Step, s: JobState, options: Options, lib: Library) {
    HeadOk(step, lib) && (RunOk(step) || (UsesOk(step, s, options, lib) && EnvApart(step, options, lib)))
  }

  lemma StepDecided(step: Step, s: JobState, options: Options, lib: Library)
    ensures StepOk(step, s, options, lib) <==>
      HeadOk(step, lib) && (RunOk(step) || UsesOk(step, s, options, lib)) && (step.uses.Some? ==> EnvApart(step, options, lib))
  {
    hide HeadOk, ActionOk, ScriptOk, EnvApart;
  }

  /** The native run is the source's script, verbatim, under its shell and in its directory. */
  predicate ScriptKept(step: Step, m: ActionMapping, lib: Library) {
    && step.run.Some? && step.run.value.Str? && ShellName(step.shell).Some?
    && m == ActionMapping(
              PlainRun(Script(ShellName(step.shell).value, step.run.value.s, Directory(step.workingDirectory, lib))),
              map[], None, None, true)
  }

  /** The step's environment is its source environment and the action's, without overlap. */
  ghost predicate DisjointUnion(t: Table, actionEnv: map<string, Scalar>, env: map<string, Scalar>) {
    && (forall k :: k in env <==> HasName(t, k) || k in actionEnv)
    && (forall k :: k in actionEnv ==> !HasName(t, k) && env[k] == actionEnv[k])
    && forall i :: 0 <= i < |t| ==> t[i].0 in env && ScalarOf(t[i].1) == Some(env[t[i].0])
  }

  /** The native step carries the mapping. */
  predicate Carries(native: NativeStep, m: ActionMapping) {
    && native.capabilities == m.capabilities && native.cache == m.cache
    && match m.run
       case PlainRun(run) => native.run == Some(run) && native.uses == None && native.inputs == map[]
       case ComponentRun(reference, inputs) => native.run == None && native.uses == Some(reference) && native.inputs == inputs
  }

  ghost predicate MappingKept(step: Step, m: ActionMapping, outputs: map<string, NativeOutput>, options: Options, lib: Library) {
    if step.run.Some? then step.uses.None? && ScriptKept(step, m, lib)
    else step.uses.Some? && ActionKept(step.uses.value, step.inputs, m, outputs, options, lib)
  }

  ghost predicate StepKept(step: Step, native: NativeStep, outputs: map<string, NativeOutput>, options: Options, lib: Library) {
    && native.id == step.id && native.name == step.name
    && native.continueOnError == (step.continueOnError == Some(Bool(true)))
    && exists m: ActionMapping ::
         MappingKept(step, m, outputs, options, lib) && Carries(native, m) && DisjointUnion(step.env, m.env, native.env)
  }

  lemma KeptStep(
    step: Step, native: NativeStep, m: ActionMapping, outputs: map<string, NativeOutput>, options: Options, lib: Library)
    requires native.id == step.id && native.name == step.name
    requires native.continueOnError == (step.continueOnError == Some(Bool(true)))
    requires MappingKept(step, m, outputs, options, lib) && Carries(native, m) && DisjointUnion(step.env, m.env, native.env)
    ensures StepKept(step, native, outputs, options, lib)
  {
    hide MappingKept, DisjointUnion, Carries;
  }

  lemma StepKeptGrows(
    step: Step, native: NativeStep, outputs: map<string, NativeOutput>, more: map<string, NativeOutput>,
    options: Options, lib: Library)
    requires StepKept(step, native, outputs, options, lib) && Included(outputs, more)
    ensures StepKept(step, native, more, options, lib)
  {
    var m: ActionMapping :|
      MappingKept(step, m, outputs, options, lib) && Carries(native, m) && DisjointUnion(step.env, m.env, native.env);
    if step.run.None? { ActionKeptGrows(step.uses.value, step.inputs, m, outputs, more, options, lib); }
    assert MappingKept(step, m, more, options, lib);
  }

  /** No variable outside `rest` is set twice. */
  predicate NoneTaken(base: map<string, Scalar>, actionEnv: map<string, Scalar>, rest: set<string>) {
    forall k :: k in base && k in actionEnv ==> k in rest
  }

  function Without(actionEnv: map<string, Scalar>, rest: set<string>): map<string, Scalar> {
    map k | k in actionEnv && k !in rest :: actionEnv[k]
  }

  lemma OneMore(base: map<string, Scalar>, actionEnv: map<string, Scalar>, rest: set<string>, name: string)
    requires name in rest && rest <= actionEnv.Keys
    ensures base + Without(actionEnv, rest - {name}) == (base + Without(actionEnv, rest))[name := actionEnv[name]]
    ensures name in base + Without(actionEnv, rest) <==> name in base
    ensures NoneTaken(base, actionEnv, rest - {name}) <==> NoneTaken(base, actionEnv, rest) && name !in base
  {
  }

  lemma NothingRests(base: map<string, Scalar>, actionEnv: map<string, Scalar>)
    ensures base + Without(actionEnv, actionEnv.Keys) == base && NoneTaken(base, actionEnv, actionEnv.Keys)
    ensures base + Without(actionEnv, {}) == base + actionEnv
    ensures NoneTaken(base, actionEnv, {}) <==> base.Keys !! actionEnv.Keys
  {
  }

  /** Where no name is taken twice the variables together are a disjoint union. */
  lemma Union(t: Table, env: map<string, Scalar>, actionEnv: map<string, Scalar>)
    requires EnvKept(t, env) && env.Keys !! actionEnv.Keys
    ensures DisjointUnion(t, actionEnv, env + actionEnv)
  {
    forall k | HasName(t, k) ensures k in env {
      var i :| 0 <= i < |t| && t[i].0 == k;
    }
  }

  /** A name is taken twice exactly when the action sets a variable of the step. */
  lemma ApartMeans(
    step: Step, env: map<string, Scalar>, m: ActionMapping, outputs: map<string, NativeOutput>, options: Options, lib: Library)
    requires EnvKept(step.env, env) && step.uses.Some?
    requires ActionKept(step.uses.value, step.inputs, m, outputs, options, lib)
    ensures env.Keys !! m.env.Keys <==> EnvApart(step, options, lib)
  {
    forall k ensures k in m.env <==> ActionSets(step.uses.value, step.inputs, k, options, lib) {
      ActionNames(step.uses.value, step.inputs, m, outputs, k, options, lib);
    }
    if !(env.Keys !! m.env.Keys) {
      var k :| k in env && k in m.env;
      assert HasName(step.env, k);
    }
    if !EnvApart(step, options, lib) {
      var i :| 0 <= i < |step.env| && ActionSets(step.uses.value, step.inputs, step.env[i].0, options, lib);
      assert step.env[i].0 in env;
    }
  }

  /** The variables that a kept container action sets are the ones that `ContainerSets` names. */
  lemma ContainerNames(action: Option<ResolvedAction>, inputs: Table, m: ActionMapping, k: string, lib: Library)
    requires ContainerKept(action, inputs, m, lib)
    ensures k in m.env <==> ContainerSets(action, inputs, k, lib)
  {
    var t := ActionInputs(action, inputs);
    var base: map<string, Scalar> := if action.Some? then RUNTIME_ENV else map[];
    var env :| EnvCarries(t, base, env, lib) && m.env == WithSecrets(env, ActionSecrets(action));
    WithSecretsExact(env, ActionSecrets(action), k);
    assert TOKEN_FILE !in RUNTIME_ENV;
    if NamesInput(t, lib, k) {
      var i :| 0 <= i < |t| && Passed(t[i], lib) && InputName(t[i].0, lib) == k;
      assert PassedAt(t[i], env, lib);
    }
  }

  lemma ActionNames(
    uses: Yaml, inputs: Table, m: ActionMapping, outputs: map<string, NativeOutput>, k: string, options: Options, lib: Library)
    requires ActionKept(uses, inputs, m, outputs, options, lib)
    ensures k in m.env <==> ActionSets(uses, inputs, k, options, lib)
  {
    match TargetOfUses(uses, options, lib)
    case Direct(_) => ContainerNames(None, inputs, m, k, lib);
    case Prepared(action) =>
      if action.program.ContainerProgram? { ContainerNames(Some(action), inputs, m, k, lib); }
    case _ =>
  }

  // ---------------------------------------------------------------- capabilities

  function Asked(c: Option<Capabilities>): set<Destination> { if c.Some? then Destinations(c.value.network) else {} }

  function NamesOf(requests: seq<SecretRequest>): set<string> { set r | r in requests :: r.name }

  lemma NamesOfMore(requests: seq<SecretRequest>, r: SecretRequest)
    ensures NamesOf(requests + [r]) == NamesOf(requests) + {r.name}
  {
    var more := requests + [r];
    assert forall x :: x in requests ==> x in more;
    assert r in more;
  }

  /** Raising one access only adds. */
  lemma Raised(p: PermissionState, s: Scope, v: Access)
    ensures PermissionTheory.Within(p, p.(access := WithAccess(p.access, s, Max(At(p.access, s), v))))
  {
    var more := WithAccess(p.access, s, Max(At(p.access, s), v));
    forall t: Scope ensures Leq(At(p.access, t), At(more, t)) {
      WithAccessAt(p.access, s, Max(At(p.access, s), v), t);
    }
  }

  function AskedNames(c: Option<Capabilities>): set<string> { if c.Some? then NamesOf(c.value.secrets) else {} }

  /** Permissions after a step: nothing is taken back, and the step's capabilities are among them. */
  ghost predicate Extends(before: PermissionState, after: PermissionState, c: Option<Capabilities>) {
    PermissionTheory.Within(before, after) && CapabilitiesWithin(c, after)
  }

  /** What the step adds is what it asks for. */
  predicate Tight(before: PermissionState, after: PermissionState, c: Option<Capabilities>) {
    && after.destinations == before.destinations + Asked(c)
    && after.secrets.Keys == before.secrets.Keys + AskedNames(c)
  }

  // ---- the permissions of a job, step by step

  /** Secret requests added to a job's; of two for one name the last counts. */
  function Requested(secrets: map<string, string>, requests: seq<SecretRequest>): map<string, string> {
    if requests == [] then secrets
    else Requested(secrets, requests[..|requests| - 1])[requests[|requests| - 1].name := requests[|requests| - 1].purpose]
  }

  lemma {:induction false} RequestedKeys(secrets: map<string, string>, requests: seq<SecretRequest>)
    ensures Requested(secrets, requests).Keys == secrets.Keys + NamesOf(requests)
  {
    if requests != [] {
      var n := |requests| - 1;
      RequestedKeys(secrets, requests[..n]);
      NamesOfMore(requests[..n], requests[n]);
      assert requests[..n] + [requests[n]] == requests;
    }
  }

  lemma RequestedMore(secrets: map<string, string>, requests: seq<SecretRequest>, r: SecretRequest)
    ensures Requested(secrets, requests + [r]) == Requested(secrets, requests)[r.name := r.purpose]
  {
    assert (requests + [r])[..|requests|] == requests;
  }

  function ContainerReach(p: PermissionState, action: Option<ResolvedAction>, token: bool): PermissionState {
    p.(destinations := p.destinations + SetOf(ActionDestinations(action)),
       secrets := Requested(p.secrets, AskedSecrets(action, token)))
  }

  function ComponentReach(p: PermissionState, apiUrl: string): PermissionState
    requires HttpsEndpoint(apiUrl).Some?
  {
    p.(destinations := p.destinations + {HttpsEndpoint(apiUrl).value}, secrets := Requested(p.secrets, [SCM_REQUEST]),
       allowPrivate := p.allowPrivate || apiUrl != PUBLIC_API)
  }

  function BuiltinReach(b: Builtin, p: PermissionState): PermissionState {
    match b
    case Checkout => p.(access := p.access.(repository := Max(p.access.repository, Read)))
    case CacheAction(mode) =>
      p.(cacheRead := MergeCacheRead(p.cacheRead, ReadOf(mode)), cacheWrite := MergeCacheWrite(p.cacheWrite, WriteOf(mode)))
    case UploadArtifact => p.(access := p.access.(artifacts := Max(p.access.artifacts, Write)))
    case _ => p
  }

  /** The permissions of a job after an action. */
  function TargetReach(target: Target, inputs: Table, p: PermissionState, lib: Library): PermissionState {
    match target
    case Refused => p
    case BuiltIn(b) => BuiltinReach(b, p)
    case Direct(_) => ContainerReach(p, None, HasToken(ActionInputs(None, inputs), lib))
    case Prepared(action) =>
      if action.program.ContainerProgram? then ContainerReach(p, Some(action), HasToken(ActionInputs(Some(action), inputs), lib))
      else if HttpsEndpoint(action.program.apiUrl).Some? then ComponentReach(p, action.program.apiUrl)
      else p
  }

  function UsesReach(uses: Yaml, inputs: Table, p: PermissionState, options: Options, lib: Library): PermissionState {
    match StaticString(uses, lib) case None => p case Some(reference) => TargetReach(TargetOf(reference, options), inputs, p, lib)
  }

  function StepReach(step: Step, p: PermissionState, options: Options, lib: Library): PermissionState {
    if step.uses.Some? then UsesReach(step.uses.value, step.inputs, p, options, lib) else p
  }

  function ReachBefore(steps: seq<Step>, k: nat, base: PermissionState, options: Options, lib: Library): PermissionState
    requires k <= |steps|
  {
    if k == 0 then base else StepReach(steps[k - 1], ReachBefore(steps, k - 1, base, options, lib), options, lib)
  }

  /** The permissions of a job: the declared or inherited ones, then what each step asks for in turn. */
  function JobReach(job: Job, inherited: PermissionState, options: Options, lib: Library): PermissionState {
    var base := DeclaredPermissions(job.permissions, inherited);
    ReachBefore(job.steps, |job.steps|, base.(destinations := {}, allowPrivate := false), options, lib)
  }

  /** The accesses that GitHub scopes map to. */
  predicate SameScopes(a: Scopes9, b: Scopes9) {
    && a.contents == b.contents && a.issues == b.issues && a.pullRequests == b.pullRequests && a.scmChecks == b.scmChecks
    && a.statuses == b.statuses && a.checks == b.checks && a.registry == b.registry
  }

  lemma StepKeepsScopes(step: Step, p: PermissionState, options: Options, lib: Library)
    ensures SameScopes(p.access, StepReach(step, p, options, lib).access)
  {
    hide TargetOf, StaticString, HasToken, HttpsEndpoint;
  }

  lemma {:induction false} StepsKeepScopes(steps: seq<Step>, k: nat, base: PermissionState, options: Options, lib: Library)
    requires k <= |steps|
    ensures SameScopes(base.access, ReachBefore(steps, k, base, options, lib).access)
  {
    hide StepReach;
    if k > 0 {
      StepsKeepScopes(steps, k - 1, base, options, lib);
      StepKeepsScopes(steps[k - 1], ReachBefore(steps, k - 1, base, options, lib), options, lib);
    }
  }

  /** Each GitHub scope that the entry names has exactly the access asked for. */
  predicate ScopeAsDeclared(e: (string, Yaml), state: PermissionState) {
    AccessOf(e.1).Some? && (ScopeOf(e.0).Some? ==> At(state.access, ScopeOf(e.0).value) == AccessOf(e.1).value)
  }

  /** Whatever its steps do, an imported job has the GitHub scopes that it declares, and those it inherits if it declares none. */
  lemma JobScopes(job: Job, inherited: PermissionState, options: Options, lib: Library)
    requires PermissionsOk(job.permissions) && ScopesDistinct(job.permissions)
    ensures job.permissions.None? ==> SameScopes(inherited.access, JobReach(job, inherited, options, lib).access)
    ensures job.permissions.Some? ==>
      forall i :: 0 <= i < |job.permissions.value.scopes| ==>
        ScopeAsDeclared(job.permissions.value.scopes[i], JobReach(job, inherited, options, lib))
  {
    hide ReachBefore, Granted, ScopesOk, SameScopes, ScopeOf, AccessOf, At;
    var base := DeclaredPermissions(job.permissions, inherited);
    StepsKeepScopes(job.steps, |job.steps|, base.(destinations := {}, allowPrivate := false), options, lib);
    if job.permissions.Some? {
      var t := job.permissions.value.scopes;
      GrantedExact(t);
      forall i | 0 <= i < |t| ensures ScopeAsDeclared(t[i], JobReach(job, inherited, options, lib)) {
        assert ScopeKept(t[i], base);
        if ScopeOf(t[i].0).Some? { SameScopesAt(base.access, JobReach(job, inherited, options, lib).access, t[i].0); }
      }
    }
  }

  lemma SameScopesAt(a: Scopes9, b: Scopes9, scope: string)
    requires SameScopes(a, b) && ScopeOf(scope).Some?
    ensures At(a, ScopeOf(scope).value) == At(b, ScopeOf(scope).value)
  {
  }

  // ---- what grants what

  /** What a container step asks for, as sets. */
  lemma AskedOfContainer(action: Option<ResolvedAction>, token: bool)
    ensures var c := ContainerCapabilities(action, token);
      Asked(c) == SetOf(ActionDestinations(action)) && AskedNames(c) == NamesOf(AskedSecrets(action, token))
  {
  }

  lemma NothingGranted(p: PermissionState)
    ensures Extends(p, p, None) && Tight(p, p, None)
  {
  }

  /** Adding the destinations and secrets that are asked for. */
  lemma Grants(p: PermissionState, q: PermissionState, c: Capabilities)
    requires q.access == p.access && q.cacheRead == p.cacheRead && q.cacheWrite == p.cacheWrite
    requires c.cache.None? && c.artifacts.None?
    requires q.destinations == p.destinations + Destinations(c.network)
    requires q.secrets == Requested(p.secrets, c.secrets)
    ensures Extends(p, q, Some(c)) && Tight(p, q, Some(c))
  {
    RequestedKeys(p.secrets, c.secrets);
    forall r | r in c.secrets ensures r.name in q.secrets { assert r.name in NamesOf(c.secrets); }
  }

  lemma ContainerGrants(p: PermissionState, action: Option<ResolvedAction>, token: bool)
    ensures var q, c := ContainerReach(p, action, token), ContainerCapabilities(action, token); Extends(p, q, c) && Tight(p, q, c)
  {
    var c := ContainerCapabilities(action, token);
    AskedOfContainer(action, token);
    if c.Some? { Grants(p, ContainerReach(p, action, token), c.value); }
  }

  lemma ComponentGrants(p: PermissionState, apiUrl: string)
    requires HttpsEndpoint(apiUrl).Some?
    ensures var q, c := ComponentReach(p, apiUrl), ComponentCapabilities(apiUrl); Extends(p, q, c) && Tight(p, q, c)
  {
    Grants(p, ComponentReach(p, apiUrl), ComponentCapabilities(apiUrl).value);
  }

  /** A native step within its job's permissions, whose component is exact and locked. */
  ghost predicate StepSafe(native: NativeStep, reach: PermissionState, components: set<ComponentLock>) {
    && CapabilitiesWithin(native.capabilities, reach)
    && (native.uses.Some? ==> ComponentPinned(native.uses.value, components))
  }

  lemma CapabilitiesGrow(c: Option<Capabilities>, p: PermissionState, q: PermissionState)
    requires CapabilitiesWithin(c, p) && PermissionTheory.Within(p, q)
    ensures CapabilitiesWithin(c, q)
  {
    assert Leq(At(p.access, Artifacts), At(q.access, Artifacts));
  }

  lemma StepSafeGrows(native: NativeStep, p: PermissionState, q: PermissionState, components: set<ComponentLock>, more: set<ComponentLock>)
    requires StepSafe(native, p, components) && PermissionTheory.Within(p, q) && components <= more
    ensures StepSafe(native, q, more)
  {
    CapabilitiesGrow(native.capabilities, p, q);
  }

  function AskedBySteps(steps: seq<NativeStep>): set<Destination> {
    if steps == [] then {} else AskedBySteps(steps[..|steps| - 1]) + Asked(steps[|steps| - 1].capabilities)
  }

  function NamedBySteps(steps: seq<NativeStep>): set<string> {
    if steps == [] then {} else NamedBySteps(steps[..|steps| - 1]) + AskedNames(steps[|steps| - 1].capabilities)
  }

  // ---------------------------------------------------------------- locks

  /** The entry is what a prepared container action resolved to. */
  predicate ImageLockSound(l: ImageLock, options: Options) {
    && l.source in options.actions && options.actions[l.source].program.ContainerProgram?
    && options.actions[l.source].program.image == l.resolved && IsFullSha256Image(l.resolved)
  }

  /** The entry is an exact component of a prepared action, resolved to its digest. */
  ghost predicate ComponentLockSound(l: ComponentLock, options: Options) {
    && IsExactWasmComponent(l.source)
    && RSplitOnce(l.source, "@").Some? && RSplitOnce(l.source, "@").value.1 == l.resolved
    && exists reference, url :: reference in options.actions
         && options.actions[reference].program == ComponentProgram(l.source, url, l.signatureIdentity, l.wit)
  }

  ghost predicate LocksSound(images: set<ImageLock>, components: set<ComponentLock>, options: Options) {
    (forall l :: l in images ==> ImageLockSound(l, options)) && forall l :: l in components ==> ComponentLockSound(l, options)
  }

  datatype LockSet = LockSet(images: set<ImageLock>, components: set<ComponentLock>)

  const NO_LOCKS: LockSet := LockSet({}, {})

  function Plus(a: LockSet, b: LockSet): LockSet { LockSet(a.images + b.images, a.components + b.components) }

  lemma PlusNothing(a: LockSet)
    ensures Plus(a, NO_LOCKS) == a
  {
  }

  lemma PlusInTurn(a: LockSet, b: LockSet, c: LockSet)
    ensures Plus(Plus(a, b), c) == Plus(a, Plus(b, c))
  {
  }

  function ImageEntry(source: string, image: string): LockSet {
    if source == image then NO_LOCKS else LockSet({ImageLock(source, image)}, {})
  }

  function ComponentEntry(p: Program): LockSet
    requires p.ComponentProgram?
  {
    match RSplitOnce(p.reference, "@")
    case None => NO_LOCKS
    case Some(parts) => LockSet({}, {ComponentLock(p.reference, parts.1, p.signatureIdentity, p.wit)})
  }

  function ProgramLocks(reference: string, p: Program): LockSet {
    if p.ContainerProgram? then ImageEntry(reference, p.image) else ComponentEntry(p)
  }

  /** What an action adds to the lock file. */
  function TargetLocks(target: Target, reference: string): LockSet {
    if target.Prepared? then ProgramLocks(reference, target.action.program) else NO_LOCKS
  }

  function UsesLocks(uses: Yaml, options: Options, lib: Library): LockSet {
    match StaticString(uses, lib) case None => NO_LOCKS case Some(reference) => TargetLocks(TargetOf(reference, options), reference)
  }

  function StepLocks(step: Step, options: Options, lib: Library): LockSet {
    if step.uses.Some? then UsesLocks(step.uses.value, options, lib) else NO_LOCKS
  }

  function StepsLocks(steps: seq<Step>, options: Options, lib: Library): LockSet {
    if steps == [] then NO_LOCKS
    else Plus(StepsLocks(steps[..|steps| - 1], options, lib), StepLocks(steps[|steps| - 1], options, lib))
  }

  function JobsLocks(jobs: seq<(string, Job)>, options: Options, lib: Library): LockSet {
    if jobs == [] then NO_LOCKS
    else Plus(JobsLocks(jobs[..|jobs| - 1], options, lib), StepsLocks(jobs[|jobs| - 1].1.steps, options, lib))
  }

  lemma NoSteps(base: LockSet, steps: seq<Step>, options: Options, lib: Library)
    ensures Plus(base, StepsLocks(steps[..0], options, lib)) == base
    ensures steps[..|steps|] == steps
  {
    assert steps[..0] == [];
    PlusNothing(base);
  }

  lemma StepsLocksMore(base: LockSet, steps: seq<Step>, k: nat, options: Options, lib: Library)
    requires k < |steps|
    ensures Plus(base, StepsLocks(steps[..k + 1], options, lib)) ==
      Plus(Plus(base, StepsLocks(steps[..k], options, lib)), StepLocks(steps[k], options, lib))
  {
    hide StepLocks;
    assert steps[..k + 1][..k] == steps[..k] && steps[..k + 1][k] == steps[k];
    PlusInTurn(base, StepsLocks(steps[..k], options, lib), StepLocks(steps[k], options, lib));
  }

  lemma JobsLocksMore(base: LockSet, jobs: seq<(string, Job)>, k: nat, options: Options, lib: Library)
    requires k < |jobs|
    ensures Plus(base, JobsLocks(jobs[..k + 1], options, lib)) ==
      Plus(Plus(base, JobsLocks(jobs[..k], options, lib)), StepsLocks(jobs[k].1.steps, options, lib))
  {
    hide StepsLocks;
    assert jobs[..k + 1][..k] == jobs[..k] && jobs[..k + 1][k] == jobs[k];
    PlusInTurn(base, JobsLocks(jobs[..k], options, lib), StepsLocks(jobs[k].1.steps, options, lib));
  }

  lemma Regrouped(a: string, b: string, c: string, d: string)
    ensures a + (b + (['@'] + c) + d) == (a + b) + ['@'] + (c + d)
  {
    assert b + (['@'] + c) + d == b + (['@'] + (c + d));
  }

  /** An exact component reference ends in its digest, after its last `@`. */
  lemma ComponentDigest(s: string)
    requires IsExactWasmComponent(s)
    ensures RSplitOnce(s, "@").Some?
    ensures var digest := RSplitOnce(s, "@").value.1;
      |digest| == 71 && digest[..7] == "sha256:" && AllLowerHex(digest[7..])
  {
    var image := StripPrefix(s, "wasm://").value;
    var (repository, digest) := RSplitOnce(image, SHA256_MARK).value;
    assert '@' !in repository && |digest| == 64 && AllLowerHex(digest);
    hide RSplitOnce, StripPrefix, IsExactWasmComponent, AllLowerHex;
    var head, tail := "wasm://" + repository, "sha256:" + digest;
    assert SHA256_MARK == ['@'] + "sha256:";
    Regrouped("wasm://", repository, "sha256:", digest);
    HexHasNoMark(digest);
    SplitAtLastIs('@', head, tail);
    assert tail[..7] == "sha256:" && tail[7..] == digest;
  }

  lemma HexHasNoMark(digest: string)
    requires AllLowerHex(digest)
    ensures '@' !in "sha256:" + digest
  {
  }

  // ---------------------------------------------------------------- jobs

  predicate StepsOkTo(steps: seq<Step>, n: nat, options: Options, lib: Library)
    requires n <= |steps|
  {
    forall k :: 0 <= k < n ==> StepOk(steps[k], StateBefore(steps, k, options, lib), options, lib)
  }

  predicate StepsOk(steps: seq<Step>, options: Options, lib: Library) { StepsOkTo(steps, |steps|, options, lib) }

  lemma StepsOkMore(steps: seq<Step>, n: nat, options: Options, lib: Library)
    requires n < |steps|
    ensures StepsOkTo(steps, n + 1, options, lib) <==>
      StepsOkTo(steps, n, options, lib) && StepOk(steps[n], StateBefore(steps, n, options, lib), options, lib)
  {
  }

  function FinalState(job: Job, options: Options, lib: Library): JobState {
    StateBefore(job.steps, |job.steps|, options, lib)
  }

  /** At most one of a job container, container actions and components; a fallback image only when pinned. */
  predicate RunnerImageOk(container: Option<Yaml>, s: JobState, options: Options, lib: Library) {
    && (container.Some? ==> JobContainerOk(container.value, lib) && s.image.None?)
    && (s.wasm ==> container.None? && s.image.None?)
    && (container.None? && s.image.None? && !s.wasm && options.defaultImage.Some? ==> IsFullSha256Image(options.defaultImage.value))
  }

  function NativeImage(container: Option<Yaml>, s: JobState, options: Options, lib: Library): Option<string> {
    if container.Some? then ContainerImage(container.value, lib)
    else if s.image.Some? then s.image
    else if s.wasm then None
    else options.defaultImage
  }

  predicate JobHeadOk(id: string, job: Job, lib: Library) {
    && ValidIdentifier(id) && job.extra == [] && NameOk(job.name)
    && NeedsOk(job.needs) && EnvOk(job.env) && StrategyOk(job.strategy) && ServicesOk(job.services, lib)
  }

  predicate JobTailOk(job: Job, s: JobState, options: Options, lib: Library) {
    && job.outputs == [] && job.uses.None? && job.secrets.None?
    && RunnerImageOk(job.container, s, options, lib)
    && job.defaults.None? && job.environment.None? && job.continueOnError.None?
    && RunnerOk(job.runsOn, lib)
  }

  /** A job that is imported. */
  predicate JobOk(id: string, job: Job, options: Options, lib: Library) {
    && JobHeadOk(id, job, lib) && PermissionsOk(job.permissions)
    && job.steps != [] && StepsOk(job.steps, options, lib)
    && JobTailOk(job, FinalState(job, options, lib), options, lib)
  }

  /** The steps converted so far keep the source's. */
  ghost predicate StepsKeptSoFar(steps: seq<Step>, native: seq<NativeStep>, outputs: map<string, NativeOutput>, options: Options, lib: Library) {
    |native| <= |steps| && forall k :: 0 <= k < |native| ==> StepKept(steps[k], native[k], outputs, options, lib)
  }

  ghost predicate StepsKept(steps: seq<Step>, native: seq<NativeStep>, outputs: map<string, NativeOutput>, options: Options, lib: Library) {
    |native| == |steps| && StepsKeptSoFar(steps, native, outputs, options, lib)
  }

  lemma StepsKeptMore(
    steps: seq<Step>, native: seq<NativeStep>, next: NativeStep, outputs: map<string, NativeOutput>, more: map<string, NativeOutput>,
    options: Options, lib: Library)
    requires |native| < |steps| && StepsKeptSoFar(steps, native, outputs, options, lib) && Included(outputs, more)
    requires StepKept(steps[|native|], next, more, options, lib)
    ensures StepsKeptSoFar(steps, native + [next], more, options, lib)
  {
    hide StepKept;
    forall k | 0 <= k <= |native| ensures StepKept(steps[k], (native + [next])[k], more, options, lib) {
      if k < |native| { StepKeptGrows(steps[k], native[k], outputs, more, options, lib); }
    }
  }

  ghost predicate StepsSafe(native: seq<NativeStep>, reach: PermissionState, components: set<ComponentLock>) {
    forall k :: 0 <= k < |native| ==> StepSafe(native[k], reach, components)
  }

  lemma StepsSafeMore(
    native: seq<NativeStep>, next: NativeStep, p: PermissionState, q: PermissionState,
    components: set<ComponentLock>, more: set<ComponentLock>)
    requires StepsSafe(native, p, components) && PermissionTheory.Within(p, q) && components <= more && StepSafe(next, q, more)
    ensures StepsSafe(native + [next], q, more)
  {
    forall k | 0 <= k <= |native| ensures StepSafe((native + [next])[k], q, more) {
      if k < |native| { StepSafeGrows(native[k], p, q, components, more); }
    }
  }

  /** What all steps ask for, one step more. */
  predicate Asks(native: seq<NativeStep>, reach: PermissionState) {
    reach.destinations == AskedBySteps(native) && reach.secrets.Keys == NamedBySteps(native)
  }

  lemma AsksMore(native: seq<NativeStep>, next: NativeStep, p: PermissionState, q: PermissionState)
    requires Asks(native, p) && Tight(p, q, next.capabilities)
    ensures Asks(native + [next], q)
  {
    assert (native + [next])[..|native|] == native;
  }

  ghost predicate JobKept(job: Job, native: NativeJob, options: Options, lib: Library) {
    && native.name == job.name
    && Some(native.needs) == SourceNeeds(job.needs)
    && MatrixKept(job.strategy, native.matrix)
    && EnvKept(job.env, native.vars)
    && ServicesKept(job.services, native.services, lib)
    && StepsKept(job.steps, native.steps, native.outputs, options, lib)
    && native.outputs == FinalState(job, options, lib).outputs
    && RunnerKept(job, native.runner, FinalState(job, options, lib), options, lib)
  }

  /** The runner has the chosen image, the isolation that fits it, and what the steps require of it. */
  predicate RunnerKept(job: Job, runner: NativeRunner, s: JobState, options: Options, lib: Library) {
    runner == NativeRunner(
      if s.wasm then "wasm" else if NativeImage(job.container, s, options, lib).Some? then "oci" else "microvm",
      NativeImage(job.container, s, options, lib), s.runner)
  }

  /** Whatever was found: steps stay within the job, images and components are pinned. */
  ghost predicate JobSafe(native: NativeJob, state: PermissionState, images: set<ImageLock>, components: set<ComponentLock>) {
    && native.permissions == Native(state)
    && StepsSafe(native.steps, state, components)
    && ImagePinned(native.runner.image, images) && ServicesPinned(native.services)
  }

  /** The job's destinations and secrets are what its steps ask for. */
  predicate JobTight(native: NativeJob, state: PermissionState) { Asks(native.steps, state) }

  lemma JobSafeGrows(
    native: NativeJob, state: PermissionState, images: set<ImageLock>, components: set<ComponentLock>,
    moreImages: set<ImageLock>, moreComponents: set<ComponentLock>)
    requires JobSafe(native, state, images, components) && images <= moreImages && components <= moreComponents
    ensures JobSafe(native, state, moreImages, moreComponents)
  {
    PinnedGrows(native.runner.image, images, moreImages);
    forall k | 0 <= k < |native.steps| ensures StepSafe(native.steps[k], state, moreComponents) {
      StepSafeGrows(native.steps[k], state, state, components, moreComponents);
    }
  }

  // ---------------------------------------------------------------- workflows

  function StaticReference(step: Step, lib: Library): Option<string> {
    if step.uses.Some? then StaticString(step.uses.value, lib) else None
  }

  predicate ExactProgram(p: Program) {
    if p.ContainerProgram? then IsFullSha256Image(p.image) else IsExactWasmComponent(p.reference)
  }

  /** A step that a trusted-target workflow may have. */
  predicate TrustedStep(step: Step, options: Options, lib: Library) {
    var reference := StaticReference(step, lib);
    && step.run.None? && reference.Some?
    && (|| (StripPrefix(reference.value, "docker://").Some? && IsFullSha256Image(StripPrefix(reference.value, "docker://").value))
        || (reference.value in options.actions && ExactProgram(options.actions[reference.value].program)))
  }

  predicate TrustedJob(job: Job, options: Options, lib: Library) {
    && job.uses.None? && job.container.None? && job.services == [] && job.steps != []
    && forall k :: 0 <= k < |job.steps| ==> TrustedStep(job.steps[k], options, lib)
  }

  predicate TrustedTarget(w: Source, options: Options, lib: Library) {
    forall i :: 0 <= i < |w.jobs| ==> TrustedJob(w.jobs[i].1, options, lib)
  }

  predicate WorkflowHeadOk(w: Source, options: Options, lib: Library) {
    && w.extra == [] && NameOk(w.name)
    && (w.trustedTarget ==> TrustedTarget(w, options, lib))
    && PermissionsOk(w.permissions) && EnvOk(w.env)
    && w.jobs != []
  }

  predicate JobsOk(jobs: seq<(string, Job)>, options: Options, lib: Library) {
    forall i :: 0 <= i < |jobs| ==> JobOk(jobs[i].0, jobs[i].1, options, lib)
  }

  /** The supported workflows; each job is judged on its own. */
  predicate WorkflowOk(w: Source, options: Options, lib: Library) {
    WorkflowHeadOk(w, options, lib) && JobsOk(w.jobs, options, lib)
  }

  predicate HasJob(jobs: seq<(string, Job)>, id: string) { exists i :: 0 <= i < |jobs| && jobs[i].0 == id }

  function StepCount(jobs: seq<(string, Job)>): nat {
    if jobs == [] then 0 else StepCount(jobs[..|jobs| - 1]) + |jobs[|jobs| - 1].1.steps|
  }

  predicate DistinctJobs(jobs: seq<(string, Job)>) {
    forall i, k :: 0 <= i < k < |jobs| ==> jobs[i].0 != jobs[k].0
  }

  ghost predicate JobsKept(jobs: seq<(string, Job)>, native: map<string, NativeJob>, options: Options, lib: Library) {
    && (forall id :: id in native ==> HasJob(jobs, id))
    && forall i :: 0 <= i < |jobs| ==> jobs[i].0 in native && JobKept(jobs[i].1, native[jobs[i].0], options, lib)
  }

  ghost predicate WorkflowKept(w: Source, native: NativeWorkflow, options: Options, lib: Library) {
    native.name == w.name && EnvKept(w.env, native.vars) && JobsKept(w.jobs, native.jobs, options, lib)
  }

  /** Every job is safe under its own permissions. */
  ghost predicate JobsSafe(
    jobs: seq<(string, Job)>, native: map<string, NativeJob>, states: seq<PermissionState>,
    images: set<ImageLock>, components: set<ComponentLock>)
  {
    && |states| == |jobs|
    && forall i :: 0 <= i < |jobs| ==> jobs[i].0 in native && JobSafe(native[jobs[i].0], states[i], images, components)
  }

  ghost predicate JobsTight(jobs: seq<(string, Job)>, native: map<string, NativeJob>, states: seq<PermissionState>) {
    |states| == |jobs| && forall i :: 0 <= i < |jobs| ==> jobs[i].0 in native && JobTight(native[jobs[i].0], states[i])
  }

  /** Each job's permissions are what it declares and its steps ask for. */
  predicate JobsExact(jobs: seq<(string, Job)>, top: PermissionState, states: seq<PermissionState>, options: Options, lib: Library) {
    |states| == |jobs| && forall i :: 0 <= i < |jobs| ==> states[i] == JobReach(jobs[i].1, top, options, lib)
  }

  lemma HasJobMore(jobs: seq<(string, Job)>, k: nat, id: string)
    requires k < |jobs|
    ensures HasJob(jobs[..k + 1], id) <==> HasJob(jobs[..k], id) || jobs[k].0 == id
  {
    var more, less := jobs[..k + 1], jobs[..k];
    assert more[k] == jobs[k];
    if HasJob(less, id) {
      var i :| 0 <= i < |less| && less[i].0 == id;
      assert more[i].0 == id;
    }
    if HasJob(more, id) {
      var i :| 0 <= i < |more| && more[i].0 == id;
      if i < k { assert less[i].0 == id; }
    }
  }

  lemma JobsOkMore(jobs: seq<(string, Job)>, k: nat, options: Options, lib: Library)
    requires k < |jobs|
    ensures JobsOk(jobs[..k + 1], options, lib) <==> JobsOk(jobs[..k], options, lib) && JobOk(jobs[k].0, jobs[k].1, options, lib)
  {
    hide JobOk;
    var more, less := jobs[..k + 1], jobs[..k];
    assert more[k] == jobs[k] && forall i :: 0 <= i < k ==> more[i] == less[i];
  }

  lemma JobsKeptMore(jobs: seq<(string, Job)>, k: nat, native: map<string, NativeJob>, next: NativeJob, options: Options, lib: Library)
    requires DistinctJobs(jobs) && k < |jobs|
    requires JobsKept(jobs[..k], native, options, lib) && JobKept(jobs[k].1, next, options, lib)
    ensures JobsKept(jobs[..k + 1], native[jobs[k].0 := next], options, lib)
  {
    hide JobKept;
    var more, prefix := native[jobs[k].0 := next], jobs[..k + 1];
    forall id | id in more ensures HasJob(prefix, id) { HasJobMore(jobs, k, id); }
    forall i | 0 <= i < |prefix| ensures prefix[i].0 in more && JobKept(prefix[i].1, more[prefix[i].0], options, lib) {
      if i < k { assert jobs[..k][i] == jobs[i] && jobs[i].0 != jobs[k].0; }
    }
  }

  lemma JobsSafeMore(
    jobs: seq<(string, Job)>, k: nat, native: map<string, NativeJob>, next: NativeJob, states: seq<PermissionState>, state: PermissionState,
    images: set<ImageLock>, components: set<ComponentLock>, moreImages: set<ImageLock>, moreComponents: set<ComponentLock>)
    requires DistinctJobs(jobs) && k < |jobs| && images <= moreImages && components <= moreComponents
    requires JobsSafe(jobs[..k], native, states, images, components) && JobSafe(next, state, moreImages, moreComponents)
    ensures JobsSafe(jobs[..k + 1], native[jobs[k].0 := next], states + [state], moreImages, moreComponents)
  {
    var more, prefix, all := native[jobs[k].0 := next], jobs[..k + 1], states + [state];
    forall i | 0 <= i < |prefix|
      ensures prefix[i].0 in more && JobSafe(more[prefix[i].0], all[i], moreImages, moreComponents)
    {
      if i < k {
        assert jobs[..k][i] == jobs[i] && jobs[i].0 != jobs[k].0;
        JobSafeGrows(native[jobs[i].0], states[i], images, components, moreImages, moreComponents);
      }
    }
  }

  lemma JobsTightMore(
    jobs: seq<(string, Job)>, k: nat, native: map<string, NativeJob>, next: NativeJob, states: seq<PermissionState>, state: PermissionState)
    requires DistinctJobs(jobs) && k < |jobs| && JobsTight(jobs[..k], native, states) && JobTight(next, state)
    ensures JobsTight(jobs[..k + 1], native[jobs[k].0 := next], states + [state])
  {
    var more, prefix, all := native[jobs[k].0 := next], jobs[..k + 1], states + [state];
    forall i | 0 <= i < |prefix| ensures prefix[i].0 in more && JobTight(more[prefix[i].0], all[i]) {
      if i < k { assert jobs[..k][i] == jobs[i] && jobs[i].0 != jobs[k].0; }
    }
  }

  lemma JobsExactMore(
    jobs: seq<(string, Job)>, k: nat, top: PermissionState, states: seq<PermissionState>, options: Options, lib: Library)
    requires k < |jobs| && JobsExact(jobs[..k], top, states, options, lib)
    ensures JobsExact(jobs[..k + 1], top, states + [JobReach(jobs[k].1, top, options, lib)], options, lib)
  {
    hide JobReach;
    var prefix, all := jobs[..k + 1], states + [JobReach(jobs[k].1, top, options, lib)];
    forall i | 0 <= i < |prefix| ensures all[i] == JobReach(prefix[i].1, top, options, lib) {
      if i < k { assert jobs[..k][i] == jobs[i]; }
    }
  }

  /** Before the first job. */
  lemma NoJobs(
    jobs: seq<(string, Job)>, top: PermissionState, images: set<ImageLock>, components: set<ComponentLock>, base: LockSet,
    options: Options, lib: Library)
    ensures JobsOk(jobs[..0], options, lib) && JobsSafe(jobs[..0], map[], [], images, components)
    ensures JobsKept(jobs[..0], map[], options, lib) && JobsTight(jobs[..0], map[], []) && JobsExact(jobs[..0], top, [], options, lib)
    ensures PermissionTheory.Folded(top, []) == top && StepCount(jobs[..0]) == 0
    ensures Plus(base, JobsLocks(jobs[..0], options, lib)) == base
    ensures jobs[..|jobs|] == jobs
  {
    assert jobs[..0] == [];
    PlusNothing(base);
  }

  lemma CountsMore(jobs: seq<(string, Job)>, k: nat, top: PermissionState, states: seq<PermissionState>, state: PermissionState)
    requires k < |jobs|
    ensures StepCount(jobs[..k + 1]) == StepCount(jobs[..k]) + |jobs[k].1.steps|
    ensures PermissionTheory.Folded(top, states + [state]) == MergeMaximum(PermissionTheory.Folded(top, states), state)
  {
    assert jobs[..k + 1][..k] == jobs[..k] && (states + [state])[..|states|] == states;
  }

  /** The permissions at the top level of the workflow. */
  function TopPermissions(w: Source): PermissionState { DeclaredPermissions(w.permissions, NO_PERMISSIONS) }

  lemma TopHasNothing(w: Source)
    requires ScopesDistinct(w.permissions)
    ensures TopPermissions(w).destinations == {} && TopPermissions(w).secrets == map[]
  {
    NothingDeclared(w.permissions, NO_PERMISSIONS);
  }

  /** The workflow's permissions: the maximum of the top level's and all jobs'. */
  function WorkflowReach(w: Source, states: seq<PermissionState>): PermissionState {
    PermissionTheory.Folded(TopPermissions(w), states)
  }

  /** All of the workflow is kept, and each job's permissions are exactly what it declares and its steps ask for. */
  ghost predicate Imported(w: Source, native: NativeWorkflow, states: seq<PermissionState>, options: Options, lib: Library) {
    && WorkflowKept(w, native, options, lib)
    && JobsTight(w.jobs, native.jobs, states) && JobsExact(w.jobs, TopPermissions(w), states, options, lib)
  }

  lemma ImportedParts(
    w: Source, name: Option<string>, permissions: NativePermissions, vars: map<string, Scalar>, jobs: map<string, NativeJob>,
    states: seq<PermissionState>, options: Options, lib: Library)
    requires name == w.name && EnvKept(w.env, vars) && JobsKept(w.jobs, jobs, options, lib)
    requires JobsTight(w.jobs, jobs, states) && JobsExact(w.jobs, TopPermissions(w), states, options, lib)
    ensures Imported(w, NativeWorkflow(name, permissions, vars, jobs), states, options, lib)
  {
    hide EnvKept, JobsKept, JobsTight, JobsExact;
  }

  // ---------------------------------------------------------------- what follows for a whole import

  /** Inclusion carries over to the native permissions: destinations and secret names of the smaller are in the larger. */
  lemma NativeNests(p: PermissionState, q: PermissionState)
    requires PermissionTheory.Within(p, q)
    ensures Destinations(Native(p).network) <= Destinations(Native(q).network)
    ensures forall name :: HasSecret(Native(p), name) ==> HasSecret(Native(q), name)
  {
    forall name | HasSecret(Native(p), name) ensures HasSecret(Native(q), name) {
      assert name in p.secrets;
      assert SecretRequest(name, q.secrets[name]) in Native(q).secrets;
    }
  }

  /** Over a whole import the capabilities nest: step within job within workflow. */
  lemma CapabilitiesNest(
    w: Source, native: NativeWorkflow, states: seq<PermissionState>,
    images: set<ImageLock>, components: set<ComponentLock>, i: nat, k: nat)
    requires JobsSafe(w.jobs, native.jobs, states, images, components)
    requires native.permissions == Native(WorkflowReach(w, states))
    requires i < |w.jobs| && k < |native.jobs[w.jobs[i].0].steps|
    ensures var job := native.jobs[w.jobs[i].0];
      && Asked(job.steps[k].capabilities) <= Destinations(job.permissions.network) <= Destinations(native.permissions.network)
      && (forall name :: name in AskedNames(job.steps[k].capabilities) ==> HasSecret(job.permissions, name))
      && (forall name :: HasSecret(job.permissions, name) ==> HasSecret(native.permissions, name))
  {
    var job, folded := native.jobs[w.jobs[i].0], WorkflowReach(w, states);
    PermissionTheory.FoldIsLeastUpperBound(TopPermissions(w), states, folded);
    NativeNests(states[i], folded);
    assert StepSafe(job.steps[k], states[i], components);
    forall name | name in AskedNames(job.steps[k].capabilities) ensures HasSecret(job.permissions, name) {
      assert SecretRequest(name, states[i].secrets[name]) in job.permissions.secrets;
    }
  }

  lemma {:induction false} FoldedDestinations(top: PermissionState, states: seq<PermissionState>, d: Destination)
    ensures d in PermissionTheory.Folded(top, states).destinations <==>
      d in top.destinations || exists i :: 0 <= i < |states| && d in states[i].destinations
  {
    if states != [] {
      var n := |states| - 1;
      FoldedDestinations(top, states[..n], d);
      assert forall i :: 0 <= i < n ==> states[..n][i] == states[i];
    }
  }

  lemma {:induction false} AskedByStepsMeans(steps: seq<NativeStep>, d: Destination)
    ensures d in AskedBySteps(steps) <==> exists k :: 0 <= k < |steps| && d in Asked(steps[k].capabilities)
  {
    if steps != [] {
      var n := |steps| - 1;
      AskedByStepsMeans(steps[..n], d);
      assert forall k :: 0 <= k < n ==> steps[..n][k] == steps[k];
    }
  }

  lemma {:induction false} FoldedSecrets(top: PermissionState, states: seq<PermissionState>, name: string)
    ensures name in PermissionTheory.Folded(top, states).secrets <==>
      name in top.secrets || exists i :: 0 <= i < |states| && name in states[i].secrets
  {
    if states != [] {
      var n := |states| - 1;
      FoldedSecrets(top, states[..n], name);
      assert forall i :: 0 <= i < n ==> states[..n][i] == states[i];
    }
  }

  lemma {:induction false} NamedByStepsMeans(steps: seq<NativeStep>, name: string)
    ensures name in NamedBySteps(steps) <==> StepNames(steps, name)
  {
    if steps != [] {
      var n := |steps| - 1;
      NamedByStepsMeans(steps[..n], name);
      assert forall k :: 0 <= k < n ==> steps[..n][k] == steps[k];
    }
  }

  predicate StepNames(steps: seq<NativeStep>, name: string) {
    exists k :: 0 <= k < |steps| && name in AskedNames(steps[k].capabilities)
  }

  ghost predicate SomeStepNames(jobs: seq<(string, Job)>, native: map<string, NativeJob>, name: string) {
    exists i :: 0 <= i < |jobs| && jobs[i].0 in native && StepNames(native[jobs[i].0].steps, name)
  }

  lemma NativeSecret(p: PermissionState, name: string)
    ensures HasSecret(Native(p), name) <==> name in p.secrets
  {
    if name in p.secrets { assert SecretRequest(name, p.secrets[name]) in Native(p).secrets; }
  }

  /** An imported workflow may read a secret exactly when some step of it names that secret. */
  lemma LeastSecrets(w: Source, native: NativeWorkflow, states: seq<PermissionState>, name: string)
    requires ScopesDistinct(w.permissions) && JobsTight(w.jobs, native.jobs, states)
    requires native.permissions == Native(WorkflowReach(w, states))
    ensures HasSecret(native.permissions, name) <==> SomeStepNames(w.jobs, native.jobs, name)
  {
    NothingDeclared(w.permissions, NO_PERMISSIONS);
    FoldedSecrets(TopPermissions(w), states, name);
    NativeSecret(WorkflowReach(w, states), name);
    forall i | 0 <= i < |states|
      ensures name in states[i].secrets <==> StepNames(native.jobs[w.jobs[i].0].steps, name)
    {
      assert JobTight(native.jobs[w.jobs[i].0], states[i]);
      NamedByStepsMeans(native.jobs[w.jobs[i].0].steps, name);
    }
  }

  predicate StepAsks(steps: seq<NativeStep>, d: Destination) {
    exists k :: 0 <= k < |steps| && d in Asked(steps[k].capabilities)
  }

  ghost predicate SomeStepAsks(jobs: seq<(string, Job)>, native: map<string, NativeJob>, d: Destination) {
    exists i :: 0 <= i < |jobs| && jobs[i].0 in native && StepAsks(native[jobs[i].0].steps, d)
  }

  lemma JobAsks(native: NativeJob, state: PermissionState, d: Destination)
    requires JobTight(native, state)
    ensures d in state.destinations <==> StepAsks(native.steps, d)
  {
    AskedByStepsMeans(native.steps, d);
  }

  /** An imported workflow may reach a destination exactly when some step of it asks for that destination. */
  lemma LeastPrivilege(w: Source, native: NativeWorkflow, states: seq<PermissionState>, d: Destination)
    requires ScopesDistinct(w.permissions) && JobsTight(w.jobs, native.jobs, states)
    requires native.permissions == Native(WorkflowReach(w, states))
    ensures d in Destinations(native.permissions.network) <==> SomeStepAsks(w.jobs, native.jobs, d)
  {
    NothingDeclared(w.permissions, NO_PERMISSIONS);
    FoldedDestinations(TopPermissions(w), states, d);
    forall i | 0 <= i < |states|
      ensures d in states[i].destinations <==> StepAsks(native.jobs[w.jobs[i].0].steps, d)
    {
      JobAsks(native.jobs[w.jobs[i].0], states[i], d);
    }
  }
}
