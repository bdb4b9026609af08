/** Source workflows as parsed, and the native workflows that the importer builds from them. */
module Workflow {
  import opened Results

  // ---------------------------------------------------------------- source

  datatype Number = Int(value: int) | Float(digits: string)

  datatype Yaml =
    | Null | Bool(b: bool) | Num(n: Number) | Str(s: string)
    | Seq(items: seq<Yaml>) | Mapping(entries: seq<(Yaml, Yaml)>)

  /** A string-keyed table with distinct names. */
  type Table = seq<(string, Yaml)>

  predicate Distinct(t: Table) {
    forall i, j :: 0 <= i < j < |t| ==> t[i].0 != t[j].0
  }

  datatype Step = Step(
    id: Option<string>, name: Option<string>, run: Option<Yaml>, uses: Option<Yaml>, inputs: Table, env: Table,
    shell: Option<Yaml>, workingDirectory: Option<Yaml>, continueOnError: Option<Yaml>, extra: Table)

  datatype Strategy = Strategy(matrix: Option<Yaml>, failFast: Option<Yaml>, maxParallel: Option<Yaml>, extra: Table)

  datatype Service = Service(
    image: Option<Yaml>, env: Table, ports: seq<Yaml>, options: Option<Yaml>, credentials: Option<Yaml>,
    volumes: Option<Yaml>, extra: Table)

  datatype Permissions = Keyword(word: string) | Scopes(scopes: Table)

  datatype Job = Job(
    name: Option<string>, needs: Option<Yaml>, runsOn: Option<Yaml>, permissions: Option<Permissions>, env: Table,
    strategy: Option<Strategy>, services: seq<(string, Service)>, steps: seq<Step>, outputs: Table, uses: Option<Yaml>,
    secrets: Option<Yaml>, container: Option<Yaml>, defaults: Option<Yaml>, environment: Option<Yaml>,
    continueOnError: Option<Yaml>, extra: Table)

  /** `trustedTarget` says that the triggers request pull_request_target. */
  datatype Source = Source(
    name: Option<string>, trustedTarget: bool, permissions: Option<Permissions>, env: Table,
    jobs: seq<(string, Job)>, extra: Table)

  /** The keys of a mapping value are distinct, as in every parsed one. */
  predicate DistinctMapping(v: Yaml) {
    v.Mapping? ==> forall i, j :: 0 <= i < j < |v.entries| ==> v.entries[i].0 != v.entries[j].0
  }

  predicate StepTables(s: Step) { Distinct(s.inputs) && Distinct(s.env) }

  predicate ScopesDistinct(p: Option<Permissions>) {
    p.Some? && p.value.Scopes? ==> Distinct(p.value.scopes)
  }

  predicate DistinctServices(services: seq<(string, Service)>) {
    forall i, k :: 0 <= i < k < |services| ==> services[i].0 != services[k].0
  }

  predicate JobTables(j: Job) {
    && Distinct(j.env) && ScopesDistinct(j.permissions)
    && (j.strategy.Some? && j.strategy.value.matrix.Some? ==> DistinctMapping(j.strategy.value.matrix.value))
    && (forall i :: 0 <= i < |j.steps| ==> StepTables(j.steps[i]))
    && (forall i :: 0 <= i < |j.services| ==> Distinct(j.services[i].1.env))
    && DistinctServices(j.services)
  }

  /** Tables come from maps: no name occurs twice in any of them. */
  predicate WellFormed(w: Source) {
    && Distinct(w.env) && ScopesDistinct(w.permissions)
    && (forall i :: 0 <= i < |w.jobs| ==> JobTables(w.jobs[i].1))
    && (forall i, k :: 0 <= i < k < |w.jobs| ==> w.jobs[i].0 != w.jobs[k].0)
  }

  // ---------------------------------------------------------------- prepared actions

  datatype ActionInput = ActionInput(required: bool, default: Option<string>)

  datatype ActionSecret = ActionSecret(name: string, purpose: string, fileEnv: string)

  datatype Program =
    | ContainerProgram(image: string, entrypoint: Option<string>, arguments: Option<seq<string>>)
    | ComponentProgram(reference: string, apiUrl: string, signatureIdentity: string, wit: string)

  datatype ResolvedAction = ResolvedAction(
    inputs: seq<(string, ActionInput)>, destinations: seq<(string, nat)>, secrets: seq<ActionSecret>,
    denyPrivate: bool, program: Program)

  datatype Options = Options(actions: map<string, ResolvedAction>, defaultImage: Option<string>)

  // ---------------------------------------------------------------- native

  datatype Scalar = Boolean(b: bool) | Integer(i: int) | Decimal(digits: string) | Text(s: string)

  datatype Access = Deny | Read | Write

  datatype CacheRead = CacheReadDeny | Public | Verified | Branch | Run

  datatype CacheWrite = CacheWriteDeny | Quarantine | BranchWrite | VerifiedWrite

  type Destination = (string, nat)

  datatype Network = NoNetwork | Policy(denyPrivate: bool, allow: set<Destination>)

  datatype CachePermissions = CachePermissions(read: CacheRead, write: CacheWrite)

  datatype SecretRequest = SecretRequest(name: string, purpose: string)

  datatype Capabilities = Capabilities(
    network: Network, cache: Option<CachePermissions>, artifacts: Option<Access>, secrets: seq<SecretRequest>)

  datatype NativeCache = NativeCache(inputs: seq<string>, outputs: seq<string>)

  datatype NativeRun =
    | Command(command: seq<string>)
    | Script(shell: string, script: string, workingDirectory: Option<string>)
    | Container(entrypoint: Option<string>, args: Option<seq<string>>)

  datatype NativeStep = NativeStep(
    id: Option<string>, name: Option<string>, uses: Option<string>, inputs: map<string, Scalar>, run: Option<NativeRun>,
    env: map<string, Scalar>, capabilities: Option<Capabilities>, cache: Option<NativeCache>, continueOnError: bool)

  datatype NativeService = NativeService(image: string, ports: seq<nat>, env: map<string, Scalar>)

  datatype NativeRunner = NativeRunner(isolation: string, image: Option<string>, capabilities: set<string>)

  datatype NativeOutput = NativeOutput(path: string, retention: string)

  datatype NativePermissions = NativePermissions(
    access: Scopes9, network: Network, cache: CachePermissions, secrets: set<SecretRequest>)

  datatype NativeJob = NativeJob(
    name: Option<string>, needs: seq<string>, runner: NativeRunner, permissions: NativePermissions,
    matrix: map<string, seq<Scalar>>, vars: map<string, Scalar>, services: map<string, NativeService>,
    steps: seq<NativeStep>, outputs: map<string, NativeOutput>)

  datatype NativeWorkflow = NativeWorkflow(
    name: Option<string>, permissions: NativePermissions, vars: map<string, Scalar>, jobs: map<string, NativeJob>)

  datatype ImageLock = ImageLock(source: string, resolved: string)

  datatype ComponentLock = ComponentLock(source: string, resolved: string, signatureIdentity: string, wit: string)

  // ---------------------------------------------------------------- permissions

  datatype Scopes9 = Scopes9(
    repository: Access, contents: Access, issues: Access, pullRequests: Access, scmChecks: Access,
    statuses: Access, checks: Access, artifacts: Access, registry: Access)

  datatype Scope = Repository | Contents | Issues | PullRequests | ScmChecks | Statuses | Checks | Artifacts | Registry

  function At(a: Scopes9, s: Scope): Access {
    match s
    case Repository => a.repository
    case Contents => a.contents
    case Issues => a.issues
    case PullRequests => a.pullRequests
    case ScmChecks => a.scmChecks
    case Statuses => a.statuses
    case Checks => a.checks
    case Artifacts => a.artifacts
    case Registry => a.registry
  }

  datatype PermissionState = PermissionState(
    access: Scopes9, cacheRead: CacheRead, cacheWrite: CacheWrite, secrets: map<string, string>,
    destinations: set<Destination>, allowPrivate: bool)

  const NO_ACCESS: Scopes9 := Scopes9(Deny, Deny, Deny, Deny, Deny, Deny, Deny, Deny, Deny)

  const NO_PERMISSIONS: PermissionState := PermissionState(NO_ACCESS, CacheReadDeny, CacheWriteDeny, map[], {}, false)

  function Rank(a: Access): nat {
    match a case Deny => 0 case Read => 1 case Write => 2
  }

  predicate Leq(a: Access, b: Access) { Rank(a) <= Rank(b) }

  function Max(a: Access, b: Access): Access { if Leq(a, b) then b else a }

  function MergeCacheRead(left: CacheRead, right: CacheRead): CacheRead {
    if left == CacheReadDeny then right else left
  }

  function MergeCacheWrite(left: CacheWrite, right: CacheWrite): CacheWrite {
    if left == CacheWriteDeny then right else left
  }

  /** `merge_maximum`. */
  function MergeMaximum(p: PermissionState, q: PermissionState): PermissionState {
    var a, b := p.access, q.access;
    PermissionState(
      Scopes9(Max(a.repository, b.repository), Max(a.contents, b.contents), Max(a.issues, b.issues),
              Max(a.pullRequests, b.pullRequests), Max(a.scmChecks, b.scmChecks), Max(a.statuses, b.statuses),
              Max(a.checks, b.checks), Max(a.artifacts, b.artifacts), Max(a.registry, b.registry)),
      MergeCacheRead(p.cacheRead, q.cacheRead), MergeCacheWrite(p.cacheWrite, q.cacheWrite),
      p.secrets + q.secrets, p.destinations + q.destinations, p.allowPrivate || q.allowPrivate)
  }

  /** `PermissionState::native`. */
  function Native(p: PermissionState): NativePermissions {
    NativePermissions(
      p.access,
      if p.destinations == {} then NoNetwork else Policy(!p.allowPrivate, p.destinations),
      CachePermissions(p.cacheRead, p.cacheWrite),
      set name | name in p.secrets :: SecretRequest(name, p.secrets[name]))
  }

  function Destinations(n: Network): set<Destination> {
    if n.NoNetwork? then {} else n.allow
  }

  ghost predicate HasSecret(p: NativePermissions, name: string) {
    exists r :: r in p.secrets && r.name == name
  }
}
