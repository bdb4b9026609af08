/** The analyzer: one traversal of a workflow that pushes findings and builds the native workflow. */
module Importer {
  import opened Results
  import opened Text
  import opened Validation
  import opened Workflow
  import opened Expressions
  import opened Lossless
  import opened Actions
  import opened Compatibility
  import PermissionTheory
  import Templates

  /** What the effects of a job's steps amount to: its permissions with the destinations asked for. */
  class JobEffects {
    var permissions: PermissionState
    var outputs: map<string, NativeOutput>
    var runnerCapabilities: set<string>
    var containerActionImage: Option<string>
    var wasmComponent: bool
    var networkDestinations: set<Destination>
    var allowPrivateNetwork: bool

    constructor (base: PermissionState)
      ensures permissions == base && outputs == map[] && runnerCapabilities == {}
      ensures containerActionImage == None && !wasmComponent && networkDestinations == {} && !allowPrivateNetwork
    {
      permissions, outputs, runnerCapabilities := base, map[], {};
      containerActionImage, wasmComponent, networkDestinations, allowPrivateNetwork := None, false, {}, false;
    }

    function Reach(): PermissionState
      reads this
    {
      permissions.(destinations := networkDestinations, allowPrivate := allowPrivateNetwork)
    }

    function State(): JobState
      reads this
    {
      JobState(containerActionImage, wasmComponent, outputs, runnerCapabilities)
    }
  }

  class Analyzer {
    var findings: seq<Finding>
    var mappedJobs: nat
    var mappedSteps: nat
    var lockImages: set<ImageLock>
    var lockComponents: set<ComponentLock>
    const options: Options
    const lib: Library

    constructor (options: Options, lib: Library)
      ensures findings == [] && mappedJobs == 0 && mappedSteps == 0 && lockImages == {} && lockComponents == {}
      ensures this.options == options && this.lib == lib
    {
      this.options, this.lib := options, lib;
      findings, mappedJobs, mappedSteps, lockImages, lockComponents := [], 0, 0, {}, {};
    }

    function Locked(): LockSet
      reads this`lockImages, this`lockComponents
    {
      LockSet(lockImages, lockComponents)
    }

    /** Nothing found so far blocks the import. */
    predicate Clear()
      reads this`findings
    {
      NoBlocking(findings)
    }

    method Add(status: Status, code: string)
      modifies this`findings
      ensures findings == old(findings) + [Finding(status, code)]
      ensures Clear() <==> old(Clear()) && !Blocking(status)
    {
      findings := findings + [Finding(status, code)];
      assert findings[|old(findings)|] == Finding(status, code);
      assert forall i :: 0 <= i < |old(findings)| ==> findings[i] == old(findings)[i];
    }

    method UnsupportedExtras(extra: Table)
      modifies this`findings
      ensures Clear() <==> old(Clear()) && extra == []
    {
      for i := 0 to |extra|
        invariant Clear() <==> old(Clear()) && i == 0
      {
        Add(Unsupported, "unknown-field");
      }
    }

    method DynamicOrUnsupported(v: Yaml)
      modifies this`findings
      ensures !Clear()
    {
      var text := lib.yamlText(v);
      if HasSecretExpression(text) {
        Add(Unsafe, "raw-github-secret");
      } else if HasExpression(text) {
        Add(Unsupported, "dynamic-expression");
      } else {
        Add(Unsupported, "unsupported-syntax");
      }
    }

    method ConvertDisplayName(name: Option<string>) returns (r: Option<string>)
      modifies this`findings
      ensures Clear() <==> old(Clear()) && NameOk(name)
      ensures Clear() ==> r == name
    {
      if name.None? { return None; }
      r := None;
      if HasSecretExpression(name.value) {
        Add(Unsafe, "raw-github-secret");
      } else if HasExpression(name.value) {
        Add(Unsupported, "dynamic-display-name");
      } else if NUL in name.value {
        Add(Unsupported, "nul-value");
      } else {
        r := name;
      }
    }

    method ConvertScalar(v: Yaml) returns (r: Option<Scalar>)
      modifies this`findings
      ensures r == ScalarOf(v)
      ensures Clear() <==> old(Clear()) && r.Some?
    {
      match v
      case Bool(b) => r := Some(Boolean(b));
      case Num(n) =>
        match n {
          case Int(i) =>
            if i <= I64_MAX { return Some(Integer(i)); }
            Add(Unsupported, "integer-range");
            r := None;
          case Float(digits) => r := Some(Decimal(digits));
        }
      case Str(s) =>
        r := None;
        if HasSecretExpression(s) {
          Add(Unsafe, "raw-github-secret");
        } else if HasExpression(s) {
          Add(Unsupported, "dynamic-expression");
        } else if NUL in s {
          Add(Unsupported, "nul-value");
        } else {
          r := Some(Scalar.Text(s));
        }
      case _ =>
        Add(Unsupported, "non-scalar-value");
        r := None;
    }

    /** The environment is importable exactly when every entry is, and then nothing of it is lost. */
    method ConvertEnv(t: Table) returns (env: map<string, Scalar>)
      requires Distinct(t)
      modifies this`findings
      ensures Clear() <==> old(Clear()) && EnvOk(t)
      ensures Clear() ==> EnvKept(t, env)
    {
      env := map[];
      for i := 0 to |t|
        invariant Clear() <==> old(Clear()) && EnvOk(t[..i])
        invariant Clear() ==> EnvKept(t[..i], env)
      {
        var (name, value) := t[i];
        EnvOkMore(t, i);
        if !ValidEnvironmentName(name) {
          Add(Unsupported, "invalid-env-name");
          continue;
        }
        if LooksLikeSecretName(name) && !IsEmptyScalar(value) {
          Add(Unsafe, "raw-secret-literal");
        }
        var converted := ConvertScalar(value);
        if converted.Some? {
          if Clear() { EnvKeptMore(t, i, env, converted.value); }
          env := env[name := converted.value];
          Add(Supported, "static-environment");
        }
      }
      assert t[..|t|] == t;
    }

    /** Needs are importable exactly when they are static identifiers, and then the list is the source's. */
    method ConvertNeeds(needs: Option<Yaml>) returns (result: seq<string>)
      modifies this`findings
      ensures Clear() <==> old(Clear()) && NeedsOk(needs)
      ensures Clear() ==> Some(result) == SourceNeeds(needs)
    {
      if needs.None? { return []; }
      var v := needs.value;
      var values: seq<string> := [];
      if v.Str? {
        values := [v.s];
      } else if v.Seq? {
        for i := 0 to |v.items|
          invariant Clear() <==> old(Clear()) && AllText(v.items[..i])
          invariant AllText(v.items[..i]) ==> values == Texts(v.items[..i])
        {
          assert v.items[..i + 1] == v.items[..i] + [v.items[i]];
          if v.items[i].Str? {
            values := values + [v.items[i].s];
          } else {
            DynamicOrUnsupported(v.items[i]);
            assert !v.items[..i + 1][i].Str?;
          }
        }
        assert v.items[..|v.items|] == v.items;
      } else {
        DynamicOrUnsupported(v);
      }
      ghost var listed := SourceNeeds(needs).Some?;
      assert Clear() <==> old(Clear()) && listed;
      assert listed ==> values == SourceNeeds(needs).value;
      result := [];
      for i := 0 to |values|
        invariant Clear() <==> old(Clear()) && listed && forall k :: 0 <= k < i ==> StaticId(values[k])
        invariant (forall k :: 0 <= k < i ==> StaticId(values[k])) ==> result == values[..i]
      {
        if HasExpression(values[i]) || !ValidIdentifier(values[i]) {
          assert !StaticId(values[i]);
          Add(Unsupported, "dynamic-or-invalid-needs");
        } else {
          assert values[..i + 1] == values[..i] + [values[i]];
          result := result + [values[i]];
        }
      }
      assert values[..|values|] == values;
      if result != [] { Add(Supported, "job-needs"); }
    }

    method ConvertAxis(values: Yaml, items: seq<Yaml>) returns (converted: seq<Scalar>)
      requires values == Seq(items)
      modifies this`findings
      ensures Clear() <==> old(Clear()) && AllScalars(items)
      ensures AllScalars(items) ==> ScalarsKept(items, converted)
    {
      converted := [];
      for i := 0 to |items|
        invariant Clear() <==> old(Clear()) && AllScalars(items[..i])
        invariant AllScalars(items[..i]) ==> ScalarsKept(items[..i], converted)
      {
        assert items[..i + 1] == items[..i] + [items[i]] && items[..i + 1][i] == items[i];
        AllScalarsMore(items, i);
        var value := ConvertScalar(items[i]);
        if value.Some? { converted := converted + [value.value]; }
      }
      assert items[..|items|] == items;
    }

    /** The matrix is importable exactly under `StrategyOk`, and then every axis and value is kept. */
    method ConvertMatrix(strategy: Option<Strategy>) returns (native: map<string, seq<Scalar>>)
      requires strategy.Some? && strategy.value.matrix.Some? ==> DistinctMapping(strategy.value.matrix.value)
      modifies this`findings
      ensures Clear() <==> old(Clear()) && StrategyOk(strategy)
      ensures Clear() ==> MatrixKept(strategy, native)
    {
      native := map[];
      if strategy.None? { return; }
      var s := strategy.value;
      UnsupportedExtras(s.extra);
      if s.failFast.Some? {
        if s.failFast.value.Bool? {
          Add(Emulated, "matrix-fail-fast");
        } else {
          DynamicOrUnsupported(s.failFast.value);
        }
      }
      if s.maxParallel.Some? { DynamicOrUnsupported(s.maxParallel.value); }
      if s.matrix.None? { return; }
      var axes := StringMap(s.matrix.value);
      if axes.None? {
        DynamicOrUnsupported(s.matrix.value);
        return;
      }
      StringEntriesDistinct(s.matrix.value.entries);
      native := ConvertAxes(axes.value);
    }

    method ConvertAxes(axes: Table) returns (native: map<string, seq<Scalar>>)
      requires Distinct(axes)
      modifies this`findings
      ensures Clear() <==> old(Clear()) && AxesOk(axes)
      ensures Clear() ==> AxesKept(axes, native)
    {
      native := map[];
      for i := 0 to |axes|
        invariant Clear() <==> old(Clear()) && AxesOk(axes[..i])
        invariant Clear() ==> AxesKept(axes[..i], native)
      {
        var (axis, values) := axes[i];
        AxesOkMore(axes, i);
        if axis == "include" || axis == "exclude" {
          Add(Unsupported, "matrix-include-exclude");
          continue;
        }
        if !ValidIdentifier(axis) {
          Add(Unsupported, "invalid-matrix-axis");
          continue;
        }
        if !values.Seq? {
          DynamicOrUnsupported(values);
          continue;
        }
        var converted := ConvertAxis(values, values.items);
        if converted == [] {
          Add(Unsupported, "empty-matrix-axis");
        } else {
          if Clear() { AxesKeptMore(axes, i, native, converted); }
          native := native[axis := converted];
          Add(Supported, "static-matrix-axis");
        }
      }
      assert axes[..|axes|] == axes;
    }

    // -------------------------------------------------------------- services, containers, runners

    /** A service image is taken over exactly when it is static and pinned by a full digest. */
    method ConvertServiceImage(v: Yaml) returns (r: Option<string>)
      modifies this`findings
      ensures r == if StaticPinned(v, lib) then StaticString(v, lib) else None
      ensures Clear() <==> old(Clear()) && r.Some?
    {
      r := StaticString(v, lib);
      if r.None? {
        DynamicOrUnsupported(v);
        return;
      }
      if !IsFullSha256Image(r.value) {
        Add(Unsafe, "mutable-service-image");
        return None;
      }
      Add(Supported, "pinned-service-image");
    }

    method ConvertServicePort(v: Yaml) returns (r: Option<nat>)
      modifies this`findings
      ensures r == PortOf(v)
      ensures Clear() <==> old(Clear()) && r.Some?
    {
      r := None;
      var positive := PositiveU64(v);
      if positive.Some? {
        r := if positive.value <= U16_MAX then positive else None;
      } else if v.Str? && !HasExpression(v.s) {
        var colon := Find(v.s, ":");
        if colon.Some? {
          if v.s[..colon.value] != v.s[colon.value + 1..] {
            Add(Unsupported, "service-port-remap");
            return None;
          }
          r := ParseUnsigned(v.s[..colon.value], U16_MAX);
        } else {
          r := ParseUnsigned(v.s, U16_MAX);
        }
      }
      if r.Some? && r.value != 0 {
        Add(Supported, "service-port");
      } else {
        DynamicOrUnsupported(v);
        r := None;
      }
    }

    method ConvertPorts(ports: seq<Yaml>) returns (native: seq<nat>)
      modifies this`findings
      ensures Clear() <==> old(Clear()) && PortsOk(ports)
      ensures Clear() ==> PortsKept(ports, native)
    {
      native := [];
      for i := 0 to |ports|
        invariant Clear() <==> old(Clear()) && PortsOk(ports[..i])
        invariant Clear() ==> PortsKept(ports[..i], native)
      {
        assert ports[..i + 1] == ports[..i] + [ports[i]] && ports[..i + 1][i] == ports[i];
        PortsOkMore(ports, i);
        var port := ConvertServicePort(ports[i]);
        if port.Some? { native := native + [port.value]; }
      }
      assert ports[..|ports|] == ports;
    }

    /** Every native service is pinned, come what may; without a blocking finding each is the source's. */
    method ConvertServices(services: seq<(string, Service)>) returns (native: map<string, NativeService>)
      requires DistinctServices(services) && forall i :: 0 <= i < |services| ==> Distinct(services[i].1.env)
      modifies this`findings
      ensures ServicesPinned(native)
      ensures Clear() <==> old(Clear()) && ServicesOk(services, lib)
      ensures Clear() ==> ServicesKept(services, native, lib)
    {
      native := map[];
      for i := 0 to |services|
        invariant ServicesPinned(native)
        invariant Clear() <==> old(Clear()) && ServicesOk(services[..i], lib)
        invariant Clear() ==> ServicesKept(services[..i], native, lib)
      {
        ServicesOkMore(services, i, lib);
        var (name, service) := services[i];
        var converted := ConvertService(name, service);
        if Clear() { ServicesKeptMore(services, i, native, converted, lib); }
        native := native[name := converted];
      }
      assert services[..|services|] == services;
    }

    method ConvertService(name: string, service: Service) returns (native: NativeService)
      requires Distinct(service.env)
      modifies this`findings
      ensures IsFullSha256Image(native.image)
      ensures Clear() <==> old(Clear()) && ServiceOk((name, service), lib)
      ensures Clear() ==> ServiceKept(service, native, lib)
    {
      UnsupportedExtras(service.extra);
      if !ValidIdentifier(name) { Add(Unsupported, "invalid-service-id"); }
      var image: Option<string> := None;
      if service.image.None? {
        Add(Unsupported, "missing-service-image");
      } else {
        image := ConvertServiceImage(service.image.value);
      }
      PlaceholderPinned();
      var env := ConvertEnv(service.env);
      var ports := ConvertPorts(service.ports);
      if service.options.Some? {
        var privileged := HasPrivilegedOrHostFeature(lib.yamlText(service.options.value));
        Add(if privileged then Unsafe else Unsupported, if privileged then "privileged-service-options" else "service-options");
      }
      if service.credentials.Some? { Add(Unsafe, "service-registry-credentials"); }
      if service.volumes.Some? { Add(Unsafe, "service-host-volume"); }
      native := NativeService(if image.Some? then image.value else PLACEHOLDER_IMAGE, ports, env);
    }

    /** A job container is taken over only when it is one static, pinned image and nothing else. */
    method ConvertJobContainer(v: Yaml) returns (r: Option<string>)
      modifies this`findings
      ensures r == if JobContainerOk(v, lib) then ContainerImage(v, lib) else None
      ensures Clear() <==> old(Clear()) && r.Some?
    {
      var imageValue := Some(v);
      var unsupportedOptions := false;
      if v.Mapping? {
        var fields := StringMap(v);
        if fields.None? {
          DynamicOrUnsupported(v);
          return None;
        }
        imageValue := Lookup(fields.value, "image");
        for i := 0 to |fields.value|
          invariant unsupportedOptions <==> !OnlyImage(fields.value[..i])
          invariant Clear() <==> old(Clear()) && !unsupportedOptions
        {
          var (field, option) := fields.value[i];
          assert fields.value[..i + 1] == fields.value[..i] + [fields.value[i]] && fields.value[..i + 1][i] == fields.value[i];
          if field != "image" {
            unsupportedOptions := true;
            if field in {"credentials", "volumes"} || HasPrivilegedOrHostFeature(lib.yamlText(option)) {
              Add(Unsafe, "unsafe-job-container-option");
            } else {
              Add(Unsupported, "job-container-option");
            }
          }
        }
        assert fields.value[..|fields.value|] == fields.value;
      }
      if imageValue.None? {
        Add(Unsupported, "missing-job-container-image");
        return None;
      }
      var image := StaticString(imageValue.value, lib);
      if image.None? {
        DynamicOrUnsupported(imageValue.value);
        return None;
      }
      if !IsFullSha256Image(image.value) {
        Add(Unsafe, "mutable-job-container-image");
        return None;
      }
      if unsupportedOptions { return None; }
      Add(Supported, "pinned-job-container-image");
      r := image;
    }

    method ConvertRunner(v: Option<Yaml>, capabilities: set<string>, image: Option<string>, wasm: bool) returns (r: NativeRunner)
      modifies this`findings
      ensures r == NativeRunner(if wasm then "wasm" else if image.Some? then "oci" else "microvm", image, capabilities)
      ensures Clear() <==> old(Clear()) && RunnerOk(v, lib)
    {
      var labels := if v.Some? then RunnerLabels(v.value, lib) else None;
      if labels.None? {
        if v.Some? { DynamicOrUnsupported(v.value); } else { Add(Unsupported, "missing-runner"); }
      } else if "self-hosted" in labels.value {
        Add(Unsafe, "self-hosted-runner");
      } else if |labels.value| == 1 && (labels.value[0] == "ubuntu-latest" || StartsWith(labels.value[0], "ubuntu-")) {
        Add(Emulated, "hosted-runner-image");
      } else if exists i :: 0 <= i < |labels.value| && StartsWith(labels.value[i], "windows-") {
        Add(Unsupported, "windows-runner");
      } else if exists i :: 0 <= i < |labels.value| && StartsWith(labels.value[i], "macos-") {
        Add(Unsupported, "macos-runner");
      } else {
        Add(Unsupported, "runner-labels");
      }
      r := NativeRunner(if wasm then "wasm" else if image.Some? then "oci" else "microvm", image, capabilities);
    }

    // -------------------------------------------------------------- permissions

    /** The permissions are what is declared; a scope map is accepted exactly when every entry is known. */
    method ConvertPermissions(permissions: Option<Permissions>, inherited: PermissionState) returns (p: PermissionState)
      requires ScopesDistinct(permissions) && PermissionTheory.ImporterCache(inherited)
      modifies this`findings
      ensures p == DeclaredPermissions(permissions, inherited) && PermissionTheory.ImporterCache(p)
      ensures Clear() <==> old(Clear()) && PermissionsOk(permissions)
    {
      if permissions.None? {
        Add(Emulated, "default-token-permissions");
        return inherited;
      }
      if permissions.value.Keyword? {
        Add(RequiresGithub, "github-token-permission-set");
        return NO_PERMISSIONS;
      }
      p := ConvertScopes(permissions.value.scopes);
    }

    method ConvertScopes(t: Table) returns (p: PermissionState)
      modifies this`findings
      ensures p == Granted(t) && PermissionTheory.ImporterCache(p)
      ensures Clear() <==> old(Clear()) && ScopesOk(t)
    {
      p := NO_PERMISSIONS;
      for i := 0 to |t|
        invariant p == Granted(t[..i]) && PermissionTheory.ImporterCache(p)
        invariant Clear() <==> old(Clear()) && ScopesOk(t[..i])
      {
        var prefix := t[..i + 1];
        assert prefix[..i] == t[..i] && prefix[i] == t[i];
        ScopesOkMore(t, i);
        p := ConvertScope(t[i], p);
      }
      assert t[..|t|] == t;
    }

    /** One entry changes only what it names. */
    method ConvertScope(e: (string, Yaml), before: PermissionState) returns (p: PermissionState)
      modifies this`findings
      ensures Clear() <==> old(Clear()) && ScopeOk(e)
      ensures p == ScopeGranted(e, before)
    {
      p := before;
      var (scope, value) := e;
      if !value.Str? {
        DynamicOrUnsupported(value);
        return;
      }
      var access := AccessOf(value);
      if access.None? {
        Add(Unsupported, "invalid-permission-access");
        return;
      }
      var native := ScopeOf(scope);
      if native.Some? {
        p := p.(access := WithAccess(p.access, native.value, access.value));
        if scope == "issues" || scope == "pull-requests" {
          Add(Emulated, "repository-mutation-permission");
        } else {
          Add(Supported, "permission-mapping");
        }
      } else if scope == "actions" {
        p := p.(cacheRead := if access.value == Deny then CacheReadDeny else Run,
                cacheWrite := if access.value == Write then Quarantine else CacheWriteDeny);
        Add(Supported, "permission-mapping");
      } else if scope == "id-token" {
        Add(RequiresGithub, "github-oidc-token");
      } else {
        Add(RequiresGithub, "github-token-scope");
      }
    }

    // -------------------------------------------------------------- run steps

    method ConvertWorkingDirectory(v: Yaml) returns (r: Option<string>)
      modifies this`findings
      ensures Clear() <==> old(Clear()) && DirectoryOk(v, lib)
      ensures r == Directory(Some(v), lib)
    {
      var text := StaticString(v, lib);
      if text.None? {
        DynamicOrUnsupported(v);
        return None;
      }
      var safe := SafeRelativePath(text.value, false);
      if safe {
        Add(Supported, "working-directory");
        r := Some(NormalizeRelative(text.value));
      } else {
        Add(Unsafe, "unsafe-working-directory");
        r := None;
      }
    }

    /** A run step is importable exactly when its script is static text free of what the importer refuses; the script is then verbatim. */
    method ConvertRunStep(v: Yaml, shell: Option<Yaml>, workingDirectory: Option<string>) returns (m: ActionMapping)
      modifies this`findings
      ensures Clear() <==> old(Clear()) && v.Str? && ScriptOk(v.s) && ShellName(shell).Some?
      ensures Clear() ==>
        m == ActionMapping(PlainRun(Script(ShellName(shell).value, v.s, workingDirectory)), map[], None, None, true)
      ensures m.run.PlainRun? && m.env == map[] && m.cache == None && m.capabilities == None
    {
      if !v.Str? {
        DynamicOrUnsupported(v);
        return Noop(false);
      }
      var script := v.s;
      if HasExpression(script) { Add(Unsafe, "expression-shell-injection"); }
      if NUL in script { Add(Unsupported, "nul-value"); }
      if ContainsGithubRuntime(script) { Add(RequiresGithub, "github-runner-command-channel"); }
      if HasPrivilegedOrHostFeature(script) { Add(Unsafe, "privileged-shell-feature"); }
      var name := ShellName(shell);
      if name.None? {
        Add(Unsupported, if shell.value.Str? && HasExpression(shell.value.s) then "dynamic-shell" else "unsupported-shell");
      }
      var mapped := name.Some? && !HasExpression(script) && !ContainsGithubRuntime(script) && NUL !in script;
      if mapped { Add(Supported, "static-run-step"); }
      m := ActionMapping(PlainRun(Script(if name.Some? then name.value else "bash", script, workingDirectory)), map[], None, None, mapped);
    }

    // -------------------------------------------------------------- actions

    /** Locks stem from prepared actions, a container image taken so far is pinned, caches have the importer's values. */
    ghost predicate Sound(e: JobEffects)
      reads this`lockImages, this`lockComponents, e
    {
      && LocksSound(lockImages, lockComponents, options)
      && ImagePinned(e.containerActionImage, lockImages) && PermissionTheory.ImporterCache(e.permissions)
    }

    method UnresolvedActionInputs(inputs: Table, status: Status)
      requires Blocking(status)
      modifies this`findings
      ensures Clear() <==> old(Clear()) && inputs == []
    {
      for i := 0 to |inputs|
        invariant Clear() <==> old(Clear()) && i == 0
      {
        var secret := HasSecretExpression(lib.yamlText(inputs[i].1)) || LooksLikeSecretName(inputs[i].0);
        Add(if secret then Unsafe else status, "unresolved-action-input");
      }
    }

    method MapCheckout(inputs: Table, e: JobEffects) returns (m: ActionMapping)
      requires Sound(e)
      modifies this`findings, e
      ensures Sound(e) && e.State() == old(e.State())
      ensures Extends(old(e.Reach()), e.Reach(), m.capabilities) && Tight(old(e.Reach()), e.Reach(), m.capabilities)
      ensures Clear() <==> old(Clear()) && AllOk(Checkout, inputs, lib)
      ensures m == Noop(true) && e.Reach() == BuiltinReach(Checkout, old(e.Reach()))
    {
      for i := 0 to |inputs|
        modifies this`findings
        invariant Clear() <==> old(Clear()) && AllOk(Checkout, inputs[..i], lib)
      {
        AllOkMore(Checkout, inputs, i, lib);
        var (name, value) := inputs[i];
        if name in CHECKOUT_OPTIONS {
          if StaticString(value, lib).Some? { Add(Emulated, "checkout-option"); } else { DynamicOrUnsupported(value); }
        } else if name in {"token", "ssh-key"} {
          Add(Unsafe, "checkout-credential");
        } else if name in {"repository", "ref", "path", "ssh-user", "ssh-known-hosts", "ssh-strict", "persist-credentials",
                           "sparse-checkout", "github-server-url"} {
          Add(RequiresGithub, "checkout-repository-option");
        } else {
          Add(Unsupported, "unknown-checkout-input");
        }
      }
      assert inputs[..|inputs|] == inputs;
      Raised(e.Reach(), Repository, Read);
      e.permissions := e.permissions.(access := e.permissions.access.(repository := Max(e.permissions.access.repository, Read)));
      Add(Emulated, "native-checkout");
      m := Noop(true);
    }

    method MapSetupBuildx(inputs: Table, e: JobEffects) returns (m: ActionMapping)
      modifies this`findings, e`runnerCapabilities
      ensures Clear() <==> old(Clear()) && AllOk(SetupBuildx, inputs, lib)
      ensures m == Noop(true) && e.runnerCapabilities == old(e.runnerCapabilities) + {"buildkit"}
    {
      for i := 0 to |inputs|
        modifies this`findings
        invariant Clear() <==> old(Clear()) && AllOk(SetupBuildx, inputs[..i], lib)
      {
        AllOkMore(SetupBuildx, inputs, i, lib);
        var (name, value) := inputs[i];
        if name in {"install", "use", "cleanup"} && StaticString(value, lib).Some? {
          Add(Emulated, "buildx-setup-option");
        } else if name in {"driver", "driver-opts", "buildkitd-flags", "buildkitd-config", "endpoint", "platforms", "append",
                           "cache-binary"} {
          Add(if HasPrivilegedOrHostFeature(lib.yamlText(value)) then Unsafe else Unsupported, "buildx-runtime-option");
        } else {
          Add(Unsupported, "unknown-buildx-input");
        }
      }
      assert inputs[..|inputs|] == inputs;
      e.runnerCapabilities := e.runnerCapabilities + {"buildkit"};
      Add(Emulated, "native-buildkit-setup");
      m := Noop(true);
    }

    // ---- caches

    method ConvertCachePaths(text: string) returns (paths: seq<string>)
      modifies this`findings
      ensures Clear() <==> old(Clear()) && AllSafe(Entries(text))
      ensures Clear() ==> paths == NormalizedAll(Entries(text))
    {
      hide Entries, SafeRelative, NormalizeRelative, NormalizedAll;
      var candidates := Entries(text);
      paths := [];
      assert candidates[..0] == [];
      NothingNormalized();
      for i := 0 to |candidates|
        invariant Clear() <==> old(Clear()) && AllSafe(candidates[..i])
        invariant Clear() ==> paths == NormalizedAll(candidates[..i])
      {
        AllSafeMore(candidates, i);
        NormalizedAllMore(candidates, i);
        var safe := SafeRelativePath(candidates[i], true);
        if safe { NoTilde(candidates[i], true); }
        if safe && !StartsWith(candidates[i], "~") {
          paths := paths + [NormalizeRelative(candidates[i])];
        } else {
          Add(Unsafe, "unsafe-cache-path");
        }
      }
      assert candidates[..|candidates|] == candidates;
    }

    method ReadCache(inputs: Table, mode: Mode) returns (paths: seq<string>, hasKey: bool)
      requires Distinct(inputs)
      modifies this`findings
      ensures Clear() <==>
        old(Clear()) && AllOk(CacheAction(mode), inputs, lib) && CachePaths(inputs, lib) != [] && HasCacheKey(inputs, lib)
      ensures Clear() ==> paths == CachePaths(inputs, lib) && hasKey == HasCacheKey(inputs, lib)
    {
      paths, hasKey := [], false;
      NothingCached(mode, lib);
      hide CachePaths, HasCacheKey, AllOk, AllSafe, NormalizedAll, Entries, StaticString, NoBlocking;
      for i := 0 to |inputs|
        invariant Clear() <==> old(Clear()) && AllOk(CacheAction(mode), inputs[..i], lib)
        invariant Clear() ==> paths == CachePaths(inputs[..i], lib) && hasKey == HasCacheKey(inputs[..i], lib)
      {
        AllOkMore(CacheAction(mode), inputs, i, lib);
        CacheMore(inputs, i, lib);
        var (name, value) := inputs[i];
        var text := StaticString(value, lib);
        if name !in {"path", "key", "restore-keys", "fail-on-cache-miss", "lookup-only", "enableCrossOsArchive"} {
          Add(Unsupported, "unknown-cache-input");
        } else if text.None? {
          DynamicOrUnsupported(value);
        } else if name == "path" {
          var more := ConvertCachePaths(text.value);
          paths := paths + more;
        } else {
          if name == "key" { hasKey := text.value != ""; }
          Add(Emulated, "cache-input");
        }
      }
      assert inputs[..|inputs|] == inputs;
      if paths == [] { Add(Unsupported, "missing-cache-path"); }
      if !hasKey { Add(Unsupported, "missing-cache-key"); }
    }

    method MapCache(inputs: Table, e: JobEffects, mode: Mode) returns (m: ActionMapping)
      requires Sound(e) && Distinct(inputs)
      modifies this`findings, e
      ensures Sound(e) && e.State() == old(e.State())
      ensures Extends(old(e.Reach()), e.Reach(), m.capabilities) && Tight(old(e.Reach()), e.Reach(), m.capabilities)
      ensures Clear() <==> old(Clear()) && BuiltinOk(CacheAction(mode), inputs, old(e.State()), lib)
      ensures Clear() ==> m.mapped && CacheKept(mode, inputs, m, lib)
      ensures m.run.PlainRun? && e.Reach() == BuiltinReach(CacheAction(mode), old(e.Reach()))
    {
      var paths, hasKey := ReadCache(inputs, mode);
      e.permissions := e.permissions.(
        cacheRead := MergeCacheRead(e.permissions.cacheRead, ReadOf(mode)),
        cacheWrite := MergeCacheWrite(e.permissions.cacheWrite, WriteOf(mode)));
      Add(Emulated, "native-cache");
      m := ActionMapping(
        PlainRun(Command(["true"])), map[],
        Some(NativeCache(if mode.WriteOnly? then [] else paths, if mode.ReadOnly? then [] else paths)),
        Some(Capabilities(NoNetwork, Some(CachePermissions(ReadOf(mode), WriteOf(mode))), None, [])),
        paths != [] && hasKey);
    }

    // ---- artifacts

    method MapUploadArtifact(inputs: Table, e: JobEffects) returns (m: ActionMapping)
      requires Sound(e) && Distinct(inputs)
      modifies this`findings, e
      ensures Sound(e) && Included(old(e.outputs), e.outputs)
      ensures Extends(old(e.Reach()), e.Reach(), m.capabilities) && Tight(old(e.Reach()), e.Reach(), m.capabilities)
      ensures Clear() <==> old(Clear()) && BuiltinOk(UploadArtifact, inputs, old(e.State()), lib)
      ensures Clear() ==> m.mapped && UploadKept(inputs, m, e.outputs, lib)
      ensures Clear() ==> e.State() == old(e.State()).(outputs :=
        old(e.outputs)[ArtifactName(inputs, lib) := NativeOutput(ArtifactPath(inputs, lib).value, Retention(inputs))])
      ensures m.run.PlainRun? && e.Reach() == BuiltinReach(UploadArtifact, old(e.Reach()))
    {
      hide ArtifactName, ArtifactPath, Retention, AllOk, Extends, Tight;
      var name, path, retention := ReadUpload(inputs);
      DeclareOutput(name, path, retention, e);
      assert e.Reach() == old(e.Reach());
      GrantArtifacts(e);
      Add(Emulated, "native-artifact-output");
      m := ActionMapping(PlainRun(Command(["true"])), map[], None, ARTIFACT_CAPABILITIES, path.Some?);
    }

    method DeclareOutput(name: string, path: Option<string>, retention: string, e: JobEffects)
      modifies this`findings, e`outputs
      ensures Clear() <==> old(Clear()) && name !in old(e.outputs)
      ensures e.outputs ==
        if name in old(e.outputs) || path.None? then old(e.outputs)
        else old(e.outputs)[name := NativeOutput(path.value, retention)]
    {
      if name in e.outputs {
        Add(Unsupported, "duplicate-artifact-name");
      } else if path.Some? {
        e.outputs := e.outputs[name := NativeOutput(path.value, retention)];
      }
    }

    method GrantArtifacts(e: JobEffects)
      modifies e`permissions
      ensures PermissionTheory.ImporterCache(old(e.permissions)) ==> PermissionTheory.ImporterCache(e.permissions)
      ensures Extends(old(e.Reach()), e.Reach(), ARTIFACT_CAPABILITIES)
      ensures Tight(old(e.Reach()), e.Reach(), ARTIFACT_CAPABILITIES)
      ensures e.Reach() == BuiltinReach(UploadArtifact, old(e.Reach()))
    {
      Raised(e.Reach(), Artifacts, Write);
      e.permissions := e.permissions.(access := e.permissions.access.(artifacts := Max(e.permissions.access.artifacts, Write)));
    }

    method ReadUpload(inputs: Table) returns (name: string, path: Option<string>, retention: string)
      requires Distinct(inputs)
      modifies this`findings
      ensures Clear() <==> old(Clear()) && AllOk(UploadArtifact, inputs, lib) && ValidIdentifier(name) && path.Some?
      ensures name == ArtifactName(inputs, lib) && path == ArtifactPath(inputs, lib) && retention == Retention(inputs)
    {
      name, path, retention := "artifact", None, "7d";
      NothingUploaded(lib);
      hide ArtifactName, ArtifactPath, Retention, AllOk, InputOk, StaticString, UploadPath, PositiveU64;
      for i := 0 to |inputs|
        invariant Clear() <==> old(Clear()) && AllOk(UploadArtifact, inputs[..i], lib)
        invariant name == ArtifactName(inputs[..i], lib) && path == ArtifactPath(inputs[..i], lib)
        invariant retention == Retention(inputs[..i])
      {
        AllOkMore(UploadArtifact, inputs, i, lib);
        UploadOk(inputs[i], lib);
        UploadMore(inputs, i, lib);
        name, path, retention := ReadUploadInput(inputs[i].0, inputs[i].1, name, path, retention);
      }
      assert inputs[..|inputs|] == inputs;
      if !ValidIdentifier(name) { Add(Unsupported, "invalid-artifact-name"); }
      if path.None? { Add(Unsupported, "missing-artifact-path"); }
    }

    method ReadUploadInput(input: string, value: Yaml, name0: string, path0: Option<string>, retention0: string)
      returns (name: string, path: Option<string>, retention: string)
      modifies this`findings
      ensures Clear() <==> old(Clear()) && UploadInputOk((input, value), lib)
      ensures name == if input == "name" && StaticString(value, lib).Some? then StaticString(value, lib).value else name0
      ensures path == if input == "path" && UploadPath(value, lib).Some? then UploadPath(value, lib) else path0
      ensures retention ==
        if input == "retention-days" && PositiveU64(value).Some? && PositiveU64(value).value <= 90
        then Decimals(PositiveU64(value).value) + "d" else retention0
    {
      name, path, retention := name0, path0, retention0;
      var text := StaticString(value, lib);
      if input == "retention-days" {
        var days := PositiveU64(value);
        if days.Some? && days.value <= 90 { retention := Decimals(days.value) + "d"; } else { DynamicOrUnsupported(value); }
      } else if input !in {"name", "path", "if-no-files-found", "compression-level", "overwrite", "include-hidden-files"} {
        Add(Unsupported, "unknown-upload-artifact-input");
      } else if text.None? {
        DynamicOrUnsupported(value);
      } else if input == "name" {
        name := text.value;
      } else if input == "path" {
        var safe := SafeRelativePath(text.value, false);
        if |Lines(text.value)| == 1 && safe {
          path := Some(NormalizeRelative(text.value));
        } else {
          Add(Unsupported, "artifact-path-set");
        }
      } else {
        Add(Emulated, "artifact-option");
      }
    }

    method MapDownloadArtifact(inputs: Table) returns (m: ActionMapping)
      modifies this`findings
      ensures !Clear() && m == Noop(false)
    {
      for i := 0 to |inputs| {
        if inputs[i].0 in {"name", "path", "pattern", "merge-multiple", "github-token", "repository", "run-id"} {
          var secret := Contains(inputs[i].0, "token") || HasSecretExpression(lib.yamlText(inputs[i].1));
          Add(if secret then Unsafe else RequiresGithub, "download-artifact-input");
        } else {
          Add(Unsupported, "unknown-download-artifact-input");
        }
      }
      Add(RequiresGithub, "github-artifact-download");
      m := Noop(false);
    }

    // ---- image builds

    method ConvertBuildArguments(text: string) returns (extra: seq<string>)
      modifies this`findings
      ensures Clear() <==> old(Clear()) && AllBuildArgumentsOk(Entries(text))
      ensures extra == BuildArguments(Entries(text))
    {
      var arguments := Entries(text);
      extra := [];
      for i := 0 to |arguments|
        invariant Clear() <==> old(Clear()) && AllBuildArgumentsOk(arguments[..i])
        invariant extra == BuildArguments(arguments[..i])
      {
        BuildArgumentsMore(arguments, i);
        if BuildArgumentOk(arguments[i]) {
          extra := extra + ["--opt", "build-arg:" + arguments[i]];
        } else {
          Add(Unsafe, "secret-or-dynamic-build-arg");
        }
      }
      assert arguments[..|arguments|] == arguments;
    }

    /** One input that changes neither the context nor the Dockerfile. */
    method ConvertBuildOption(name: string, value: Yaml) returns (extra: seq<string>)
      requires name != "context" && name != "file"
      modifies this`findings
      ensures Clear() <==> old(Clear()) && BuildInputOk((name, value), lib)
      ensures extra == Extra((name, value), lib)
    {
      extra := [];
      var text, flag := StaticString(value, lib), StaticBool(value);
      if name == "push" || name == "load" {
        if flag.None? {
          DynamicOrUnsupported(value);
        } else if flag.value {
          Add(if name == "push" then RequiresGithub else Unsupported, "docker-" + name);
        }
      } else if name == "network" {
        if text == Some("none") { extra := ["--opt", "network=none"]; } else { Add(Unsafe, "docker-build-network"); }
      } else if name in {"no-cache", "pull"} {
        if flag.None? {
          DynamicOrUnsupported(value);
        } else if name == "pull" {
          Add(Emulated, "build-pull-policy");
        } else if flag.value {
          extra := ["--no-cache"];
        }
      } else if name in {"platforms", "target", "build-args", "tags", "labels", "annotations", "provenance", "sbom"} {
        if text.None? {
          DynamicOrUnsupported(value);
        } else if name == "platforms" {
          extra := ["--opt", "platform=" + CommaSeparated(text.value)];
        } else if name == "target" {
          extra := ["--opt", "target=" + text.value];
        } else if name == "build-args" {
          extra := ConvertBuildArguments(text.value);
        } else {
          Add(Emulated, "build-metadata");
        }
      } else if name in {"secrets", "secret-files", "ssh", "github-token"} {
        Add(Unsafe, "docker-build-secret");
      } else {
        Add(Unsupported, "docker-build-input");
      }
    }

    method ConvertBuildPath(name: string, value: Yaml, context: string, file: string) returns (newContext: string, newFile: string)
      requires name == "context" || name == "file"
      modifies this`findings
      ensures Clear() <==> old(Clear()) && BuildInputOk((name, value), lib)
      ensures newContext == NextContext((name, value), context, lib) && newFile == NextFile((name, value), file, lib)
      ensures Extra((name, value), lib) == []
    {
      newContext, newFile := context, file;
      var text := StaticString(value, lib);
      if text.None? {
        DynamicOrUnsupported(value);
        return;
      }
      var safe := SafeRelativePath(text.value, false);
      if name == "context" && (text.value == "." || safe) {
        newContext := text.value;
      } else if name == "file" && safe {
        newFile := NormalizeRelative(text.value);
      } else {
        Add(Unsafe, "unsafe-build-path");
      }
    }

    method MapDockerBuild(inputs: Table, e: JobEffects) returns (m: ActionMapping)
      requires Distinct(inputs)
      modifies this`findings, e`runnerCapabilities
      ensures Clear() <==> old(Clear()) && AllOk(BuildPush, inputs, lib)
      ensures m.mapped && BuildKept(inputs, m, lib)
      ensures e.runnerCapabilities == old(e.runnerCapabilities) + {"buildkit"}
    {
      hide BuildInputOk, Extra;
      var context, file, extra: seq<string> := ".", "Dockerfile", [];
      for i := 0 to |inputs|
        modifies this`findings
        invariant Clear() <==> old(Clear()) && AllOk(BuildPush, inputs[..i], lib)
        invariant context == BuildContext(inputs[..i], lib) && file == BuildFile(inputs[..i], lib)
        invariant extra == Extras(inputs[..i], lib)
      {
        AllOkMore(BuildPush, inputs, i, lib);
        BuildMore(inputs, i, lib);
        var (name, value) := inputs[i];
        if name == "context" || name == "file" {
          context, file := ConvertBuildPath(name, value, context, file);
        } else {
          var more := ConvertBuildOption(name, value);
          extra := extra + more;
        }
      }
      assert inputs[..|inputs|] == inputs;
      e.runnerCapabilities := e.runnerCapabilities + {"buildkit"};
      Add(Emulated, "native-buildkit-build");
      m := ActionMapping(PlainRun(Command(BuildCommand(context, file, extra))), map[], None, None, true);
    }

    // ---- prepared actions

    /** Stops at the first required input that is missing. */
    method MissingRequired(declared: Declared, t: Table) returns (missing: bool)
      modifies this`findings
      ensures missing <==> Missing(declared, t)
      ensures Clear() <==> old(Clear()) && !missing
    {
      for i := 0 to |declared|
        invariant Clear() <==> old(Clear())
        invariant forall k :: 0 <= k < i ==> !IsMissing(declared[k], t)
      {
        if IsMissing(declared[i], t) {
          Add(Unsupported, "missing-required-action-input");
          return true;
        }
      }
      missing := false;
    }

    method PassComponentInputs(t: Table) returns (native: map<string, Scalar>)
      modifies this`findings
      ensures Clear() <==> old(Clear()) && ComponentInputsOk(t, lib)
      ensures native == LowerNamed(t, lib)
    {
      native := map[];
      for i := 0 to |t|
        invariant Clear() <==> old(Clear()) && ComponentInputsOk(t[..i], lib)
        invariant native == LowerNamed(t[..i], lib)
      {
        ComponentInputsOkMore(t, i, lib);
        assert t[..i + 1][..i] == t[..i] && t[..i + 1][i] == t[i];
        if IsToken(t[i], lib) { continue; }
        if SecretLike(t[i], lib) {
          Add(Unsafe, "raw-component-secret");
          continue;
        }
        var value := ConvertScalar(t[i].1);
        if value.Some? { native := native[ToAsciiLower(t[i].0) := value.value]; }
      }
      assert t[..|t|] == t;
    }

    method MapPreparedComponent(reference: string, action: ResolvedAction, inputs: Table, e: JobEffects) returns (m: ActionMapping)
      requires Sound(e) && action.program.ComponentProgram?
      requires reference in options.actions && options.actions[reference] == action
      modifies this`findings, this`lockComponents, e
      ensures Sound(e) && old(lockComponents) <= lockComponents
      ensures Extends(old(e.Reach()), e.Reach(), m.capabilities) && Tight(old(e.Reach()), e.Reach(), m.capabilities)
      ensures Clear() <==> old(Clear()) && Usable(action.program) && ComponentOk(action, inputs, lib)
      ensures Clear() ==> m.mapped && ComponentKept(action, inputs, m, lib)
      ensures Clear() ==> e.State() == old(e.State()).(wasm := true)
      ensures Clear() ==> e.Reach() == ComponentReach(old(e.Reach()), action.program.apiUrl)
      ensures Clear() ==> Locked() == Plus(old(Locked()), ComponentEntry(action.program))
      ensures e.outputs == old(e.outputs)
      ensures m.run.ComponentRun? ==> ComponentPinned(m.run.reference, lockComponents)
    {
      hide IsExactWasmComponent, HttpsEndpoint, LowerNamed, Effective, ComponentInputsOk, Missing, Usable, NoBlocking, Extends, Tight,
        ComponentReach, ComponentCapabilities, LocksSound, ImagePinned, PermissionTheory.ImporterCache, Plus, ComponentEntry, ComponentPinned;
      var native := ReadComponent(action, inputs);
      if native.None? {
        NothingGranted(e.Reach());
        return Noop(false);
      }
      ComponentGrants(e.Reach(), action.program.apiUrl);
      GrantComponent(action.program.apiUrl, e);
      LockComponent(reference, action.program);
      Add(Emulated, "pinned-repository-wasm-component");
      m := ActionMapping(
        ComponentRun(action.program.reference, native.value), map[], None, ComponentCapabilities(action.program.apiUrl), true);
    }

    /** The checks of a component action, and its native inputs when it is to be run. */
    method ReadComponent(action: ResolvedAction, inputs: Table) returns (native: Option<map<string, Scalar>>)
      requires action.program.ComponentProgram?
      modifies this`findings
      ensures native.Some? ==> Usable(action.program) && native.value == LowerNamed(Effective(action.inputs, inputs), lib)
      ensures Clear() <==> old(Clear()) && Usable(action.program) && ComponentOk(action, inputs, lib)
      ensures Clear() ==> native.Some?
    {
      if !IsExactWasmComponent(action.program.reference) {
        UnresolvedActionInputs(inputs, Unsafe);
        Add(Unsafe, "mutable-repository-component-resolution");
        return None;
      }
      if HttpsEndpoint(action.program.apiUrl).None? {
        UnresolvedActionInputs(inputs, Unsafe);
        Add(Unsafe, "invalid-component-scm-endpoint");
        return None;
      }
      var effective := Effective(action.inputs, inputs);
      var passed := PassComponentInputs(effective);
      var missing := MissingRequired(action.inputs, effective);
      native := if missing then None else Some(passed);
    }

    method GrantComponent(apiUrl: string, e: JobEffects)
      requires HttpsEndpoint(apiUrl).Some?
      modifies e`wasmComponent, e`permissions, e`networkDestinations, e`allowPrivateNetwork
      ensures e.wasmComponent && (PermissionTheory.ImporterCache(old(e.permissions)) ==> PermissionTheory.ImporterCache(e.permissions))
      ensures e.Reach() == ComponentReach(old(e.Reach()), apiUrl)
    {
      e.wasmComponent := true;
      e.permissions := e.permissions.(secrets := e.permissions.secrets[SCM_TOKEN := "provider-api"]);
      e.networkDestinations := e.networkDestinations + {HttpsEndpoint(apiUrl).value};
      e.allowPrivateNetwork := e.allowPrivateNetwork || apiUrl != PUBLIC_API;
      RequestedMore(old(e.permissions.secrets), [], SCM_REQUEST);
      assert [] + [SCM_REQUEST] == [SCM_REQUEST];
    }

    /** The digest of an exact component is there to be locked. */
    method LockComponent(reference: string, program: Program)
      requires program.ComponentProgram? && IsExactWasmComponent(program.reference)
      requires reference in options.actions && options.actions[reference].program == program
      requires LocksSound(lockImages, lockComponents, options)
      modifies this`lockComponents
      ensures old(lockComponents) <= lockComponents && LocksSound(lockImages, lockComponents, options)
      ensures Locked() == Plus(old(Locked()), ComponentEntry(program))
      ensures ComponentPinned(program.reference, lockComponents)
    {
      ComponentDigest(program.reference);
      var digest := RSplitOnce(program.reference, "@").value.1;
      var lock := ComponentLock(program.reference, digest, program.signatureIdentity, program.wit);
      assert program == ComponentProgram(program.reference, program.apiUrl, lock.signatureIdentity, lock.wit);
      assert ComponentLockSound(lock, options);
      lockComponents := lockComponents + {lock};
      assert lock in lockComponents;
    }

    /** One input becomes a variable, the token's file, or nothing when it looks like a secret. */
    method PassContainerInput(input: (string, Yaml), base: map<string, Scalar>, known: map<string, string>)
      returns (env: map<string, Scalar>, text: map<string, string>)
      modifies this`findings
      ensures env == WithInput(input, base, lib)
      ensures text == if Convertible(input, lib)
                      then known[ToAsciiLower(input.0) := ScalarText(ScalarOf(input.1).value)] else known
      ensures Clear() <==>
        old(Clear()) && (Passed(input, lib) ==> ScalarOf(input.1).Some? && InputName(input.0, lib) !in base)
    {
      env, text := base, known;
      if IsToken(input, lib) {
        env := env[TOKEN_FILE := TOKEN_PATH];
        Add(Emulated, "scoped-github-token");
      } else if !SecretLike(input, lib) {
        var value := ConvertScalar(input.1);
        if value.Some? {
          text := text[ToAsciiLower(input.0) := ScalarText(value.value)];
          if InputName(input.0, lib) in env { Add(Unsupported, "container-action-input-collision"); }
          env := env[InputName(input.0, lib) := value.value];
        }
      }
    }

    /** The inputs are accepted exactly under `InputsOk`; then each has its variable, and nothing else has. */
    method PassContainerInputs(t: Table, base: map<string, Scalar>)
      returns (env: map<string, Scalar>, text: map<string, string>, token: bool)
      requires NoInputNames(base)
      modifies this`findings
      ensures token <==> HasToken(t, lib)
      ensures Clear() <==> old(Clear()) && InputsOk(t, lib)
      ensures Clear() ==> EnvCarries(t, base, env, lib)
      ensures text == ScalarTexts(LowerNamed(t, lib))
    {
      env, text, token := base, map[], false;
      for i := 0 to |t|
        invariant token <==> HasToken(t[..i], lib)
        invariant Clear() <==> old(Clear()) && InputsOk(t[..i], lib)
        invariant Clear() ==> EnvCarries(t[..i], base, env, lib)
        invariant text == ScalarTexts(LowerNamed(t[..i], lib))
      {
        ghost var before, clear := env, Clear();
        HasTokenMore(t, i, lib);
        ScalarTextsMore(t, i, lib);
        InputsOkMore(t, i, lib);
        if clear && Passed(t[i], lib) { TakenName(t, i, base, env, lib); }
        token := token || IsToken(t[i], lib);
        env, text := PassContainerInput(t[i], env, text);
        hide IsToken, SecretLike, ScalarOf, InputName, InputsOk, EnvCarries, LowerNamed, WithInput, HasToken;
        if Clear() { EnvCarriesMore(t, i, base, before, lib); }
      }
      assert t[..|t|] == t;
    }

    /** The action's secrets are added to the job's, and their files to the variables. */
    method RequestSecrets(secrets: seq<ActionSecret>, base: map<string, Scalar>, e: JobEffects)
      returns (env: map<string, Scalar>, asked: seq<SecretRequest>)
      modifies e`permissions
      ensures e.permissions == old(e.permissions).(secrets := Requested(old(e.permissions.secrets), asked))
      ensures asked == Requests(secrets) && env == WithSecrets(base, secrets)
    {
      env, asked := base, [];
      for i := 0 to |secrets|
        invariant e.permissions == old(e.permissions).(secrets := Requested(old(e.permissions.secrets), asked))
        invariant asked == Requests(secrets[..i])
        invariant env == WithSecrets(base, secrets[..i])
      {
        RequestsMore(secrets, i);
        RequestedMore(old(e.permissions.secrets), asked, RequestOf(secrets[i]));
        e.permissions := e.permissions.(secrets := e.permissions.secrets[secrets[i].name := secrets[i].purpose]);
        env := env[secrets[i].fileEnv := FileOf(secrets[i])];
        asked := asked + [RequestOf(secrets[i])];
      }
      assert secrets[..|secrets|] == secrets;
    }

    /** What a container action asks for is added to the job's permissions. */
    method RequestCapabilities(action: Option<ResolvedAction>, token: bool, base: map<string, Scalar>, e: JobEffects)
      returns (env: map<string, Scalar>, capabilities: Option<Capabilities>)
      modifies e`permissions, e`networkDestinations
      ensures PermissionTheory.ImporterCache(old(e.permissions)) ==> PermissionTheory.ImporterCache(e.permissions)
      ensures e.Reach() == ContainerReach(old(e.Reach()), action, token)
      ensures env == WithSecrets(base, ActionSecrets(action))
      ensures capabilities == ContainerCapabilities(action, token)
    {
      e.networkDestinations := e.networkDestinations + SetOf(ActionDestinations(action));
      var asked;
      env, asked := RequestSecrets(ActionSecrets(action), base, e);
      if token {
        RequestedMore(old(e.permissions.secrets), asked, SCM_REQUEST);
        e.permissions := e.permissions.(secrets := e.permissions.secrets[SCM_TOKEN := "provider-api"]);
        asked := asked + [SCM_REQUEST];
      }
      assert asked == AskedSecrets(action, token);
      capabilities := ContainerCapabilities(action, token);
    }

    method MapPreparedContainer(source: string, image: string, action: Option<ResolvedAction>, inputs: Table, e: JobEffects)
      returns (m: ActionMapping)
      requires Sound(e) && IsFullSha256Image(image) && (action.None? ==> source == image)
      requires action.Some? ==> source in options.actions && options.actions[source] == action.value
      requires action.Some? ==> action.value.program.ContainerProgram? && action.value.program.image == image
      modifies this`findings, this`lockImages, e
      ensures Sound(e) && old(lockImages) <= lockImages
      ensures Extends(old(e.Reach()), e.Reach(), m.capabilities)
      ensures Clear() ==> Tight(old(e.Reach()), e.Reach(), m.capabilities)
      ensures Clear() <==> old(Clear()) && ContainerOk(source, old(e.containerActionImage), action, inputs, lib)
      ensures Clear() ==> m.mapped && ContainerKept(action, inputs, m, lib)
      ensures Clear() ==> e.State() == old(e.State()).(image := Some(source))
      ensures Clear() ==> e.Reach() == ContainerReach(old(e.Reach()), action, HasToken(ActionInputs(action, inputs), lib))
      ensures Clear() ==> Locked() == Plus(old(Locked()), ImageEntry(source, image))
      ensures e.outputs == old(e.outputs) && m.run.PlainRun?
    {
      hide InputsOk, EnvCarries, Missing, LowerNamed, HasToken, ContainerKept, ContainerCapabilities, WithSecrets, NoBlocking, Tight,
        Effective, ContainerReach, Rendered, LocksSound, ImagePinned, PermissionTheory.ImporterCache, RUNTIME_ENV, Plus, IsFullSha256Image;
      var effective := ActionInputs(action, inputs);
      var accepted := AcceptContainer(source, action, effective, e.containerActionImage);
      if !accepted {
        NothingGranted(e.Reach());
        return Noop(false);
      }
      RuntimeNames();
      var base: map<string, Scalar> := if action.Some? then RUNTIME_ENV else map[];
      var env, text, token := PassContainerInputs(effective, base);
      ghost var carried := env;
      var capabilities;
      env, capabilities := TakeContainer(source, image, action, token, env, e);
      Add(Emulated, if action.Some? then "pinned-repository-docker-action" else "pinned-container-action");
      m := RunContainer(action, effective, text, env, capabilities);
      if Clear() { KeptContainer(action, inputs, carried, m, lib); }
    }

    method RunContainer(
      action: Option<ResolvedAction>, effective: Table, text: map<string, string>, env: map<string, Scalar>,
      capabilities: Option<Capabilities>) returns (m: ActionMapping)
      requires text == ScalarTexts(LowerNamed(effective, lib))
      modifies this`findings
      ensures Clear() <==> old(Clear()) && (Arguments(action).Some? ==> Rendered(action, effective, lib).Some?)
      ensures m == Noop(false) || m.capabilities == capabilities
      ensures Clear() ==> m == ActionMapping(
        PlainRun(Container(Entrypoint(action), Rendered(action, effective, lib))), env, None, capabilities, true)
      ensures m.run.PlainRun?
    {
      var arguments: Option<seq<string>> := None;
      if Arguments(action).Some? { arguments := RenderArguments(Arguments(action).value, text); }
      if Arguments(action).Some? && arguments.None? {
        Add(Unsupported, "unsupported-action-argument-expression");
        m := Noop(false);
      } else {
        m := ActionMapping(PlainRun(Container(Entrypoint(action), arguments)), env, None, capabilities, true);
      }
    }

    /** The arguments are rendered in turn, up to the first that cannot be. */
    method RenderArguments(arguments: seq<string>, text: map<string, string>) returns (r: Option<seq<string>>)
      ensures r == RenderedAll(arguments, text)
    {
      hide Render;
      var rendered: seq<string> := [];
      RenderedAllExact(arguments, text);
      assert arguments[..0] == [];
      for i := 0 to |arguments|
        invariant RenderedAll(arguments[..i], text) == Some(rendered)
      {
        assert arguments[..i + 1][..i] == arguments[..i];
        var next := RenderArgument(arguments[i], text);
        if next.None? { return None; }
        rendered := rendered + [next.value];
      }
      assert arguments[..|arguments|] == arguments;
      r := Some(rendered);
    }

    method RenderArgument(argument: string, text: map<string, string>) returns (r: Option<string>)
      ensures r == Render(argument, text)
    {
      r := Templates.RenderActionArgument(argument, text);
    }

    /** A job runs one container image, and required inputs are there. */
    method AcceptContainer(source: string, action: Option<ResolvedAction>, effective: Table, current: Option<string>) returns (accepted: bool)
      modifies this`findings
      ensures Clear() <==> old(Clear()) && accepted
      ensures accepted <==> (current.None? || current.value == source) && (action.Some? ==> !Missing(action.value.inputs, effective))
    {
      if current.Some? && current.value != source {
        Add(Unsupported, "multiple-container-action-images");
        return false;
      }
      accepted := true;
      if action.Some? {
        var missing := MissingRequired(action.value.inputs, effective);
        accepted := !missing;
      }
    }

    /** The job takes the container's image, with its lock entry when it has one, and grants what the action asks for. */
    method TakeContainer(
      source: string, image: string, action: Option<ResolvedAction>, token: bool, base: map<string, Scalar>, e: JobEffects)
      returns (env: map<string, Scalar>, capabilities: Option<Capabilities>)
      requires Sound(e) && IsFullSha256Image(image)
      requires source != image ==> ImageLockSound(ImageLock(source, image), options)
      modifies this`lockImages, e`permissions, e`networkDestinations, e`containerActionImage
      ensures Sound(e) && old(lockImages) <= lockImages && e.containerActionImage == Some(source)
      ensures Locked() == Plus(old(Locked()), ImageEntry(source, image))
      ensures Extends(old(e.Reach()), e.Reach(), capabilities) && Tight(old(e.Reach()), e.Reach(), capabilities)
      ensures e.Reach() == ContainerReach(old(e.Reach()), action, token)
      ensures env == WithSecrets(base, ActionSecrets(action)) && capabilities == ContainerCapabilities(action, token)
    {
      e.containerActionImage := Some(source);
      assert e.Reach() == old(e.Reach());
      ContainerGrants(e.Reach(), action, token);
      env, capabilities := RequestCapabilities(action, token, base, e);
      PlusNothing(Locked());
      if source != image { LockImage(source, image); }
    }

    method LockImage(source: string, image: string)
      requires ImageLockSound(ImageLock(source, image), options) && LocksSound(lockImages, lockComponents, options)
      modifies this`lockImages
      ensures old(lockImages) <= lockImages && LocksSound(lockImages, lockComponents, options)
      ensures Pinned(source, lockImages) && Locked() == Plus(old(Locked()), LockSet({ImageLock(source, image)}, {}))
    {
      lockImages := lockImages + {ImageLock(source, image)};
      assert ImageLock(source, image) in lockImages;
    }

    // ---- references

    method RawSecretInputs(inputs: Table)
      modifies this`findings
      ensures Clear() <==> old(Clear()) && NoRawSecrets(inputs, lib)
    {
      hide HasSecretExpression, IsToken;
      for i := 0 to |inputs|
        invariant Clear() <==> old(Clear()) && NoRawSecrets(inputs[..i], lib)
      {
        NoRawSecretsMore(inputs, i, lib);
        if HasSecretExpression(lib.yamlText(inputs[i].1)) && !IsToken(inputs[i], lib) {
          Add(Unsafe, "raw-github-secret");
        }
      }
      assert inputs[..|inputs|] == inputs;
    }

    method MapBuiltin(b: Builtin, inputs: Table, e: JobEffects) returns (m: ActionMapping)
      requires Sound(e) && Distinct(inputs)
      modifies this`findings, e
      ensures Sound(e) && Included(old(e.outputs), e.outputs)
      ensures Extends(old(e.Reach()), e.Reach(), m.capabilities) && Tight(old(e.Reach()), e.Reach(), m.capabilities)
      ensures Clear() <==> old(Clear()) && BuiltinOk(b, inputs, old(e.State()), lib)
      ensures Clear() ==> m.mapped && BuiltinKept(b, inputs, m, e.outputs, lib)
      ensures Clear() ==> e.State() == AfterTarget(BuiltIn(b), "", inputs, old(e.State()), lib)
      ensures m.run.PlainRun? && e.Reach() == BuiltinReach(b, old(e.Reach()))
    {
      hide Extends, Tight, CacheKept, UploadKept, BuildCommand, AllOk, CachePaths, HasCacheKey, ArtifactName, ArtifactPath, Retention,
        ValidIdentifier, LocksSound, ImagePinned, PermissionTheory.ImporterCache, NoBlocking;
      match b
      case Checkout => m := MapCheckout(inputs, e);
      case CacheAction(mode) => m := MapCache(inputs, e, mode);
      case UploadArtifact => m := MapUploadArtifact(inputs, e);
      case DownloadArtifact =>
        m := MapDownloadArtifact(inputs);
        NothingGranted(e.Reach());
      case BuildPush =>
        m := MapDockerBuild(inputs, e);
        NothingGranted(e.Reach());
      case SetupBuildx =>
        m := MapSetupBuildx(inputs, e);
        NothingGranted(e.Reach());
    }

    /** A `docker://` reference: the image itself, when it is pinned. */
    method MapContainerAction(reference: string, inputs: Table, e: JobEffects) returns (m: ActionMapping)
      requires Sound(e)
      modifies this`findings, this`lockImages, e
      ensures Sound(e) && old(lockImages) <= lockImages && e.outputs == old(e.outputs) && m.run.PlainRun?
      ensures Extends(old(e.Reach()), e.Reach(), m.capabilities)
      ensures Clear() ==> Tight(old(e.Reach()), e.Reach(), m.capabilities)
      ensures var image := TrimStartMatches(reference, "docker://");
        && (Clear() <==> old(Clear()) && IsFullSha256Image(image) && TargetOk(Direct(image), reference, inputs, old(e.State()), lib))
        && (Clear() ==> m.mapped && ContainerKept(None, inputs, m, lib)
                        && e.State() == AfterTarget(Direct(image), reference, inputs, old(e.State()), lib)
                        && e.Reach() == TargetReach(Direct(image), inputs, old(e.Reach()), lib))
      ensures Clear() ==> Locked() == old(Locked())
    {
      var image := TrimStartMatches(reference, "docker://");
      if !IsFullSha256Image(image) {
        UnresolvedActionInputs(inputs, Unsafe);
        Add(Unsafe, "mutable-container-action-image");
        NothingGranted(e.Reach());
        return Noop(false);
      }
      PlusNothing(Locked());
      m := MapPreparedContainer(image, image, None, inputs, e);
    }

    method MapResolvedRepositoryAction(reference: string, action: ResolvedAction, inputs: Table, e: JobEffects) returns (m: ActionMapping)
      requires Sound(e) && reference in options.actions && options.actions[reference] == action
      modifies this`findings, this`lockImages, this`lockComponents, e
      ensures Sound(e) && old(lockImages) <= lockImages && old(lockComponents) <= lockComponents && e.outputs == old(e.outputs)
      ensures Extends(old(e.Reach()), e.Reach(), m.capabilities)
      ensures Clear() ==> Tight(old(e.Reach()), e.Reach(), m.capabilities)
      ensures Clear() <==> old(Clear()) && Usable(action.program) && TargetOk(Prepared(action), reference, inputs, old(e.State()), lib)
      ensures Clear() ==> m.mapped && TargetKept(Prepared(action), inputs, m, e.outputs, lib)
      ensures Clear() ==> e.State() == AfterTarget(Prepared(action), reference, inputs, old(e.State()), lib)
      ensures Clear() ==> e.Reach() == TargetReach(Prepared(action), inputs, old(e.Reach()), lib)
      ensures Clear() ==> Locked() == Plus(old(Locked()), ProgramLocks(reference, action.program))
      ensures m.run.ComponentRun? ==> ComponentPinned(m.run.reference, lockComponents)
    {
      if action.program.ComponentProgram? {
        m := MapPreparedComponent(reference, action, inputs, e);
      } else if !IsFullSha256Image(action.program.image) {
        UnresolvedActionInputs(inputs, Unsafe);
        Add(Unsafe, "mutable-repository-action-resolution");
        NothingGranted(e.Reach());
        m := Noop(false);
      } else {
        m := MapPreparedContainer(reference, action.program.image, Some(action), inputs, e);
      }
    }

    method Refuse(inputs: Table, status: Status, code: string, e: JobEffects) returns (m: ActionMapping)
      requires Blocking(status)
      modifies this`findings
      ensures !Clear() && m == Noop(false) && Extends(e.Reach(), e.Reach(), m.capabilities)
    {
      UnresolvedActionInputs(inputs, status);
      Add(status, code);
      NothingGranted(e.Reach());
      m := Noop(false);
    }

    /** An action step is imported exactly under `ActionOk`; what it asks for is then kept, pinned and granted, and nothing else is. */
    method ConvertActionStep(uses: Yaml, inputs: Table, e: JobEffects) returns (m: ActionMapping)
      requires Sound(e) && Distinct(inputs)
      modifies this`findings, this`lockImages, this`lockComponents, e
      ensures Sound(e) && old(lockImages) <= lockImages && old(lockComponents) <= lockComponents
      ensures Included(old(e.outputs), e.outputs)
      ensures Extends(old(e.Reach()), e.Reach(), m.capabilities)
      ensures Clear() ==> Tight(old(e.Reach()), e.Reach(), m.capabilities)
      ensures Clear() <==> old(Clear()) && ActionOk(uses, inputs, old(e.State()), options, lib)
      ensures Clear() ==> m.mapped && ActionKept(uses, inputs, m, e.outputs, options, lib)
      ensures Clear() ==> e.State() == AfterAction(uses, inputs, old(e.State()), options, lib)
      ensures Clear() ==> e.Reach() == UsesReach(uses, inputs, old(e.Reach()), options, lib)
      ensures Clear() ==> Locked() == Plus(old(Locked()), UsesLocks(uses, options, lib))
      ensures m.run.ComponentRun? ==> ComponentPinned(m.run.reference, lockComponents)
    {
      RawSecretInputs(inputs);
      var reference := StaticString(uses, lib);
      if reference.None? {
        DynamicOrUnsupported(uses);
        NothingGranted(e.Reach());
        return Noop(false);
      }
      m := ConvertReference(reference.value, inputs, e);
    }

    method ConvertReference(reference: string, inputs: Table, e: JobEffects) returns (m: ActionMapping)
      requires Sound(e) && Distinct(inputs)
      modifies this`findings, this`lockImages, this`lockComponents, e
      ensures Sound(e) && old(lockImages) <= lockImages && old(lockComponents) <= lockComponents
      ensures Included(old(e.outputs), e.outputs)
      ensures Extends(old(e.Reach()), e.Reach(), m.capabilities)
      ensures Clear() ==> Tight(old(e.Reach()), e.Reach(), m.capabilities)
      ensures Clear() <==> old(Clear()) && TargetOk(TargetOf(reference, options), reference, inputs, old(e.State()), lib)
      ensures Clear() ==> m.mapped && TargetKept(TargetOf(reference, options), inputs, m, e.outputs, lib)
      ensures Clear() ==> e.State() == AfterTarget(TargetOf(reference, options), reference, inputs, old(e.State()), lib)
      ensures Clear() ==> e.Reach() == TargetReach(TargetOf(reference, options), inputs, old(e.Reach()), lib)
      ensures Clear() ==> Locked() == Plus(old(Locked()), TargetLocks(TargetOf(reference, options), reference))
      ensures m.run.ComponentRun? ==> ComponentPinned(m.run.reference, lockComponents)
    {
      hide NoBlocking, Extends, Tight, LocksSound, ImagePinned, PermissionTheory.ImporterCache, Plus, ProgramLocks, AllOk, BuiltinKept,
        ContainerOk, ContainerKept, ComponentOk, ComponentPinned, IsFullSha256Image, IsFullGitCommit, IsCanonicalRepositoryAction, Usable;
      var parts := RSplitOnce(reference, "@");
      if parts.None? || parts.value.0 == "" || parts.value.1 == "" {
        Add(Unsupported, if parts.None? then "action-without-selector" else "invalid-action-reference");
        NothingGranted(e.Reach());
        return Noop(false);
      }
      PlusNothing(Locked());
      var (action, selector) := parts.value;
      var builtin := BuiltinOf(ToAsciiLower(action));
      if builtin.Some? {
        m := MapBuiltin(builtin.value, inputs, e);
      } else if StartsWith(action, "./") {
        m := Refuse(inputs, Unsupported, "local-github-action", e);
      } else if StartsWith(action, "docker://") {
        m := MapContainerAction(reference, inputs, e);
      } else if !IsFullGitCommit(selector) {
        m := Refuse(inputs, Unsafe, "mutable-third-party-action", e);
      } else if !IsCanonicalRepositoryAction(action) {
        m := Refuse(inputs, Unsupported, "unsupported-repository-action-reference", e);
      } else if reference in options.actions {
        m := MapResolvedRepositoryAction(reference, options.actions[reference], inputs, e);
      } else {
        m := Refuse(inputs, RequiresGithub, "unresolved-pinned-action", e);
      }
    }

    // -------------------------------------------------------------- steps

    method ConvertContinueOnError(v: Option<Yaml>) returns (flag: bool)
      modifies this`findings
      ensures Clear() <==> old(Clear()) && (v.Some? ==> v.value.Bool?)
      ensures flag == (v == Some(Bool(true)))
    {
      flag := false;
      if v.Some? {
        if v.value.Bool? {
          Add(Supported, "continue-on-error");
          flag := v.value.b;
        } else {
          DynamicOrUnsupported(v.value);
        }
      }
    }

    method ConvertStepHead(step: Step)
      returns (id: Option<string>, name: Option<string>, env: map<string, Scalar>, continueOnError: bool, directory: Option<string>)
      requires Distinct(step.env)
      modifies this`findings
      ensures Clear() <==> old(Clear()) && HeadOk(step, lib)
      ensures Clear() ==> id == step.id && name == step.name && EnvKept(step.env, env)
      ensures continueOnError == (step.continueOnError == Some(Bool(true)))
      ensures directory == Directory(step.workingDirectory, lib)
    {
      UnsupportedExtras(step.extra);
      name := ConvertDisplayName(step.name);
      id := step.id;
      if step.id.Some? && !ValidIdentifier(step.id.value) {
        Add(Unsupported, "invalid-step-id");
        id := None;
      }
      env := ConvertEnv(step.env);
      continueOnError := ConvertContinueOnError(step.continueOnError);
      directory := None;
      if step.workingDirectory.Some? { directory := ConvertWorkingDirectory(step.workingDirectory.value); }
    }

    method ConvertStepRun(step: Step, directory: Option<string>) returns (m: ActionMapping)
      requires step.run.Some? && step.uses.None? && directory == Directory(step.workingDirectory, lib)
      modifies this`findings
      ensures Clear() <==> old(Clear()) && RunOk(step)
      ensures Clear() ==> ScriptKept(step, m, lib)
      ensures m.run.PlainRun? && m.env == map[] && m.cache == None && m.capabilities == None
    {
      for i := 0 to |step.inputs|
        invariant Clear() <==> old(Clear()) && i == 0
      {
        Add(Unsupported, "run-with-input");
      }
      m := ConvertRunStep(step.run.value, step.shell, directory);
    }

    /** What the step runs: exactly one of a script and an action. */
    method MapStep(step: Step, directory: Option<string>, e: JobEffects) returns (m: ActionMapping)
      requires Sound(e) && Distinct(step.inputs) && directory == Directory(step.workingDirectory, lib)
      modifies this`findings, this`lockImages, this`lockComponents, e
      ensures Sound(e) && old(lockImages) <= lockImages && old(lockComponents) <= lockComponents
      ensures Included(old(e.outputs), e.outputs)
      ensures Extends(old(e.Reach()), e.Reach(), m.capabilities)
      ensures Clear() ==> Tight(old(e.Reach()), e.Reach(), m.capabilities)
      ensures Clear() <==> old(Clear()) && (RunOk(step) || UsesOk(step, old(e.State()), options, lib))
      ensures Clear() ==> m.mapped && MappingKept(step, m, e.outputs, options, lib)
      ensures Clear() ==> e.State() == StateAfter(step, old(e.State()), options, lib)
      ensures Clear() ==> e.Reach() == StepReach(step, old(e.Reach()), options, lib)
      ensures Clear() ==> Locked() == Plus(old(Locked()), StepLocks(step, options, lib))
      ensures step.uses.None? ==> m.env == map[]
      ensures m.run.ComponentRun? ==> ComponentPinned(m.run.reference, lockComponents)
    {
      hide NoBlocking, Extends, LocksSound, ImagePinned, PermissionTheory.ImporterCache, Plus, UsesLocks, UsesReach, AfterAction,
        ActionOk, ActionKept, ScriptKept, ComponentPinned, ScriptOk, Directory;
      if step.run.Some? == step.uses.Some? {
        Add(Unsupported, "invalid-step-action");
        NothingGranted(e.Reach());
        return Noop(false);
      }
      if step.run.Some? {
        m := ConvertStepRun(step, directory);
        NothingGranted(e.Reach());
        PlusNothing(Locked());
      } else {
        if step.shell.Some? { Add(Unsupported, "action-shell"); }
        if step.workingDirectory.Some? { Add(Unsupported, "action-working-directory"); }
        m := ConvertActionStep(step.uses.value, step.inputs, e);
      }
    }

    method MergeEnv(base: map<string, Scalar>, actionEnv: map<string, Scalar>) returns (env: map<string, Scalar>)
      modifies this`findings
      ensures env == base + actionEnv
      ensures Clear() <==> old(Clear()) && base.Keys !! actionEnv.Keys
    {
      env := base;
      var rest := actionEnv.Keys;
      NothingRests(base, actionEnv);
      while rest != {}
        invariant rest <= actionEnv.Keys
        invariant env == base + Without(actionEnv, rest)
        invariant Clear() <==> old(Clear()) && NoneTaken(base, actionEnv, rest)
        decreases |rest|
      {
        var name :| name in rest;
        OneMore(base, actionEnv, rest, name);
        if name in env { Add(Unsupported, "action-input-env-collision"); }
        env := env[name := actionEnv[name]];
        rest := rest - {name};
      }
    }

    function Assembled(
      id: Option<string>, name: Option<string>, env: map<string, Scalar>, continueOnError: bool, m: ActionMapping): NativeStep
    {
      match m.run
      case PlainRun(run) => NativeStep(id, name, None, map[], Some(run), env, m.capabilities, m.cache, continueOnError)
      case ComponentRun(reference, inputs) =>
        NativeStep(id, name, Some(reference), inputs, None, env, m.capabilities, m.cache, continueOnError)
    }

    /** A step is imported exactly under `StepOk`; then nothing of it is lost, it is counted, and the job grants what it asks for. */
    method ConvertStep(step: Step, e: JobEffects) returns (native: NativeStep)
      requires Sound(e) && StepTables(step)
      modifies this`findings, this`mappedSteps, this`lockImages, this`lockComponents, e
      ensures Sound(e) && old(lockImages) <= lockImages && old(lockComponents) <= lockComponents
      ensures Included(old(e.outputs), e.outputs)
      ensures Extends(old(e.Reach()), e.Reach(), native.capabilities) && StepSafe(native, e.Reach(), lockComponents)
      ensures Clear() ==> Tight(old(e.Reach()), e.Reach(), native.capabilities)
      ensures Clear() <==> old(Clear()) && StepOk(step, old(e.State()), options, lib)
      ensures Clear() ==> StepKept(step, native, e.outputs, options, lib)
      ensures Clear() ==> e.State() == StateAfter(step, old(e.State()), options, lib)
      ensures Clear() ==> e.Reach() == StepReach(step, old(e.Reach()), options, lib)
      ensures Clear() ==> Locked() == Plus(old(Locked()), StepLocks(step, options, lib))
      ensures old(mappedSteps) <= mappedSteps <= old(mappedSteps) + 1 && (Clear() ==> mappedSteps == old(mappedSteps) + 1)
    {
      hide HeadOk, RunOk, UsesOk, EnvApart, MappingKept, DisjointUnion, EnvKept, StateAfter, StepReach, StepLocks, Plus, Directory, Tight, StepOk, StepKept,
        NoBlocking, LocksSound, ImagePinned, PermissionTheory.ImporterCache, ComponentPinned, PermissionTheory.Within, Included;
      StepDecided(step, e.State(), options, lib);
      var id, name, env, continueOnError, directory := ConvertStepHead(step);
      var m := MapStep(step, directory, e);
      if m.mapped { mappedSteps := mappedSteps + 1; }
      env := JoinEnv(step, env, m, e.outputs);
      native := Assembled(id, name, env, continueOnError, m);
      if Clear() { KeptStep(step, native, m, e.outputs, options, lib); }
    }

    /** The action's variables join the step's; a name in both is a finding. */
    method JoinEnv(step: Step, base: map<string, Scalar>, m: ActionMapping, ghost outputs: map<string, NativeOutput>)
      returns (env: map<string, Scalar>)
      requires Clear() ==> EnvKept(step.env, base) && MappingKept(step, m, outputs, options, lib)
      modifies this`findings
      ensures Clear() <==> old(Clear()) && (step.uses.Some? ==> EnvApart(step, options, lib))
      ensures Clear() ==> DisjointUnion(step.env, m.env, env)
    {
      if Clear() {
        if step.uses.Some? { ApartMeans(step, base, m, outputs, options, lib); }
        if base.Keys !! m.env.Keys { Union(step.env, base, m.env); }
      }
      env := MergeEnv(base, m.env);
    }

    // -------------------------------------------------------------- jobs

    method ConvertSteps(steps: seq<Step>, e: JobEffects) returns (native: seq<NativeStep>)
      requires Sound(e) && forall k :: 0 <= k < |steps| ==> StepTables(steps[k])
      requires e.State() == FRESH_JOB && Asks([], e.Reach())
      modifies this`findings, this`mappedSteps, this`lockImages, this`lockComponents, e
      ensures Sound(e) && old(lockImages) <= lockImages && old(lockComponents) <= lockComponents
      ensures |native| == |steps| && StepsSafe(native, e.Reach(), lockComponents)
      ensures Clear() ==> e.Reach() == ReachBefore(steps, |steps|, old(e.Reach()), options, lib)
      ensures Clear() ==> Locked() == Plus(old(Locked()), StepsLocks(steps, options, lib))
      ensures Clear() <==> old(Clear()) && StepsOk(steps, options, lib)
      ensures Clear() ==> StepsKept(steps, native, e.outputs, options, lib)
      ensures Clear() ==> e.State() == StateBefore(steps, |steps|, options, lib) && Asks(native, e.Reach())
      ensures mappedSteps <= old(mappedSteps) + |steps| && (Clear() ==> mappedSteps == old(mappedSteps) + |steps|)
    {
      hide StepOk, StepKept, StateAfter, StepReach, StepsLocks, StepLocks, Plus;
      native := [];
      NoSteps(Locked(), steps, options, lib);
      for i := 0 to |steps|
        invariant Sound(e) && old(lockImages) <= lockImages && old(lockComponents) <= lockComponents
        invariant |native| == i && StepsSafe(native, e.Reach(), lockComponents)
        invariant Clear() ==> e.Reach() == ReachBefore(steps, i, old(e.Reach()), options, lib)
        invariant Clear() ==> Locked() == Plus(old(Locked()), StepsLocks(steps[..i], options, lib))
        invariant Clear() <==> old(Clear()) && StepsOkTo(steps, i, options, lib)
        invariant Clear() ==> StepsKeptSoFar(steps, native, e.outputs, options, lib)
        invariant Clear() ==> e.State() == StateBefore(steps, i, options, lib) && Asks(native, e.Reach())
        invariant mappedSteps <= old(mappedSteps) + i && (Clear() ==> mappedSteps == old(mappedSteps) + i)
      {
        ghost var before, outputs, locked := e.Reach(), e.outputs, lockComponents;
        StepsOkMore(steps, i, options, lib);
        StepsLocksMore(old(Locked()), steps, i, options, lib);
        var next := ConvertStep(steps[i], e);
        StepsSafeMore(native, next, before, e.Reach(), locked, lockComponents);
        if Clear() {
          StepsKeptMore(steps, native, next, outputs, e.outputs, options, lib);
          AsksMore(native, next, before, e.Reach());
        }
        native := native + [next];
      }
    }

    /** What a job must not have, before the runner is chosen. */
    method RefuseReusable(job: Job)
      modifies this`findings
      ensures Clear() <==> old(Clear()) && job.outputs == [] && job.uses.None? && job.secrets.None?
    {
      for i := 0 to |job.outputs|
        invariant Clear() <==> old(Clear()) && i == 0
      {
        Add(Unsupported, "github-job-output");
      }
      if job.uses.Some? {
        DynamicOrUnsupported(job.uses.value);
        Add(RequiresGithub, "reusable-github-workflow");
      }
      if job.secrets.Some? { Add(Unsafe, "reusable-workflow-secrets"); }
    }

    method RefusePolicies(job: Job)
      modifies this`findings
      ensures Clear() <==> old(Clear()) && job.defaults.None? && job.environment.None? && job.continueOnError.None?
    {
      if job.defaults.Some? { Add(Unsupported, "job-defaults"); }
      if job.environment.Some? { Add(RequiresGithub, "github-environment"); }
      if job.continueOnError.Some? { Add(Unsupported, "job-continue-on-error"); }
    }

    /** The runner image: the job container, the container action or the fallback image; always pinned. */
    method ChooseImage(container: Option<Yaml>, e: JobEffects) returns (image: Option<string>)
      requires Sound(e)
      modifies this`findings
      ensures ImagePinned(image, lockImages)
      ensures Clear() <==> old(Clear()) && RunnerImageOk(container, e.State(), options, lib)
      ensures Clear() ==> image == NativeImage(container, e.State(), options, lib)
    {
      var explicit: Option<string> := None;
      if container.Some? { explicit := ConvertJobContainer(container.value); }
      image := if explicit.Some? then explicit else e.containerActionImage;
      if explicit.Some? && e.containerActionImage.Some? {
        Add(Unsupported, "nested-container-action");
        image := None;
      }
      if e.wasmComponent && image.Some? {
        Add(Unsupported, "mixed-wasm-and-oci-job");
        image := None;
      }
      if image.None? && !e.wasmComponent && options.defaultImage.Some? {
        if IsFullSha256Image(options.defaultImage.value) {
          Add(Supported, "operator-default-job-container");
          image := options.defaultImage;
        } else {
          Add(Unsafe, "mutable-default-job-container");
        }
      }
    }

    /** The parts of a job that do not depend on its steps. */
    method ConvertJobHead(id: string, job: Job)
      returns (name: Option<string>, needs: seq<string>, vars: map<string, Scalar>, matrix: map<string, seq<Scalar>>,
               services: map<string, NativeService>)
      requires JobTables(job)
      modifies this`findings
      ensures ServicesPinned(services)
      ensures Clear() <==> old(Clear()) && JobHeadOk(id, job, lib)
      ensures Clear() ==> name == job.name && Some(needs) == SourceNeeds(job.needs) && EnvKept(job.env, vars)
      ensures Clear() ==> MatrixKept(job.strategy, matrix) && ServicesKept(job.services, services, lib)
    {
      UnsupportedExtras(job.extra);
      name := ConvertDisplayName(job.name);
      if !ValidIdentifier(id) { Add(Unsupported, "invalid-job-id"); }
      needs := ConvertNeeds(job.needs);
      vars := ConvertEnv(job.env);
      matrix := ConvertMatrix(job.strategy);
      services := ConvertServices(job.services);
    }

    method ConvertJobPermissions(job: Job, inherited: PermissionState) returns (base: PermissionState)
      requires JobTables(job) && PermissionTheory.ImporterCache(inherited)
      modifies this`findings
      ensures base == DeclaredPermissions(job.permissions, inherited) && PermissionTheory.ImporterCache(base)
      ensures Clear() <==> old(Clear()) && PermissionsOk(job.permissions)
    {
      base := inherited;
      if job.permissions.Some? { base := ConvertPermissions(job.permissions, inherited); }
    }

    /** The parts of a job that depend on what its steps have made of it. */
    method ConvertJobTail(job: Job, e: JobEffects) returns (runner: NativeRunner)
      requires Sound(e)
      modifies this`findings
      ensures ImagePinned(runner.image, lockImages)
      ensures Clear() <==> old(Clear()) && JobTailOk(job, e.State(), options, lib)
      ensures Clear() ==> RunnerKept(job, runner, e.State(), options, lib)
    {
      RefuseReusable(job);
      var image := ChooseImage(job.container, e);
      RefusePolicies(job);
      runner := ConvertRunner(job.runsOn, e.runnerCapabilities, image, e.wasmComponent);
    }

    /** A job is imported exactly under `JobOk`; then nothing of it is lost and it may do what it declares and its steps ask for. */
    method ConvertJob(id: string, job: Job, inherited: PermissionState) returns (native: NativeJob, state: PermissionState)
      requires JobTables(job) && LocksSound(lockImages, lockComponents, options)
      requires PermissionTheory.ImporterCache(inherited) && inherited.destinations == {} && inherited.secrets == map[]
      modifies this
      ensures old(lockImages) <= lockImages && old(lockComponents) <= lockComponents
      ensures LocksSound(lockImages, lockComponents, options) && PermissionTheory.ImporterCache(state)
      ensures JobSafe(native, state, lockImages, lockComponents)
      ensures Clear() <==> old(Clear()) && JobOk(id, job, options, lib)
      ensures Clear() ==> JobKept(job, native, options, lib)
      ensures Clear() ==> JobTight(native, state) && state == JobReach(job, inherited, options, lib)
      ensures Clear() ==> Locked() == Plus(old(Locked()), StepsLocks(job.steps, options, lib))
      ensures mappedSteps <= old(mappedSteps) + |job.steps| && (Clear() ==> mappedSteps == old(mappedSteps) + |job.steps|)
      ensures mappedJobs == old(mappedJobs) + (if job.steps == [] then 0 else 1) && (Clear() ==> job.steps != [])
    {
      hide JobHeadOk, JobTailOk, StepsOk, StepKept, StepSafe, StateAfter, NativeImage, StepReach, Granted, StepsLocks, Plus, NoBlocking,
        LocksSound, ServicesPinned, EnvKept, MatrixKept, ServicesKept, RunnerKept, SourceNeeds;
      var name, needs, vars, matrix, services := ConvertJobHead(id, job);
      var base := ConvertJobPermissions(job, inherited);
      NothingDeclared(job.permissions, inherited);
      var e := new JobEffects(base);
      var steps := ConvertSteps(job.steps, e);
      if steps == [] {
        Add(Unsupported, "job-without-steps");
      } else {
        mappedJobs := mappedJobs + 1;
        Add(Supported, "job-dag-node");
      }
      var runner := ConvertJobTail(job, e);
      e.permissions := e.permissions.(destinations := e.networkDestinations, allowPrivate := e.allowPrivateNetwork);
      state := e.permissions;
      native := NativeJob(name, needs, runner, Native(state), matrix, vars, services, steps, e.outputs);
    }

    // -------------------------------------------------------------- the workflow

    /** The check of one step, in the order of the source: no script, a static reference, a pinned image or an exact prepared action. */
    method CheckTrustedStep(step: Step) returns (trusted: bool)
      ensures trusted <==> TrustedStep(step, options, lib)
    {
      if step.run.Some? || step.uses.None? { return false; }
      var reference := StaticString(step.uses.value, lib);
      if reference.None? { return false; }
      var image := StripPrefix(reference.value, "docker://");
      if image.Some? && IsFullSha256Image(image.value) { return true; }
      if reference.value !in options.actions { return false; }
      match options.actions[reference.value].program
      case ContainerProgram(pinned, _, _) => trusted := IsFullSha256Image(pinned);
      case ComponentProgram(component, _, _, _) => trusted := IsExactWasmComponent(component);
    }

    /** Stops at the first job or step that is not trusted. */
    method CheckTrustedJobs(jobs: seq<(string, Job)>) returns (trusted: bool)
      ensures trusted <==> forall i :: 0 <= i < |jobs| ==> TrustedJob(jobs[i].1, options, lib)
    {
      hide TrustedStep;
      for i := 0 to |jobs|
        invariant forall j :: 0 <= j < i ==> TrustedJob(jobs[j].1, options, lib)
      {
        var job := jobs[i].1;
        if job.uses.Some? || job.container.Some? || job.services != [] || job.steps == [] { return false; }
        for k := 0 to |job.steps|
          invariant forall j :: 0 <= j < k ==> TrustedStep(job.steps[j], options, lib)
        {
          var step := CheckTrustedStep(job.steps[k]);
          if !step { return false; }
        }
      }
      trusted := true;
    }

    method CheckTrustedTarget(w: Source)
      modifies this`findings
      ensures Clear() <==> old(Clear()) && (w.trustedTarget ==> TrustedTarget(w, options, lib))
    {
      if w.trustedTarget {
        var trusted := CheckTrustedJobs(w.jobs);
        if trusted {
          Add(Emulated, "trusted-pull-request-target");
        } else {
          Add(Unsafe, "pull-request-target-source-execution");
        }
      }
    }

    method ConvertWorkflowHead(w: Source) returns (name: Option<string>, top: PermissionState, vars: map<string, Scalar>)
      requires WellFormed(w)
      modifies this`findings
      ensures top == TopPermissions(w) && PermissionTheory.ImporterCache(top)
      ensures Clear() <==> old(Clear()) && WorkflowHeadOk(w, options, lib)
      ensures Clear() ==> name == w.name && EnvKept(w.env, vars)
    {
      UnsupportedExtras(w.extra);
      name := ConvertDisplayName(w.name);
      CheckTrustedTarget(w);
      top := ConvertPermissions(w.permissions, NO_PERMISSIONS);
      vars := ConvertEnv(w.env);
      if w.jobs == [] { Add(Unsupported, "empty-workflow"); }
    }

    /** The jobs in turn, and the maximum of the permissions. */
    method ConvertJobs(jobs: seq<(string, Job)>, top: PermissionState)
      returns (native: map<string, NativeJob>, maximum: PermissionState, ghost states: seq<PermissionState>)
      requires DistinctJobs(jobs) && forall i :: 0 <= i < |jobs| ==> JobTables(jobs[i].1)
      requires LocksSound(lockImages, lockComponents, options)
      requires PermissionTheory.ImporterCache(top) && top.destinations == {} && top.secrets == map[]
      modifies this
      ensures LocksSound(lockImages, lockComponents, options)
      ensures JobsSafe(jobs, native, states, lockImages, lockComponents)
      ensures maximum == PermissionTheory.Folded(top, states)
      ensures forall p :: p in states ==> PermissionTheory.ImporterCache(p)
      ensures Clear() <==> old(Clear()) && JobsOk(jobs, options, lib)
      ensures Clear() ==> JobsKept(jobs, native, options, lib) && JobsTight(jobs, native, states)
      ensures Clear() ==> JobsExact(jobs, top, states, options, lib)
      ensures Clear() ==> Locked() == Plus(old(Locked()), JobsLocks(jobs, options, lib))
      ensures Clear() ==> mappedSteps == old(mappedSteps) + StepCount(jobs) && mappedJobs == old(mappedJobs) + |jobs|
    {
      hide JobOk, JobKept, JobSafe, JobTight, JobReach, JobTables, LocksSound, JobsLocks, StepsLocks, Plus, NoBlocking, StepCount,
        JobsOk, JobsKept, JobsSafe, JobsTight, JobsExact, PermissionTheory.Folded, PermissionTheory.ImporterCache, MergeMaximum;
      NoJobs(jobs, top, lockImages, lockComponents, Locked(), options, lib);
      native, maximum, states := map[], top, [];
      for i := 0 to |jobs|
        invariant LocksSound(lockImages, lockComponents, options)
        invariant JobsSafe(jobs[..i], native, states, lockImages, lockComponents)
        invariant maximum == PermissionTheory.Folded(top, states)
        invariant forall p :: p in states ==> PermissionTheory.ImporterCache(p)
        invariant Clear() <==> old(Clear()) && JobsOk(jobs[..i], options, lib)
        invariant Clear() ==> JobsKept(jobs[..i], native, options, lib)
        invariant Clear() ==> JobsTight(jobs[..i], native, states) && JobsExact(jobs[..i], top, states, options, lib)
        invariant Clear() ==> Locked() == Plus(old(Locked()), JobsLocks(jobs[..i], options, lib))
        invariant Clear() ==> mappedSteps == old(mappedSteps) + StepCount(jobs[..i]) && mappedJobs == old(mappedJobs) + i
      {
        var (id, job) := jobs[i];
        ghost var images, components := lockImages, lockComponents;
        JobsOkMore(jobs, i, options, lib);
        JobsLocksMore(old(Locked()), jobs, i, options, lib);
        var converted, state := ConvertJob(id, job, top);
        JobsSafeMore(jobs, i, native, converted, states, state, images, components, lockImages, lockComponents);
        if Clear() {
          JobsKeptMore(jobs, i, native, converted, options, lib);
          JobsTightMore(jobs, i, native, converted, states, state);
          JobsExactMore(jobs, i, top, states, options, lib);
        }
        CountsMore(jobs, i, top, states, state);
        maximum := MergeMaximum(maximum, state);
        native := native[id := converted];
        states := states + [state];
      }
    }

    /** The whole traversal. */
    method Analyze(w: Source) returns (native: NativeWorkflow, ghost states: seq<PermissionState>)
      requires WellFormed(w) && LocksSound(lockImages, lockComponents, options)
      modifies this
      ensures LocksSound(lockImages, lockComponents, options)
      ensures JobsSafe(w.jobs, native.jobs, states, lockImages, lockComponents)
      ensures native.permissions == Native(WorkflowReach(w, states))
      ensures PermissionTheory.ImporterCache(TopPermissions(w)) && forall p :: p in states ==> PermissionTheory.ImporterCache(p)
      ensures Clear() <==> old(Clear()) && WorkflowOk(w, options, lib)
      ensures Clear() ==> Imported(w, native, states, options, lib)
      ensures Clear() ==> Locked() == Plus(old(Locked()), JobsLocks(w.jobs, options, lib))
      ensures Clear() ==> mappedSteps == old(mappedSteps) + StepCount(w.jobs) && mappedJobs == old(mappedJobs) + |w.jobs|
    {
      hide JobsOk, WorkflowHeadOk, JobsKept, JobsTight, JobsExact, JobsSafe, LocksSound, TopPermissions, JobsLocks, Plus, Imported,
        EnvKept, JobTables, StepCount, PermissionTheory.Folded, PermissionTheory.ImporterCache, NoBlocking, Native;
      TopHasNothing(w);
      var name, top, vars := ConvertWorkflowHead(w);
      var jobs, maximum;
      jobs, maximum, states := ConvertJobs(w.jobs, top);
      native := NativeWorkflow(name, Native(maximum), vars, jobs);
      if Clear() { ImportedParts(w, name, Native(maximum), vars, jobs, states, options, lib); }
    }

    /** The report: how many findings there are of each status, and the native workflow when none of them blocks. */
    method Finish(native: NativeWorkflow) returns (result: Option<NativeWorkflow>, report: Report)
      ensures report.compatible <==> Clear()
      ensures result == if Clear() then Some(native) else None
      ensures report.mappedJobs == mappedJobs && report.mappedSteps == mappedSteps
      ensures report.supported == Count(findings, Supported) && report.emulated == Count(findings, Emulated)
      ensures report.blocking == CountBlocking(findings)
      ensures report.percent == Percent(findings)
    {
      var supported, emulated, blocking := 0, 0, 0;
      for i := 0 to |findings|
        invariant supported == Count(findings[..i], Supported) && emulated == Count(findings[..i], Emulated)
        invariant blocking == CountBlocking(findings[..i])
      {
        assert findings[..i + 1][..i] == findings[..i];
        match findings[i].status
        case Supported => supported := supported + 1;
        case Emulated => emulated := emulated + 1;
        case _ => blocking := blocking + 1;
      }
      assert findings[..|findings|] == findings;
      CountsAddUp(findings);
      var compatible := !exists i :: 0 <= i < |findings| && Blocking(findings[i].status);
      var percent := Score(supported * 2 + emulated, supported + emulated + blocking);
      result := if compatible then Some(native) else None;
      report := Report(compatible, percent, mappedJobs, mappedSteps, supported, emulated, blocking);
    }
  }

  datatype Report = Report(
    compatible: bool, percent: nat, mappedJobs: nat, mappedSteps: nat, supported: nat, emulated: nat, blocking: nat)

  /**
   The import of a workflow. It succeeds exactly for the supported workflows. Whatever is imported
   keeps every job and step and counts them, and pins every image and component. Steps, jobs and
   the workflow have capabilities that nest, and a job's are what it declares and its steps ask for.
   */
  method Import(w: Source, options: Options, lib: Library)
    returns (native: Option<NativeWorkflow>, report: Report, images: set<ImageLock>, components: set<ComponentLock>,
             ghost states: seq<PermissionState>)
    requires WellFormed(w)
    ensures report.compatible <==> WorkflowOk(w, options, lib)
    ensures native.Some? <==> report.compatible
    ensures native.Some? ==> Imported(w, native.value, states, options, lib)
    ensures native.Some? ==> report.mappedJobs == |w.jobs| && report.mappedSteps == StepCount(w.jobs)
    ensures native.Some? ==> 50 <= report.percent <= 100 && report.blocking == 0
    ensures native.Some? ==> JobsSafe(w.jobs, native.value.jobs, states, images, components)
    ensures native.Some? ==> native.value.permissions == Native(WorkflowReach(w, states))
    ensures LocksSound(images, components, options)
    ensures native.Some? ==> LockSet(images, components) == JobsLocks(w.jobs, options, lib)
    ensures PermissionTheory.ImporterCache(TopPermissions(w)) && forall p :: p in states ==> PermissionTheory.ImporterCache(p)
  {
    hide WorkflowOk, Imported, JobsSafe, ImageLockSound, ComponentLockSound, TopPermissions, WorkflowReach;
    hide JobsLocks;
    var analyzer := new Analyzer(options, lib);
    var built;
    built, states := analyzer.Analyze(w);
    native, report := analyzer.Finish(built);
    images, components := analyzer.lockImages, analyzer.lockComponents;
    CountsAddUp(analyzer.findings);
    PercentMeans(analyzer.findings);
  }

  const PLACEHOLDER_IMAGE: string := "invalid" + SHA256_MARK + seq(64, _ => '0')

  /** The image put in place of a refused service image can never be pulled, and counts as pinned. */
  lemma PlaceholderPinned()
    ensures IsFullSha256Image(PLACEHOLDER_IMAGE)
  {
    var digest: string := seq(64, _ => '0');
    assert forall i :: 0 <= i < 64 ==> digest[i] == '0';
    PinnedImageParts("invalid", digest);
  }
}
