/** What it means that a translation keeps a source value, and that a reference is pinned. */
module Lossless {
  import opened Results
  import opened Text
  import opened Validation
  import opened Workflow
  import opened Expressions

  // ---------------------------------------------------------------- environments

  predicate EnvEntryOk(e: (string, Yaml)) {
    && ValidEnvironmentName(e.0)
    && !(LooksLikeSecretName(e.0) && !IsEmptyScalar(e.1))
    && ScalarOf(e.1).Some?
  }

  predicate EnvOk(t: Table) { forall i :: 0 <= i < |t| ==> EnvEntryOk(t[i]) }

  lemma EnvOkMore(t: Table, k: nat)
    requires k < |t|
    ensures EnvOk(t[..k + 1]) <==> EnvOk(t[..k]) && EnvEntryOk(t[k])
  {
    hide EnvEntryOk;
    var more, less := t[..k + 1], t[..k];
    assert more[k] == t[k] && forall i :: 0 <= i < k ==> more[i] == less[i];
  }

  predicate HasName(t: Table, name: string) { exists i :: 0 <= i < |t| && t[i].0 == name }

  /** The native variables are the source's, name by name and value by value. */
  predicate EnvKept(t: Table, env: map<string, Scalar>) {
    && (forall k :: k in env ==> HasName(t, k))
    && forall i :: 0 <= i < |t| ==> t[i].0 in env && ScalarOf(t[i].1) == Some(env[t[i].0])
  }

  lemma HasNameMore(t: Table, k: nat, name: string)
    requires k < |t|
    ensures HasName(t[..k + 1], name) <==> HasName(t[..k], name) || t[k].0 == name
    ensures k + 1 == |t| ==> t[..k + 1] == t
  {
    var more, less := t[..k + 1], t[..k];
    assert more[k] == t[k];
    if HasName(less, name) {
      var i :| 0 <= i < |less| && less[i].0 == name;
      assert more[i].0 == name;
    }
    if HasName(more, name) {
      var i :| 0 <= i < |more| && more[i].0 == name;
      if i < k { assert less[i].0 == name; }
    }
  }

  lemma EnvKeptMore(t: Table, k: nat, env: map<string, Scalar>, value: Scalar)
    requires Distinct(t) && k < |t|
    requires EnvKept(t[..k], env) && ScalarOf(t[k].1) == Some(value)
    ensures EnvKept(t[..k + 1], env[t[k].0 := value])
  {
    var more := env[t[k].0 := value];
    forall name | name in more ensures HasName(t[..k + 1], name) { HasNameMore(t, k, name); }
    var prefix := t[..k + 1];
    forall i | 0 <= i < |prefix| ensures prefix[i].0 in more && ScalarOf(prefix[i].1) == Some(more[prefix[i].0]) {
      if i < k { assert t[..k][i] == t[i] && t[i].0 != t[k].0; }
    }
  }

  // ---------------------------------------------------------------- needs and matrix

  predicate AllText(items: seq<Yaml>) { forall i :: 0 <= i < |items| ==> items[i].Str? }

  function Texts(items: seq<Yaml>): (r: seq<string>)
    requires AllText(items)
    ensures |r| == |items|
  {
    seq(|items|, i requires 0 <= i < |items| => items[i].s)
  }

  /** The dependencies that the source declares, if they are static. */
  function SourceNeeds(needs: Option<Yaml>): Option<seq<string>> {
    match needs
    case None => Some([])
    case Some(v) =>
      if v.Str? then Some([v.s])
      else if v.Seq? && AllText(v.items) then Some(Texts(v.items))
      else None
  }

  predicate StaticId(s: string) { !HasExpression(s) && ValidIdentifier(s) }

  predicate NeedsOk(needs: Option<Yaml>) {
    var names := SourceNeeds(needs);
    names.Some? && forall i :: 0 <= i < |names.value| ==> StaticId(names.value[i])
  }

  predicate ScalarsKept(items: seq<Yaml>, scalars: seq<Scalar>) {
    |scalars| == |items| && forall i :: 0 <= i < |items| ==> ScalarOf(items[i]) == Some(scalars[i])
  }

  predicate AllScalars(items: seq<Yaml>) { forall i :: 0 <= i < |items| ==> ScalarOf(items[i]).Some? }

  lemma AllScalarsMore(t: seq<Yaml>, k: nat)
    requires k < |t|
    ensures AllScalars(t[..k + 1]) <==> AllScalars(t[..k]) && ScalarOf(t[k]).Some?
  {
    hide ScalarOf;
    var more, less := t[..k + 1], t[..k];
    assert more[k] == t[k] && forall i :: 0 <= i < k ==> more[i] == less[i];
  }

  predicate AxisOk(axis: (string, Yaml)) {
    && axis.0 != "include" && axis.0 != "exclude" && ValidIdentifier(axis.0)
    && axis.1.Seq? && axis.1.items != [] && AllScalars(axis.1.items)
  }

  predicate AxesOk(axes: Table) { forall i :: 0 <= i < |axes| ==> AxisOk(axes[i]) }

  lemma AxesOkMore(t: Table, k: nat)
    requires k < |t|
    ensures AxesOk(t[..k + 1]) <==> AxesOk(t[..k]) && AxisOk(t[k])
  {
    hide AxisOk;
    var more, less := t[..k + 1], t[..k];
    assert more[k] == t[k] && forall i :: 0 <= i < k ==> more[i] == less[i];
  }

  predicate AxesKept(axes: Table, native: map<string, seq<Scalar>>) {
    && (forall k :: k in native ==> HasName(axes, k))
    && forall i :: 0 <= i < |axes| ==>
         axes[i].0 in native && axes[i].1.Seq? && ScalarsKept(axes[i].1.items, native[axes[i].0])
  }

  lemma AxesKeptMore(t: Table, k: nat, native: map<string, seq<Scalar>>, values: seq<Scalar>)
    requires Distinct(t) && k < |t| && t[k].1.Seq?
    requires AxesKept(t[..k], native) && ScalarsKept(t[k].1.items, values)
    ensures AxesKept(t[..k + 1], native[t[k].0 := values])
  {
    var more := native[t[k].0 := values];
    forall name | name in more ensures HasName(t[..k + 1], name) { HasNameMore(t, k, name); }
    var prefix := t[..k + 1];
    forall i | 0 <= i < |prefix|
      ensures prefix[i].0 in more && prefix[i].1.Seq? && ScalarsKept(prefix[i].1.items, more[prefix[i].0])
    {
      if i < k { assert t[..k][i] == t[i] && t[i].0 != t[k].0; }
    }
  }

  lemma {:induction false} StringEntriesDistinct(entries: seq<(Yaml, Yaml)>)
    requires StringEntries(entries).Some?
    requires forall i, j :: 0 <= i < j < |entries| ==> entries[i].0 != entries[j].0
    ensures var t := StringEntries(entries).value;
      Distinct(t) && |t| == |entries| && forall i :: 0 <= i < |t| ==> entries[i] == (Str(t[i].0), t[i].1)
  {
    if entries != [] {
      StringEntriesDistinct(entries[1..]);
      var t, rest := StringEntries(entries).value, StringEntries(entries[1..]).value;
      assert t == [(entries[0].0.s, entries[0].1)] + rest;
      forall i | 0 <= i < |t| ensures entries[i] == (Str(t[i].0), t[i].1) {
        if i > 0 { assert entries[1..][i - 1] == entries[i]; }
      }
      forall i, j | 0 <= i < j < |t| ensures t[i].0 != t[j].0 {
        assert entries[i].0 != entries[j].0;
      }
    }
  }

  predicate StrategyOk(strategy: Option<Strategy>) {
    strategy.None? || (
      var s := strategy.value;
      && s.extra == []
      && (s.failFast.Some? ==> s.failFast.value.Bool?)
      && s.maxParallel.None?
      && (s.matrix.Some? ==> StringMap(s.matrix.value).Some? && AxesOk(StringMap(s.matrix.value).value)))
  }

  /** The native matrix has exactly the source's axes, each with exactly its values, in order. */
  predicate MatrixKept(strategy: Option<Strategy>, native: map<string, seq<Scalar>>) {
    if strategy.None? || strategy.value.matrix.None? then native == map[]
    else StringMap(strategy.value.matrix.value).Some? && AxesKept(StringMap(strategy.value.matrix.value).value, native)
  }

  // ---------------------------------------------------------------- services

  predicate PortsKept(ports: seq<Yaml>, native: seq<nat>) {
    |native| == |ports| && forall i :: 0 <= i < |ports| ==> PortOf(ports[i]) == Some(native[i])
  }

  predicate ServiceKept(s: Service, n: NativeService, lib: Library) {
    && s.extra == [] && s.options.None? && s.credentials.None? && s.volumes.None?
    && s.image.Some? && StaticString(s.image.value, lib) == Some(n.image)
    && PortsKept(s.ports, n.ports) && EnvKept(s.env, n.env)
  }

  predicate PortsOk(ports: seq<Yaml>) { forall i :: 0 <= i < |ports| ==> PortOf(ports[i]).Some? }

  lemma PortsOkMore(t: seq<Yaml>, k: nat)
    requires k < |t|
    ensures PortsOk(t[..k + 1]) <==> PortsOk(t[..k]) && PortOf(t[k]).Some?
  {
    hide PortOf;
    var more, less := t[..k + 1], t[..k];
    assert more[k] == t[k] && forall i :: 0 <= i < k ==> more[i] == less[i];
  }

  predicate StaticPinned(v: Yaml, lib: Library) {
    StaticString(v, lib).Some? && IsFullSha256Image(StaticString(v, lib).value)
  }

  predicate ServiceOk(s: (string, Service), lib: Library) {
    && s.1.extra == [] && ValidIdentifier(s.0)
    && s.1.image.Some? && StaticPinned(s.1.image.value, lib)
    && EnvOk(s.1.env) && PortsOk(s.1.ports)
    && s.1.options.None? && s.1.credentials.None? && s.1.volumes.None?
  }

  predicate ServicesOk(services: seq<(string, Service)>, lib: Library) {
    forall i :: 0 <= i < |services| ==> ServiceOk(services[i], lib)
  }

  lemma ServicesOkMore(t: seq<(string, Service)>, k: nat, lib: Library)
    requires k < |t|
    ensures ServicesOk(t[..k + 1], lib) <==> ServicesOk(t[..k], lib) && ServiceOk(t[k], lib)
  {
    hide ServiceOk;
    var more, less := t[..k + 1], t[..k];
    assert more[k] == t[k] && forall i :: 0 <= i < k ==> more[i] == less[i];
  }

  predicate HasService(services: seq<(string, Service)>, name: string) {
    exists i :: 0 <= i < |services| && services[i].0 == name
  }

  predicate ServicesKept(services: seq<(string, Service)>, native: map<string, NativeService>, lib: Library) {
    && (forall k :: k in native ==> HasService(services, k))
    && forall i :: 0 <= i < |services| ==> services[i].0 in native && ServiceKept(services[i].1, native[services[i].0], lib)
  }

  lemma ServicesKeptMore(t: seq<(string, Service)>, k: nat, native: map<string, NativeService>, n: NativeService, lib: Library)
    requires DistinctServices(t) && k < |t|
    requires ServicesKept(t[..k], native, lib) && ServiceKept(t[k].1, n, lib)
    ensures ServicesKept(t[..k + 1], native[t[k].0 := n], lib)
  {
    var more, prefix := native[t[k].0 := n], t[..k + 1];
    forall name | name in more ensures HasService(prefix, name) {
      if name == t[k].0 {
        assert prefix[k].0 == name;
      } else {
        assert HasService(t[..k], name);
        var i :| 0 <= i < k && t[..k][i].0 == name;
        assert prefix[i].0 == name;
      }
    }
    forall i | 0 <= i < |prefix| ensures prefix[i].0 in more && ServiceKept(prefix[i].1, more[prefix[i].0], lib) {
      if i < k { assert t[..k][i] == t[i] && t[i].0 != t[k].0; }
    }
  }

  // ---------------------------------------------------------------- containers, runners, permissions

  function Lookup(t: Table, name: string): Option<Yaml> {
    if t == [] then None else if t[0].0 == name then Some(t[0].1) else Lookup(t[1..], name)
  }

  predicate OnlyImage(t: Table) { forall i :: 0 <= i < |t| ==> t[i].0 == "image" }

  /** The image that a job container declares when it declares nothing else. */
  function ContainerImage(v: Yaml, lib: Library): Option<string> {
    if !v.Mapping? then StaticString(v, lib)
    else
      match StringMap(v)
      case None => None
      case Some(t) =>
        if !OnlyImage(t) || Lookup(t, "image").None? then None else StaticString(Lookup(t, "image").value, lib)
  }

  predicate JobContainerOk(v: Yaml, lib: Library) {
    ContainerImage(v, lib).Some? && IsFullSha256Image(ContainerImage(v, lib).value)
  }

  predicate RunnerOk(v: Option<Yaml>, lib: Library) {
    v.Some? && RunnerLabels(v.value, lib).Some?
    && var labels := RunnerLabels(v.value, lib).value;
    "self-hosted" !in labels && |labels| == 1 && (labels[0] == "ubuntu-latest" || StartsWith(labels[0], "ubuntu-"))
  }

  function AccessOf(v: Yaml): Option<Access> {
    if v == Str("read") then Some(Read) else if v == Str("write") then Some(Write)
    else if v == Str("none") then Some(Deny) else None
  }

  /** The native scope behind a GitHub scope. */
  function ScopeOf(scope: string): Option<Scope> {
    match scope
    case "contents" => Some(Contents)
    case "issues" => Some(Issues)
    case "pull-requests" => Some(PullRequests)
    case "checks" => Some(ScmChecks)
    case "statuses" => Some(Statuses)
    case "packages" => Some(Registry)
    case _ => None
  }

  predicate ScopeOk(e: (string, Yaml)) { AccessOf(e.1).Some? && (ScopeOf(e.0).Some? || e.0 == "actions") }

  predicate ScopesOk(t: Table) { forall i :: 0 <= i < |t| ==> ScopeOk(t[i]) }

  lemma ScopesOkMore(t: Table, k: nat)
    requires k < |t|
    ensures ScopesOk(t[..k + 1]) <==> ScopesOk(t[..k]) && ScopeOk(t[k])
  {
    hide ScopeOk;
    var more, less := t[..k + 1], t[..k];
    assert more[k] == t[k] && forall i :: 0 <= i < k ==> more[i] == less[i];
  }

  predicate PermissionsOk(permissions: Option<Permissions>) {
    permissions.Some? ==> permissions.value.Scopes? && ScopesOk(permissions.value.scopes)
  }

  /** The permission that the entry asks for is granted, and no other access than that. */
  predicate ScopeKept(e: (string, Yaml), p: PermissionState) {
    && AccessOf(e.1).Some?
    && (ScopeOf(e.0).Some? ==> At(p.access, ScopeOf(e.0).value) == AccessOf(e.1).value)
    && (e.0 == "actions" ==>
          && p.cacheRead == (if AccessOf(e.1).value == Deny then CacheReadDeny else Run)
          && p.cacheWrite == (if AccessOf(e.1).value == Write then Quarantine else CacheWriteDeny))
  }

  predicate ScopesKept(t: Table, p: PermissionState) { forall i :: 0 <= i < |t| ==> ScopeKept(t[i], p) }

  function WithAccess(a: Scopes9, s: Scope, v: Access): Scopes9 {
    match s
    case Repository => a.(repository := v)
    case Contents => a.(contents := v)
    case Issues => a.(issues := v)
    case PullRequests => a.(pullRequests := v)
    case ScmChecks => a.(scmChecks := v)
    case Statuses => a.(statuses := v)
    case Checks => a.(checks := v)
    case Artifacts => a.(artifacts := v)
    case Registry => a.(registry := v)
  }

  lemma WithAccessAt(a: Scopes9, s: Scope, v: Access, t: Scope)
    ensures At(WithAccess(a, s, v), t) == if s == t then v else At(a, t)
  {
  }

  lemma ScopeOfInjective(x: string, y: string)
    requires ScopeOf(x).Some? && ScopeOf(x) == ScopeOf(y)
    ensures x == y
  {
  }

  function ScopeGranted(e: (string, Yaml), p: PermissionState): PermissionState {
    if AccessOf(e.1).None? then p
    else
      var access := AccessOf(e.1).value;
      if ScopeOf(e.0).Some? then p.(access := WithAccess(p.access, ScopeOf(e.0).value, access))
      else if e.0 == "actions" then
        p.(cacheRead := if access == Deny then CacheReadDeny else Run,
           cacheWrite := if access == Write then Quarantine else CacheWriteDeny)
      else p
  }

  lemma ScopesKeptMore(t: Table, k: nat, before: PermissionState, p: PermissionState)
    requires Distinct(t) && k < |t| && ScopesKept(t[..k], before) && ScopeOk(t[k])
    requires p == ScopeGranted(t[k], before)
    ensures ScopesKept(t[..k + 1], p)
  {
    var prefix := t[..k + 1];
    forall i | 0 <= i < |prefix| ensures ScopeKept(prefix[i], p) {
      if i < k {
        assert t[..k][i] == t[i] && t[i].0 != t[k].0;
        assert ScopeKept(t[i], before);
        if ScopeOf(t[i].0).Some? && ScopeOf(t[k].0).Some? {
          if ScopeOf(t[i].0) == ScopeOf(t[k].0) { ScopeOfInjective(t[i].0, t[k].0); }
          WithAccessAt(before.access, ScopeOf(t[k].0).value, AccessOf(t[k].1).value, ScopeOf(t[i].0).value);
        }
      } else {
        if ScopeOf(t[k].0).Some? {
          WithAccessAt(before.access, ScopeOf(t[k].0).value, AccessOf(t[k].1).value, ScopeOf(t[k].0).value);
        }
      }
    }
  }

  /** What a scope map grants: its entries in turn, from nothing. */
  function Granted(t: Table): PermissionState {
    if t == [] then NO_PERMISSIONS else ScopeGranted(t[|t| - 1], Granted(t[..|t| - 1]))
  }

  /** The permissions that a workflow or a job declares; without any, those it inherits. */
  function DeclaredPermissions(permissions: Option<Permissions>, inherited: PermissionState): PermissionState {
    match permissions
    case None => inherited
    case Some(Keyword(_)) => NO_PERMISSIONS
    case Some(Scopes(t)) => Granted(t)
  }

  predicate NamesScope(t: Table, s: Scope) { exists i :: 0 <= i < |t| && ScopeOf(t[i].0) == Some(s) }

  /** Nothing is granted that no entry names. */
  ghost predicate NothingElse(t: Table, p: PermissionState) {
    && (forall s: Scope :: At(p.access, s) != Deny ==> NamesScope(t, s))
    && (p.cacheRead != CacheReadDeny || p.cacheWrite != CacheWriteDeny ==> HasName(t, "actions"))
    && p.secrets == map[] && p.destinations == {} && !p.allowPrivate
  }

  lemma NothingElseMore(t: Table, k: nat, p: PermissionState)
    requires k < |t| && NothingElse(t[..k], p)
    ensures NothingElse(t[..k + 1], ScopeGranted(t[k], p))
  {
    var more, less, q := t[..k + 1], t[..k], ScopeGranted(t[k], p);
    HasNameMore(t, k, "actions");
    assert more[k] == t[k];
    forall s: Scope | At(q.access, s) != Deny ensures NamesScope(more, s) {
      if ScopeOf(t[k].0) != Some(s) {
        if ScopeOf(t[k].0).Some? && AccessOf(t[k].1).Some? {
          WithAccessAt(p.access, ScopeOf(t[k].0).value, AccessOf(t[k].1).value, s);
        }
        assert NamesScope(less, s);
        var i :| 0 <= i < |less| && ScopeOf(less[i].0) == Some(s);
        assert more[i] == less[i];
      }
    }
  }

  /** A scope map grants each scope the access that its entry asks for, and nothing else. */
  lemma {:induction false} GrantedExact(t: Table)
    requires Distinct(t)
    ensures NothingElse(t, Granted(t))
    ensures ScopesOk(t) ==> ScopesKept(t, Granted(t))
  {
    if t != [] {
      var k := |t| - 1;
      GrantedExact(t[..k]);
      NothingElseMore(t, k, Granted(t[..k]));
      assert t[..k + 1] == t;
      if ScopesOk(t) {
        assert ScopesOk(t[..k]) && ScopeOk(t[k]);
        ScopesKeptMore(t, k, Granted(t[..k]), Granted(t));
      }
    }
  }

  /** Declared permissions hold no destinations and secrets. */
  lemma NothingDeclared(permissions: Option<Permissions>, inherited: PermissionState)
    requires ScopesDistinct(permissions) && inherited.destinations == {} && inherited.secrets == map[]
    ensures var p := DeclaredPermissions(permissions, inherited); p.destinations == {} && p.secrets == map[]
  {
    if permissions.Some? && permissions.value.Scopes? { GrantedExact(permissions.value.scopes); }
  }

  // ---------------------------------------------------------------- pinning

  /** An image named by its digest, or the source of a lock entry whose resolved image is. */
  ghost predicate Pinned(image: string, locks: set<ImageLock>) {
    IsFullSha256Image(image) || exists lock :: lock in locks && lock.source == image && IsFullSha256Image(lock.resolved)
  }

  ghost predicate ImagePinned(image: Option<string>, locks: set<ImageLock>) {
    image.Some? ==> Pinned(image.value, locks)
  }

  lemma PinnedGrows(image: Option<string>, locks: set<ImageLock>, more: set<ImageLock>)
    requires ImagePinned(image, locks) && locks <= more
    ensures ImagePinned(image, more)
  {
  }

  /** An exact component with its own lock entry. */
  ghost predicate ComponentPinned(reference: string, locks: set<ComponentLock>) {
    IsExactWasmComponent(reference) && exists lock :: lock in locks && lock.source == reference
  }

  predicate ServicesPinned(services: map<string, NativeService>) {
    forall k :: k in services ==> IsFullSha256Image(services[k].image)
  }

  // ---------------------------------------------------------------- capabilities

  /** What a step may do is within the permissions `p`. */
  predicate CapabilitiesWithin(c: Option<Capabilities>, p: PermissionState) {
    c.Some? ==>
      && Destinations(c.value.network) <= p.destinations
      && (forall r :: r in c.value.secrets ==> r.name in p.secrets)
      && (c.value.cache.Some? ==>
            && (c.value.cache.value.read != CacheReadDeny ==> p.cacheRead != CacheReadDeny)
            && (c.value.cache.value.write != CacheWriteDeny ==> p.cacheWrite != CacheWriteDeny))
      && (c.value.artifacts.Some? ==> Leq(c.value.artifacts.value, p.access.artifacts))
  }
}
