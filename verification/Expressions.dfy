/** What the importer can tell of a YAML value and of its text without running anything. */
module Expressions {
  import opened Results
  import opened Text
  import opened Validation
  import opened Workflow

  /** Functions of libraries: printing a value as YAML, printing a number, Unicode upper case. */
  datatype Library = Library(yamlText: Yaml -> string, numberText: Number -> string, uppercase: string -> string)

  const NUL: char := '\0'

  predicate HasExpression(s: string) { Contains(s, "${{") || Contains(s, "}}") }

  predicate IdentifierChar(c: char) { IsAsciiAlphanumeric(c) || c == '_' }

  /** `contains_identifier`. */
  predicate ContainsIdentifier(s: string, identifier: string) {
    exists i :: 0 <= i <= |s| && OccursAt(s, identifier, i)
      && (i == 0 || !IdentifierChar(s[i - 1]))
      && (i + |identifier| == |s| || !IdentifierChar(s[i + |identifier|]))
  }

  predicate SecretExpressionBody(expression: string) {
    || ContainsIdentifier(expression, "secrets") || ContainsIdentifier(expression, "github_token")
    || ContainsAny(Compact(expression), ["github.token", "github['token']", "github[\"token\"]"])
  }

  predicate HasSecretExpression(s: string) { SecretIn(ToAsciiLower(s)) }

  predicate SecretIn(remaining: string) {
    match Find(remaining, "${{")
    case None => false
    case Some(start) =>
      var rest := remaining[start + 3..];
      match Find(rest, "}}")
      case None => SecretExpressionBody(rest)
      case Some(end) => SecretExpressionBody(rest[..end]) || SecretIn(rest[end + 2..])
  }

  predicate IsGithubTokenExpression(s: string) {
    ToAsciiLower(Compact(s)) in {"${{github.token}}", "${{github['token']}}", "${{github[\"token\"]}}"}
  }

  predicate ContainsGithubRuntime(s: string) {
    ContainsAny(s, ["GITHUB_ENV", "GITHUB_OUTPUT", "GITHUB_PATH", "GITHUB_STEP_SUMMARY", "GITHUB_WORKSPACE",
                    "GITHUB_ACTION", "GITHUB_EVENT", "RUNNER_", "::set-output", "::add-mask", "::error",
                    "::warning", "::group"])
  }

  predicate HasPrivilegedOrHostFeature(s: string) {
    ContainsAny(ToAsciiLower(s), ["--privileged", "--network=host", "--network host", "/var/run/docker.sock",
                                  "/run/docker.sock", "/dev/", "nsenter", "mount -t", "sudo ", "hostpath",
                                  "pid: host", "ipc: host"])
  }

  predicate LooksLikeSecretName(name: string) {
    ContainsAny(ToAsciiUpper(name), ["SECRET", "PASSWORD", "PASSWD", "TOKEN", "PRIVATE_KEY", "API_KEY",
                                     "ACCESS_KEY", "CLIENT_SECRET", "CREDENTIAL"])
  }

  predicate IsEmptyScalar(v: Yaml) { v.Null? || v == Str("") }

  // ---------------------------------------------------------------- static values

  function StaticString(v: Yaml, lib: Library): Option<string> {
    var text := match v
      case Str(s) => Some(s)
      case Bool(b) => Some(if b then "true" else "false")
      case Num(n) => Some(lib.numberText(n))
      case _ => None;
    if text.Some? && !HasExpression(text.value) && NUL !in text.value then text else None
  }

  function StaticStrings(items: seq<Yaml>, lib: Library): Option<seq<string>> {
    if items == [] then Some([])
    else
      match StaticString(items[0], lib)
      case None => None
      case Some(s) => match StaticStrings(items[1..], lib) case None => None case Some(rest) => Some([s] + rest)
  }

  /** `static_runner_labels`: a static string, or a non-empty list of them. */
  function RunnerLabels(v: Yaml, lib: Library): Option<seq<string>> {
    match StaticString(v, lib)
    case Some(s) => Some([s])
    case None =>
      if v.Seq? then match StaticStrings(v.items, lib) case Some(labels) => (if labels == [] then None else Some(labels)) case None => None
      else None
  }

  /** `yaml_string_map`: defined when every key is a string. */
  function StringMap(v: Yaml): Option<Table> {
    if v.Mapping? then StringEntries(v.entries) else None
  }

  function StringEntries(entries: seq<(Yaml, Yaml)>): Option<Table> {
    if entries == [] then Some([])
    else if !entries[0].0.Str? then None
    else match StringEntries(entries[1..]) case None => None case Some(rest) => Some([(entries[0].0.s, entries[0].1)] + rest)
  }

  const I64_MAX: int := 0x7FFF_FFFF_FFFF_FFFF

  /** What `convert_scalar` makes of a value. */
  function ScalarOf(v: Yaml): Option<Scalar> {
    match v
    case Bool(b) => Some(Boolean(b))
    case Num(Int(i)) => if i <= I64_MAX then Some(Integer(i)) else None
    case Num(Float(digits)) => Some(Decimal(digits))
    case Str(s) => if HasSecretExpression(s) || HasExpression(s) || NUL in s then None else Some(Scalar.Text(s))
    case _ => None
  }

  /** A converted scalar determines its source value. */
  lemma ScalarVerbatim(a: Yaml, b: Yaml)
    requires ScalarOf(a).Some? && ScalarOf(a) == ScalarOf(b)
    ensures a == b
  {
  }

  function ScalarText(s: Scalar): string {
    match s
    case Text(t) => t
    case Integer(i) => if i < 0 then "-" + Decimals(-i) else Decimals(i)
    case Decimal(digits) => digits
    case Boolean(b) => if b then "true" else "false"
  }

  // ---------------------------------------------------------------- numbers in text

  function PositiveU64(v: Yaml): Option<nat> {
    match v
    case Num(Int(i)) => if 0 < i then Some(i) else None
    case Str(s) =>
      var parsed := ParseUnsigned(s, U64_MAX);
      if parsed.Some? && parsed.value > 0 then parsed else None
    case _ => None
  }

  /** The port of a service, or none: equal host and container ports, no remapping, not 0. */
  function PortOf(v: Yaml): Option<nat> {
    match PositiveU64(v)
    case Some(n) => if n <= U16_MAX then Some(n) else None
    case None =>
      if !v.Str? || HasExpression(v.s) then None
      else
        var text := match Find(v.s, ":")
          case None => Some(v.s)
          case Some(i) => if v.s[..i] == v.s[i + 1..] then Some(v.s[..i]) else None;
        match text
        case None => None
        case Some(t) => match ParseUnsigned(t, U16_MAX) case Some(n) => (if n == 0 then None else Some(n)) case None => None
  }

  /** Digits, once or twice around a colon. */
  ghost predicate PortText(s: string, n: nat) {
    ParseUnsigned(s, U16_MAX) == Some(n) || exists t :: s == t + ":" + t && ParseUnsigned(t, U16_MAX) == Some(n)
  }

  /** Text without braces holds no expression. */
  lemma NoBraces(s: string)
    requires '{' !in s && '}' !in s
    ensures !HasExpression(s)
  {
    forall i | 0 <= i <= |s| ensures !OccursAt(s, "${{", i) && !OccursAt(s, "}}", i) {
      if i + 3 <= |s| { assert s[i..i + 3][1] == s[i + 1] && s[i + 1] in s; }
      if i + 2 <= |s| { assert s[i..i + 2][0] == s[i] && s[i] in s; }
    }
  }

  lemma TwiceSplit(t: string, n: nat)
    requires ParseUnsigned(t, U16_MAX) == Some(n)
    ensures Find(t + ":" + t, ":") == Some(|t|)
    ensures ParseUnsigned(t + ":" + t, U64_MAX).None? && !HasExpression(t + ":" + t)
  {
    var s := t + ":" + t;
    forall c | c in t ensures c != '{' && c != '}' && c != ':' { ParsedChars(t, U16_MAX, c); }
    hide ParseUnsigned, HasExpression;
    assert '{' !in s && '}' !in s && ':' in s;
    NoBraces(s);
    if ParseUnsigned(s, U64_MAX).Some? { ParsedChars(s, U64_MAX, ':'); }
    assert OccursAt(s, ":", |t|);
    forall i | 0 <= i < |t| ensures !OccursAt(s, ":", i) { assert s[i..i + 1][0] == t[i] && t[i] in t; }
  }

  /** A port given twice is read as that port. */
  lemma TwicePort(t: string, n: nat)
    requires ParseUnsigned(t, U16_MAX) == Some(n)
    ensures PortOf(Str(t + ":" + t)) == if n == 0 then None else Some(n)
  {
    var s := t + ":" + t;
    TwiceSplit(t, n);
    assert s[..|t|] == t && s[|t| + 1..] == t;
    hide ParseUnsigned, HasExpression, Find;
  }

  /** Text that is read as a port but is not a number is one number twice. */
  lemma PortRead(s: string, n: nat)
    requires PortOf(Str(s)) == Some(n) && PositiveU64(Str(s)).None?
    ensures PortText(s, n) && 1 <= n <= U16_MAX
  {
    hide HasExpression, DigitsValue;
    var i := Find(s, ":").value;
    var t := s[..i];
    assert s == t + ":" + t by { assert s[i..i + 1] == ":" && s == s[..i] + s[i..i + 1] + s[i + 1..]; }
    assert ParseUnsigned(t, U16_MAX) == Some(n);
  }

  /**
   A port is taken from a number, from its digits, or from its digits twice around a colon; it is
   from 1 to 65535, and no other value has one.
   */
  lemma PortExact(v: Yaml, n: nat)
    ensures PortOf(v) == Some(n) <==> 1 <= n <= U16_MAX && (v == Num(Int(n)) || (v.Str? && PortText(v.s, n)))
  {
    hide HasExpression, DigitsValue, Find;
    if v.Str? {
      var s := v.s;
      if PortOf(v) == Some(n) && PositiveU64(v).None? { PortRead(s, n); }
      if t :| s == t + ":" + t && ParseUnsigned(t, U16_MAX) == Some(n) { TwicePort(t, n); }
    }
  }

  /** Every port is accepted in each of the three forms. */
  lemma PortPrinted(n: nat)
    requires 1 <= n <= U16_MAX
    ensures PortOf(Num(Int(n))) == PortOf(Str(Decimals(n))) == PortOf(Str(Decimals(n) + ":" + Decimals(n))) == Some(n)
  {
    PrintedParses(n, U16_MAX);
    PrintedParses(n, U64_MAX);
    TwicePort(Decimals(n), n);
  }

  // ---------------------------------------------------------------- paths and endpoints

  /** `split('/')`. */
  function Segments(s: string): (r: seq<string>)
    ensures r != []
  {
    match Find(s, "/")
    case None => [s]
    case Some(i) => [s[..i]] + Segments(s[i + 1..])
  }

  predicate Meaningful(segment: string) { segment != "" && segment != "." }

  /** What `safe_relative_path` accepts. */
  predicate SafeRelative(s: string, allowGlob: bool) {
    && s != "" && s[0] != '/' && s[0] != '~' && NUL !in s && '\\' !in s
    && (allowGlob || forall c :: c in s ==> c !in {'*', '?', '[', ']'})
    && ".." !in Segments(s)
    && exists i :: 0 <= i < |Segments(s)| && Meaningful(Segments(s)[i])
  }

  method SafeRelativePath(s: string, allowGlob: bool) returns (safe: bool)
    ensures safe == SafeRelative(s, allowGlob)
  {
    if s == "" || s[0] == '/' || s[0] == '~' || NUL in s || '\\' in s { return false; }
    if !allowGlob && ('*' in s || '?' in s || '[' in s || ']' in s) { return false; }
    var segments := Segments(s);
    var meaningful := false;
    for i := 0 to |segments|
      invariant ".." !in segments[..i]
      invariant meaningful <==> exists k :: 0 <= k < i && Meaningful(segments[k])
    {
      if segments[i] == ".." { return false; }
      if Meaningful(segments[i]) { meaningful := true; }
    }
    safe := meaningful;
  }

  function Filtered(segments: seq<string>): seq<string> {
    if segments == [] then [] else (if Meaningful(segments[0]) then [segments[0]] else []) + Filtered(segments[1..])
  }

  function JoinedWithSlash(segments: seq<string>): string {
    if segments == [] then "" else if |segments| == 1 then segments[0] else segments[0] + "/" + JoinedWithSlash(segments[1..])
  }

  /** `normalize_relative`. */
  function NormalizeRelative(s: string): string { JoinedWithSlash(Filtered(Segments(s))) }

  function HostPort(authority: string): Option<Destination> {
    match RSplitOnce(authority, ":")
    case None => Some((authority, 443))
    case Some(parts) =>
      match ParseUnsigned(parts.1, U16_MAX) case Some(n) => Some((parts.0, n)) case None => None
  }

  /** `https_endpoint`. */
  function HttpsEndpoint(url: string): Option<Destination> {
    match StripPrefix(url, "https://")
    case None => None
    case Some(rest) =>
      var authority := Segments(rest)[0];
      if authority == "" || '@' in authority || '[' in authority || ']' in authority then None
      else
        match HostPort(authority)
        case None => None
        case Some(d) =>
          if d.0 == "" || (exists i :: 0 <= i < |d.0| && IsWhitespace(d.0[i])) || d.1 == 0 then None
          else Some((ToAsciiLower(d.0), d.1))
  }

  predicate ValidComponent(s: string) {
    && s != "" && |s| <= 100 && s != "." && s != ".."
    && forall i :: 0 <= i < |s| ==> IsAsciiAlphanumeric(s[i]) || s[i] in {'-', '_', '.'}
  }

  /** `is_canonical_repository_action`: exactly `owner/repository`. */
  predicate IsCanonicalRepositoryAction(action: string) {
    var parts := Segments(action);
    |parts| == 2 && ValidComponent(parts[0]) && ValidComponent(parts[1])
  }

  /** `trim_start_matches`. */
  function TrimStartMatches(s: string, prefix: string): string
    requires prefix != ""
  {
    if prefix <= s then TrimStartMatches(s[|prefix|..], prefix) else s
  }
}
