/**
 What an action step asks for: its effective inputs, which of them are passed on and under what
 names, what the built-in actions accept, and what it means that a mapping keeps all of it.
 */
module Actions {
  import opened Results
  import opened Text
  import opened Ordering
  import opened Validation
  import opened Workflow
  import opened Expressions
  import opened Lossless
  import Templates

  /** What a step's action is mapped to; a component run becomes the step's `uses`. */
  datatype MappedRun = PlainRun(run: NativeRun) | ComponentRun(reference: string, inputs: map<string, Scalar>)

  datatype ActionMapping = ActionMapping(
    run: MappedRun, env: map<string, Scalar>, cache: Option<NativeCache>, capabilities: Option<Capabilities>, mapped: bool)

  function Noop(mapped: bool): ActionMapping {
    ActionMapping(PlainRun(Command(["true"])), map[], None, None, mapped)
  }

  const SCM_TOKEN: string := "runtrue-scm-provider-token"
  const SCM_REQUEST: SecretRequest := SecretRequest(SCM_TOKEN, "provider-api")
  const PUBLIC_API: string := "https://api.github.com"

  // ---------------------------------------------------------------- effective inputs

  type Declared = seq<(string, ActionInput)>

  predicate DistinctInputs(declared: Declared) {
    forall i, j :: 0 <= i < j < |declared| ==> declared[i].0 != declared[j].0
  }

  predicate Sorted(t: Table) { forall i, j :: 0 <= i < j < |t| ==> LexLess(t[i].0, t[j].0) }

  /** Insertion into a table kept in the order of its names; an earlier value is replaced. */
  function Put(t: Table, name: string, value: Yaml): Table {
    if t == [] || LexLess(name, t[0].0) then [(name, value)] + t
    else if name == t[0].0 then [(name, value)] + t[1..]
    else [t[0]] + Put(t[1..], name, value)
  }

  function Defaults(declared: Declared): Table {
    if declared == [] then []
    else
      var (name, input) := declared[|declared| - 1];
      var before := Defaults(declared[..|declared| - 1]);
      if input.default.Some? then Put(before, name, Str(input.default.value)) else before
  }

  function PutAll(t: Table, given: Table): Table {
    if given == [] then t
    else Put(PutAll(t, given[..|given| - 1]), given[|given| - 1].0, given[|given| - 1].1)
  }

  /** The defaults of the action, extended by the inputs of the step. */
  function Effective(declared: Declared, given: Table): Table { PutAll(Defaults(declared), given) }

  lemma {:induction false} PutHolds(t: Table, name: string, value: Yaml)
    requires Sorted(t)
    ensures Sorted(Put(t, name, value))
    ensures forall e :: e in Put(t, name, value) <==> e == (name, value) || (e in t && e.0 != name)
  {
    hide LexLess;
    if t == [] {
    } else if LexLess(name, t[0].0) {
      PutBefore(t, name, value);
    } else if name == t[0].0 {
      PutOver(t, value);
    } else {
      LexTotal(name, t[0].0);
      PutHolds(t[1..], name, value);
      PutAfter(t, Put(t[1..], name, value), name, value);
    }
  }

  lemma PutBefore(t: Table, name: string, value: Yaml)
    requires t != [] && Sorted(t) && LexLess(name, t[0].0)
    ensures Sorted([(name, value)] + t) && forall e :: e in t ==> e.0 != name
  {
    hide LexLess;
    forall i | 0 <= i < |t| ensures LexLess(name, t[i].0) {
      if i > 0 { LexTransitive(name, t[0].0, t[i].0); }
    }
    LexIrreflexive(name);
  }

  lemma PutOver(t: Table, value: Yaml)
    requires t != [] && Sorted(t)
    ensures Sorted([(t[0].0, value)] + t[1..])
    ensures forall e :: e in t && e.0 != t[0].0 <==> e in t[1..]
  {
    hide LexLess;
    LexIrreflexive(t[0].0);
    assert t == [t[0]] + t[1..];
    forall i | 0 < i < |t| ensures t[i].0 != t[0].0 { assert LexLess(t[0].0, t[i].0); }
  }

  /** The head stays in front of what the rest has become. */
  lemma PutAfter(t: Table, rest: Table, name: string, value: Yaml)
    requires t != [] && Sorted(t) && Sorted(rest) && LexLess(t[0].0, name)
    requires forall e :: e in rest <==> e == (name, value) || (e in t[1..] && e.0 != name)
    ensures Sorted([t[0]] + rest)
    ensures forall e :: e in [t[0]] + rest <==> e == (name, value) || (e in t && e.0 != name)
  {
    hide LexLess;
    var r := [t[0]] + rest;
    LexIrreflexive(name);
    assert t == [t[0]] + t[1..];
    forall i | 0 <= i < |rest| ensures LexLess(t[0].0, rest[i].0) {
      assert rest[i] in rest;
      if rest[i] != (name, value) { assert rest[i] in t[1..]; }
    }
    forall i, j | 0 <= i < j < |r| ensures LexLess(r[i].0, r[j].0) {
      if i > 0 { assert r[i] == rest[i - 1] && r[j] == rest[j - 1]; }
    }
  }

  /** The entry is a default of the action. */
  predicate IsDefault(declared: Declared, e: (string, Yaml)) {
    exists i :: 0 <= i < |declared| && declared[i].0 == e.0 && declared[i].1.default.Some?
      && e.1 == Str(declared[i].1.default.value)
  }

  lemma {:induction false} DefaultsHold(declared: Declared)
    requires DistinctInputs(declared)
    ensures Sorted(Defaults(declared))
    ensures forall e :: e in Defaults(declared) <==> IsDefault(declared, e)
  {
    if declared != [] {
      var n := |declared| - 1;
      var (name, input) := declared[n];
      var before := declared[..n];
      DefaultsHold(before);
      if input.default.Some? { PutHolds(Defaults(before), name, Str(input.default.value)); }
      forall e ensures e in Defaults(declared) <==> IsDefault(declared, e) {
        if IsDefault(before, e) {
          var i :| 0 <= i < n && before[i].0 == e.0 && before[i].1.default.Some? && e.1 == Str(before[i].1.default.value);
          assert declared[i] == before[i] && declared[i].0 != declared[n].0;
        }
        if IsDefault(declared, e) {
          var i :| 0 <= i < |declared| && declared[i].0 == e.0 && declared[i].1.default.Some? && e.1 == Str(declared[i].1.default.value);
          if i < n { assert before[i] == declared[i] && IsDefault(before, e) && declared[i].0 != declared[n].0; }
        }
      }
    }
  }

  /** The effective inputs are the given ones and the defaults of the names not given. */
  lemma {:induction false} EffectiveExact(declared: Declared, given: Table)
    requires DistinctInputs(declared) && Distinct(given)
    ensures Sorted(Effective(declared, given))
    ensures forall e :: e in Effective(declared, given) <==>
      e in given || (!HasName(given, e.0) && IsDefault(declared, e))
  {
    hide IsDefault, Put;
    if given == [] {
      DefaultsHold(declared);
    } else {
      var n := |given| - 1;
      var before, last := given[..n], given[n];
      EffectiveExact(declared, before);
      PutHolds(Effective(declared, before), last.0, last.1);
      forall e: (string, Yaml)
        ensures HasName(given, e.0) <==> HasName(before, e.0) || e.0 == last.0
        ensures e in given <==> e in before || e == last
        ensures e in before ==> e.0 != last.0
      {
        HasNameMore(given, n, e.0);
        assert given == before + [last];
        if e in before {
          var i :| 0 <= i < n && before[i] == e;
          assert given[i] == e;
        }
      }
    }
  }

  predicate IsMissing(declared: (string, ActionInput), t: Table) { declared.1.required && !HasName(t, declared.0) }

  predicate Missing(declared: Declared, t: Table) { exists i :: 0 <= i < |declared| && IsMissing(declared[i], t) }

  // ---------------------------------------------------------------- which inputs are passed on

  predicate IsToken(e: (string, Yaml), lib: Library) { IsGithubTokenExpression(lib.yamlText(e.1)) }

  predicate SecretLike(e: (string, Yaml), lib: Library) {
    HasSecretExpression(lib.yamlText(e.1)) || LooksLikeSecretName(e.0)
  }

  predicate Passed(e: (string, Yaml), lib: Library) { !IsToken(e, lib) && !SecretLike(e, lib) }

  predicate HasToken(t: Table, lib: Library) { exists i :: 0 <= i < |t| && IsToken(t[i], lib) }

  function Underscored(name: string): string {
    seq(|name|, i requires 0 <= i < |name| => if name[i] == ' ' then '_' else name[i])
  }

  const INPUT_PREFIX: string := "INPUT_"

  function InputName(name: string, lib: Library): (r: string)
    ensures StartsWith(r, INPUT_PREFIX)
  {
    INPUT_PREFIX + lib.uppercase(Underscored(name))
  }

  predicate SameInputName(a: string, b: string, lib: Library) { InputName(a, lib) == InputName(b, lib) }

  /** Every passed input is a static scalar, and no two of them take the same variable. */
  predicate InputsOk(t: Table, lib: Library) {
    && (forall i :: 0 <= i < |t| && Passed(t[i], lib) ==> ScalarOf(t[i].1).Some?)
    && forall i, j :: 0 <= i < j < |t| && Passed(t[i], lib) && Passed(t[j], lib) ==> !SameInputName(t[i].0, t[j].0, lib)
  }

  predicate NextInputOk(t: Table, k: nat, lib: Library)
    requires k < |t|
  {
    Passed(t[k], lib) ==>
      && ScalarOf(t[k].1).Some?
      && forall i :: 0 <= i < k && Passed(t[i], lib) ==> !SameInputName(t[i].0, t[k].0, lib)
  }

  lemma InputsOkMore(t: Table, k: nat, lib: Library)
    requires k < |t|
    ensures InputsOk(t[..k + 1], lib) <==> InputsOk(t[..k], lib) && NextInputOk(t, k, lib)
  {
    hide Passed, InputName, ScalarOf;
    var more, less := t[..k + 1], t[..k];
    assert forall i :: 0 <= i < k ==> more[i] == t[i] == less[i];
    assert more[k] == t[k];
  }

  /** The passed inputs under their names in lower case; of equal ones the last counts. */
  function LowerNamed(t: Table, lib: Library): map<string, Scalar> {
    if t == [] then map[]
    else
      var before, last := LowerNamed(t[..|t| - 1], lib), t[|t| - 1];
      if Passed(last, lib) && ScalarOf(last.1).Some? then before[ToAsciiLower(last.0) := ScalarOf(last.1).value] else before
  }

  function ScalarTexts(m: map<string, Scalar>): map<string, string> { map k | k in m :: ScalarText(m[k]) }

  lemma ScalarTextsMore(t: Table, k: nat, lib: Library)
    requires k < |t|
    ensures var before, more := LowerNamed(t[..k], lib), LowerNamed(t[..k + 1], lib);
      if Convertible(t[k], lib)
      then ScalarTexts(more) == ScalarTexts(before)[ToAsciiLower(t[k].0) := ScalarText(ScalarOf(t[k].1).value)]
      else more == before
  {
    assert t[..k + 1][..k] == t[..k] && t[..k + 1][k] == t[k];
  }

  predicate Convertible(e: (string, Yaml), lib: Library) { Passed(e, lib) && ScalarOf(e.1).Some? }

  predicate SameLower(a: string, b: string) { ToAsciiLower(a) == ToAsciiLower(b) }

  predicate InputAt(m: map<string, Scalar>, e: (string, Yaml)) {
    ToAsciiLower(e.0) in m && ScalarOf(e.1) == Some(m[ToAsciiLower(e.0)])
  }

  predicate AllInputsAt(m: map<string, Scalar>, t: Table, lib: Library) {
    forall i :: 0 <= i < |t| && Convertible(t[i], lib) ==> InputAt(m, t[i])
  }

  lemma {:induction false} LowerNamedFrom(t: Table, lib: Library, k: string)
    ensures (exists i :: 0 <= i < |t| && Convertible(t[i], lib) && ToAsciiLower(t[i].0) == k) ==> k in LowerNamed(t, lib)
    ensures k in LowerNamed(t, lib) ==>
      exists i :: 0 <= i < |t| && Convertible(t[i], lib) && ToAsciiLower(t[i].0) == k && InputAt(LowerNamed(t, lib), t[i])
  {
    hide Passed, ScalarOf;
    if t != [] {
      var n := |t| - 1;
      var before := t[..n];
      LowerNamedFrom(before, lib, k);
      assert forall i :: 0 <= i < n ==> before[i] == t[i];
      if k in LowerNamed(t, lib) {
        if Convertible(t[n], lib) && ToAsciiLower(t[n].0) == k {
          assert InputAt(LowerNamed(t, lib), t[n]);
        } else {
          var i :| 0 <= i < n && Convertible(before[i], lib) && ToAsciiLower(before[i].0) == k && InputAt(LowerNamed(before, lib), before[i]);
          assert InputAt(LowerNamed(t, lib), t[i]);
        }
      }
      if i :| 0 <= i < |t| && Convertible(t[i], lib) && ToAsciiLower(t[i].0) == k {
        if i < n { assert Convertible(before[i], lib); }
      }
    }
  }

  /** Inputs of a component are all kept exactly when no two that differ in case only have different values. */
  lemma {:induction false} LowerNamedExact(t: Table, lib: Library)
    ensures AllInputsAt(LowerNamed(t, lib), t, lib) <==>
      forall i, j :: 0 <= i < j < |t| && Convertible(t[i], lib) && Convertible(t[j], lib) && SameLower(t[i].0, t[j].0)
        ==> ScalarOf(t[i].1) == ScalarOf(t[j].1)
  {
    hide Passed, ScalarOf, LowerNamed;
    var m := LowerNamed(t, lib);
    if AllInputsAt(m, t, lib) {
      forall i, j | 0 <= i < j < |t| && Convertible(t[i], lib) && Convertible(t[j], lib) && SameLower(t[i].0, t[j].0)
        ensures ScalarOf(t[i].1) == ScalarOf(t[j].1)
      {
        assert InputAt(m, t[i]) && InputAt(m, t[j]);
      }
    }
    if forall i, j :: 0 <= i < j < |t| && Convertible(t[i], lib) && Convertible(t[j], lib) && SameLower(t[i].0, t[j].0)
         ==> ScalarOf(t[i].1) == ScalarOf(t[j].1)
    {
      forall i | 0 <= i < |t| && Convertible(t[i], lib) ensures InputAt(m, t[i]) {
        var k := ToAsciiLower(t[i].0);
        LowerNamedFrom(t, lib, k);
        var j :| 0 <= j < |t| && Convertible(t[j], lib) && ToAsciiLower(t[j].0) == k && InputAt(m, t[j]);
        assert SameLower(t[i].0, t[j].0) && SameLower(t[j].0, t[i].0);
        assert ScalarOf(t[i].1) == ScalarOf(t[j].1);
      }
    }
  }

  /** Such a pair: of `Mode: true` and `mode: false` only the second arrives. */
  lemma CaseCollides(lib: Library)
    requires lib.yamlText(Bool(true)) == "true\n" && lib.yamlText(Bool(false)) == "false\n"
    ensures var t := [("Mode", Bool(true)), ("mode", Bool(false))];
      Distinct(t) && Convertible(t[0], lib) && Convertible(t[1], lib) && !AllInputsAt(LowerNamed(t, lib), t, lib)
  {
    var t := [("Mode", Bool(true)), ("mode", Bool(false))];
    assert ToAsciiLower("Mode") == "mode" == ToAsciiLower("mode");
    ShortNamePassed(t[0], lib);
    ShortNamePassed(t[1], lib);
    LowerNamedExact(t, lib);
    assert SameLower(t[0].0, t[1].0) && ScalarOf(t[0].1) != ScalarOf(t[1].1);
  }

  lemma TooShort(name: string, needles: seq<string>)
    requires forall i :: 0 <= i < |needles| ==> |name| < |needles[i]|
    ensures !ContainsAny(name, needles)
  {
  }

  lemma ShortNamePassed(e: (string, Yaml), lib: Library)
    requires |e.0| < 5 && '$' !in lib.yamlText(e.1)
    ensures Passed(e, lib)
  {
    NoDollar(lib.yamlText(e.1));
    TooShort(ToAsciiUpper(e.0), ["SECRET", "PASSWORD", "PASSWD", "TOKEN", "PRIVATE_KEY", "API_KEY",
                                 "ACCESS_KEY", "CLIENT_SECRET", "CREDENTIAL"]);
  }

  /** Text without a dollar sign is neither a secret expression nor the token. */
  lemma NoDollar(s: string)
    requires '$' !in s
    ensures !HasSecretExpression(s) && !IsGithubTokenExpression(s)
  {
    var lower, compact := ToAsciiLower(s), ToAsciiLower(Compact(s));
    forall i | 0 <= i <= |lower| ensures !OccursAt(lower, "${{", i) {
      if i + 3 <= |lower| { assert lower[i..i + 3][0] == lower[i] == LowerChar(s[i]) && s[i] in s; }
    }
    CompactPart(s);
    if compact != "" { assert compact[0] == LowerChar(Compact(s)[0]) && Compact(s)[0] in Compact(s); }
  }

  lemma {:induction false} CompactPart(s: string)
    ensures forall c :: c in Compact(s) ==> c in s
  {
    if s != "" {
      CompactPart(s[1..]);
      assert s == [s[0]] + s[1..];
    }
  }

  // ---------------------------------------------------------------- container actions

  const RUNTIME: string := "/workspace/.runtrue-runtime/"
  const TOKEN_FILE: string := "RUNTRUE_GITHUB_TOKEN_FILE"
  const TOKEN_PATH: Scalar := Scalar.Text(RUNTIME + "scm-token")

  /** The variables that every prepared action gets. */
  const RUNTIME_ENV: map<string, Scalar> := map[
    "RUNTRUE_EVENT_PATH" := Scalar.Text(RUNTIME + "event.json"),
    "RUNTRUE_SCM_CONTEXT_PATH" := Scalar.Text(RUNTIME + "scm-context.json"),
    "RUNTRUE_SCM_PROXY_SOCKET" := Scalar.Text(RUNTIME + "scm-proxy.sock")]

  predicate NoInputNames(env: map<string, Scalar>) { forall k :: k in env ==> !StartsWith(k, INPUT_PREFIX) }

  lemma RuntimeNames()
    ensures NoInputNames(RUNTIME_ENV) && NoInputNames(map[]) && !StartsWith(TOKEN_FILE, INPUT_PREFIX)
  {
    assert forall k :: k in RUNTIME_ENV ==> k[0] == 'R';
    assert INPUT_PREFIX[0] == 'I' && TOKEN_FILE[0] == 'R';
  }

  predicate NamesInput(t: Table, lib: Library, k: string) {
    exists i :: 0 <= i < |t| && Passed(t[i], lib) && InputName(t[i].0, lib) == k
  }

  /** The base variables, each passed input under its name with its value, the token file, and nothing else. */
  predicate EnvCarries(t: Table, base: map<string, Scalar>, env: map<string, Scalar>, lib: Library) {
    && (forall k :: k in env ==> k in base || NamesInput(t, lib, k) || (k == TOKEN_FILE && HasToken(t, lib)))
    && (forall k :: k in base && k != TOKEN_FILE ==> k in env && env[k] == base[k])
    && (forall i :: 0 <= i < |t| && Passed(t[i], lib) ==> PassedAt(t[i], env, lib))
    && (HasToken(t, lib) ==> TOKEN_FILE in env && env[TOKEN_FILE] == TOKEN_PATH)
  }

  lemma HasTokenMore(t: Table, k: nat, lib: Library)
    requires k < |t|
    ensures HasToken(t[..k + 1], lib) <==> HasToken(t[..k], lib) || IsToken(t[k], lib)
  {
    var more, less := t[..k + 1], t[..k];
    assert more[k] == t[k];
    if HasToken(less, lib) {
      var i :| 0 <= i < |less| && IsToken(less[i], lib);
      assert IsToken(more[i], lib);
    }
    if HasToken(more, lib) {
      var i :| 0 <= i < |more| && IsToken(more[i], lib);
      if i < k { assert IsToken(less[i], lib); }
    }
  }

  lemma NamesInputMore(t: Table, k: nat, lib: Library, name: string)
    requires k < |t|
    ensures NamesInput(t[..k + 1], lib, name) <==>
      NamesInput(t[..k], lib, name) || (Passed(t[k], lib) && InputName(t[k].0, lib) == name)
  {
    var more, less := t[..k + 1], t[..k];
    assert more[k] == t[k];
    if NamesInput(less, lib, name) {
      var i :| 0 <= i < |less| && Passed(less[i], lib) && InputName(less[i].0, lib) == name;
      assert more[i] == less[i];
    }
    if NamesInput(more, lib, name) {
      var i :| 0 <= i < |more| && Passed(more[i], lib) && InputName(more[i].0, lib) == name;
      if i < k { assert less[i] == more[i]; }
    }
  }

  /** What one input adds to the variables. */
  function WithInput(e: (string, Yaml), env: map<string, Scalar>, lib: Library): map<string, Scalar> {
    if IsToken(e, lib) then env[TOKEN_FILE := TOKEN_PATH]
    else if SecretLike(e, lib) || ScalarOf(e.1).None? then env
    else env[InputName(e.0, lib) := ScalarOf(e.1).value]
  }

  lemma EnvCarriesMore(t: Table, k: nat, base: map<string, Scalar>, env: map<string, Scalar>, lib: Library)
    requires k < |t| && NoInputNames(base)
    requires EnvCarries(t[..k], base, env, lib) && NextInputOk(t, k, lib)
    ensures EnvCarries(t[..k + 1], base, WithInput(t[k], env, lib), lib)
  {
    hide IsToken, SecretLike, ScalarOf;
    RuntimeNames();
    HasTokenMore(t, k, lib);
    var more, next := t[..k + 1], WithInput(t[k], env, lib);
    forall name | name in next
      ensures name in base || NamesInput(more, lib, name) || (name == TOKEN_FILE && HasToken(more, lib))
    {
      NamesInputMore(t, k, lib, name);
    }
    forall i | 0 <= i < |more| && Passed(more[i], lib) ensures PassedAt(more[i], next, lib) {
      EnvCarriesOne(t, k, base, env, lib, i);
    }
  }

  predicate PassedAt(e: (string, Yaml), env: map<string, Scalar>, lib: Library) {
    InputName(e.0, lib) in env && ScalarOf(e.1) == Some(env[InputName(e.0, lib)])
  }

  lemma EnvCarriesOne(t: Table, k: nat, base: map<string, Scalar>, env: map<string, Scalar>, lib: Library, i: nat)
    requires i <= k < |t| && NoInputNames(base) && Passed(t[i], lib)
    requires EnvCarries(t[..k], base, env, lib) && NextInputOk(t, k, lib)
    ensures PassedAt(t[i], WithInput(t[k], env, lib), lib)
  {
    hide IsToken, SecretLike, ScalarOf;
    RuntimeNames();
    if i < k {
      assert t[..k][i] == t[i];
      assert PassedAt(t[i], env, lib);
      if Passed(t[k], lib) { assert !SameInputName(t[i].0, t[k].0, lib); }
    }
  }

  lemma TakenName(t: Table, k: nat, base: map<string, Scalar>, env: map<string, Scalar>, lib: Library)
    requires k < |t| && Passed(t[k], lib) && NoInputNames(base) && EnvCarries(t[..k], base, env, lib)
    ensures InputName(t[k].0, lib) in env <==> exists i :: 0 <= i < k && Passed(t[i], lib) && SameInputName(t[i].0, t[k].0, lib)
  {
    RuntimeNames();
    var less, name := t[..k], InputName(t[k].0, lib);
    if name in env {
      assert NamesInput(less, lib, name);
      var i :| 0 <= i < |less| && Passed(less[i], lib) && InputName(less[i].0, lib) == name;
      assert Passed(t[i], lib) && SameInputName(t[i].0, t[k].0, lib);
    }
    if i :| 0 <= i < k && Passed(t[i], lib) && SameInputName(t[i].0, t[k].0, lib) {
      assert less[i] == t[i];
    }
  }

  /** The files of the action's secrets, over whatever the inputs put under those names. */
  function WithSecrets(env: map<string, Scalar>, secrets: seq<ActionSecret>): map<string, Scalar> {
    if secrets == [] then env
    else
      var last := secrets[|secrets| - 1];
      WithSecrets(env, secrets[..|secrets| - 1])[last.fileEnv := FileOf(last)]
  }

  function FileOf(s: ActionSecret): Scalar { Scalar.Text(RUNTIME + "secrets/" + s.name) }

  predicate NamesFile(secrets: seq<ActionSecret>, k: string) { exists i :: 0 <= i < |secrets| && secrets[i].fileEnv == k }

  /** Of the secrets with one variable the last counts. */
  function LastFile(secrets: seq<ActionSecret>, k: string): (r: Option<ActionSecret>)
    ensures r.Some? <==> NamesFile(secrets, k)
    ensures r.Some? ==> r.value in secrets && r.value.fileEnv == k
  {
    if secrets == [] then None
    else
      var n := |secrets| - 1;
      assert forall i :: 0 <= i < n ==> secrets[..n][i] == secrets[i];
      if secrets[n].fileEnv == k then Some(secrets[n]) else LastFile(secrets[..n], k)
  }

  /** Secret files replace only what has their names, each by the file of the last secret with that name. */
  lemma {:induction false} WithSecretsExact(env: map<string, Scalar>, secrets: seq<ActionSecret>, k: string)
    ensures k in WithSecrets(env, secrets) <==> k in env || NamesFile(secrets, k)
    ensures k in WithSecrets(env, secrets) ==>
      WithSecrets(env, secrets)[k] == if NamesFile(secrets, k) then FileOf(LastFile(secrets, k).value) else env[k]
  {
    if secrets != [] {
      var n := |secrets| - 1;
      var before := secrets[..n];
      WithSecretsExact(env, before, k);
      assert forall i :: 0 <= i < n ==> before[i] == secrets[i];
    }
  }

  function ActionInputs(action: Option<ResolvedAction>, given: Table): Table {
    Effective(if action.Some? then action.value.inputs else [], given)
  }

  function ActionSecrets(action: Option<ResolvedAction>): seq<ActionSecret> {
    if action.Some? then action.value.secrets else []
  }

  function ActionDestinations(action: Option<ResolvedAction>): seq<Destination> {
    if action.Some? then action.value.destinations else []
  }

  function Arguments(action: Option<ResolvedAction>): Option<seq<string>> {
    if action.Some? && action.value.program.ContainerProgram? then action.value.program.arguments else None
  }

  function Entrypoint(action: Option<ResolvedAction>): Option<string> {
    if action.Some? && action.value.program.ContainerProgram? then action.value.program.entrypoint else None
  }

  /** An argument after rendering. */
  function Render(argument: string, inputs: map<string, string>): Option<string> {
    Templates.Joined(Templates.Scan(argument), inputs)
  }

  function RenderedAll(arguments: seq<string>, inputs: map<string, string>): Option<seq<string>> {
    if arguments == [] then Some([])
    else
      var n := |arguments| - 1;
      match RenderedAll(arguments[..n], inputs)
      case None => None
      case Some(before) => match Render(arguments[n], inputs) case None => None case Some(last) => Some(before + [last])
  }

  /** All arguments are rendered, in order, or none is. */
  lemma {:induction false} RenderedAllExact(arguments: seq<string>, inputs: map<string, string>)
    ensures var r := RenderedAll(arguments, inputs);
      && (r.Some? <==> forall i :: 0 <= i < |arguments| ==> Render(arguments[i], inputs).Some?)
      && (r.Some? ==> |r.value| == |arguments| && forall i :: 0 <= i < |arguments| ==> Render(arguments[i], inputs) == Some(r.value[i]))
  {
    hide Render;
    if arguments != [] {
      var n := |arguments| - 1;
      RenderedAllExact(arguments[..n], inputs);
      assert forall i :: 0 <= i < n ==> arguments[..n][i] == arguments[i];
    }
  }

  function Rendered(action: Option<ResolvedAction>, t: Table, lib: Library): Option<seq<string>> {
    if Arguments(action).None? then None else RenderedAll(Arguments(action).value, ScalarTexts(LowerNamed(t, lib)))
  }

  function RequestOf(s: ActionSecret): SecretRequest { SecretRequest(s.name, s.purpose) }

  function Requests(secrets: seq<ActionSecret>): seq<SecretRequest> {
    seq(|secrets|, i requires 0 <= i < |secrets| => RequestOf(secrets[i]))
  }

  lemma RequestsMore(secrets: seq<ActionSecret>, k: nat)
    requires k < |secrets|
    ensures Requests(secrets[..k + 1]) == Requests(secrets[..k]) + [RequestOf(secrets[k])]
    ensures secrets[..k + 1][..k] == secrets[..k] && secrets[..k + 1][k] == secrets[k]
  {
  }

  /** The secrets a container step asks for: the action's, and the provider token if an input is one. */
  function AskedSecrets(action: Option<ResolvedAction>, token: bool): seq<SecretRequest> {
    Requests(ActionSecrets(action)) + (if token then [SCM_REQUEST] else [])
  }

  function SetOf(destinations: seq<Destination>): set<Destination> { set d | d in destinations }

  function ContainerCapabilities(action: Option<ResolvedAction>, token: bool): Option<Capabilities> {
    var destinations, secrets := ActionDestinations(action), AskedSecrets(action, token);
    if destinations == [] && secrets == [] then None
    else
      Some(Capabilities(
        if destinations == [] then NoNetwork else Policy(action.None? || action.value.denyPrivate, SetOf(destinations)),
        None, None, secrets))
  }

  /** What a container action is refused for. */
  predicate ContainerOk(source: string, current: Option<string>, action: Option<ResolvedAction>, inputs: Table, lib: Library) {
    var t := ActionInputs(action, inputs);
    && (current.None? || current.value == source)
    && (action.Some? ==> !Missing(action.value.inputs, t))
    && InputsOk(t, lib)
    && (Arguments(action).Some? ==> Rendered(action, t, lib).Some?)
  }

  /** The container is run with the action's entry point and rendered arguments, the inputs and exactly the asked capabilities. */
  ghost predicate ContainerKept(action: Option<ResolvedAction>, inputs: Table, m: ActionMapping, lib: Library) {
    var t := ActionInputs(action, inputs);
    && m.run == PlainRun(Container(Entrypoint(action), Rendered(action, t, lib)))
    && (exists env :: EnvCarries(t, if action.Some? then RUNTIME_ENV else map[], env, lib)
                      && m.env == WithSecrets(env, ActionSecrets(action)))
    && m.capabilities == ContainerCapabilities(action, HasToken(t, lib))
    && m.cache == None
  }

  lemma KeptContainer(action: Option<ResolvedAction>, inputs: Table, env: map<string, Scalar>, m: ActionMapping, lib: Library)
    requires EnvCarries(ActionInputs(action, inputs), if action.Some? then RUNTIME_ENV else map[], env, lib)
    requires m == ActionMapping(
      PlainRun(Container(Entrypoint(action), Rendered(action, ActionInputs(action, inputs), lib))),
      WithSecrets(env, ActionSecrets(action)), None,
      ContainerCapabilities(action, HasToken(ActionInputs(action, inputs), lib)), true)
    ensures ContainerKept(action, inputs, m, lib)
  {
  }

  // ---- what arrives

  /** The token arrives as its file, every other input as its value under its name. */
  predicate Arrives(e: (string, Yaml), env: map<string, Scalar>, lib: Library) {
    if IsToken(e, lib) then TOKEN_FILE in env && env[TOKEN_FILE] == TOKEN_PATH else PassedAt(e, env, lib)
  }

  /** No secret file and no other input has its variable. */
  predicate HasOwnVariable(t: Table, i: nat, secrets: seq<ActionSecret>, lib: Library)
    requires i < |t|
  {
    if IsToken(t[i], lib) then !NamesFile(secrets, TOKEN_FILE)
    else
      && !NamesFile(secrets, InputName(t[i].0, lib))
      && forall j :: 0 <= j < |t| && j != i && !IsToken(t[j], lib) ==> !SameInputName(t[i].0, t[j].0, lib)
  }

  predicate AllArrive(t: Table, secrets: seq<ActionSecret>, env: map<string, Scalar>, lib: Library) {
    forall i :: 0 <= i < |t| ==> Arrives(t[i], env, lib) && HasOwnVariable(t, i, secrets, lib)
  }

  /** An input that is neither dropped nor covered by a secret file. */
  predicate NotLost(e: (string, Yaml), secrets: seq<ActionSecret>, lib: Library) {
    if IsToken(e, lib) then !NamesFile(secrets, TOKEN_FILE)
    else !SecretLike(e, lib) && !NamesFile(secrets, InputName(e.0, lib))
  }

  predicate NoneLost(t: Table, secrets: seq<ActionSecret>, lib: Library) { forall i :: 0 <= i < |t| ==> NotLost(t[i], secrets, lib) }

  /**
   The effective inputs of an accepted container action all arrive, each under a variable of its own,
   exactly when none looks like a secret without being the token, and no secret file has the
   variable of one. One that looks like a secret is dropped without a finding.
   */
  lemma InputsArriveExactly(action: Option<ResolvedAction>, inputs: Table, m: ActionMapping, lib: Library)
    requires ContainerKept(action, inputs, m, lib) && InputsOk(ActionInputs(action, inputs), lib)
    ensures AllArrive(ActionInputs(action, inputs), ActionSecrets(action), m.env, lib) <==>
      NoneLost(ActionInputs(action, inputs), ActionSecrets(action), lib)
  {
    hide IsToken, SecretLike, ScalarOf, Effective, NamesFile, ActionInputs;
    var t, secrets := ActionInputs(action, inputs), ActionSecrets(action);
    var base: map<string, Scalar> := if action.Some? then RUNTIME_ENV else map[];
    var env :| EnvCarries(t, base, env, lib) && m.env == WithSecrets(env, secrets);
    RuntimeNames();
    hide RUNTIME_ENV;
    forall i | 0 <= i < |t|
      ensures NotLost(t[i], secrets, lib) ==> Arrives(t[i], m.env, lib)
      ensures Arrives(t[i], m.env, lib) && HasOwnVariable(t, i, secrets, lib) ==> NotLost(t[i], secrets, lib)
    {
      InputArrives(t, i, base, env, secrets, lib);
    }
    if NoneLost(t, secrets, lib) {
      forall i | 0 <= i < |t| ensures HasOwnVariable(t, i, secrets, lib) { OwnNames(t, i, secrets, lib); }
    }
  }

  lemma InputArrives(
    t: Table, i: nat, base: map<string, Scalar>, env: map<string, Scalar>, secrets: seq<ActionSecret>, lib: Library)
    requires i < |t| && NoInputNames(base) && EnvCarries(t, base, env, lib)
    ensures NotLost(t[i], secrets, lib) ==> Arrives(t[i], WithSecrets(env, secrets), lib)
    ensures Arrives(t[i], WithSecrets(env, secrets), lib) && HasOwnVariable(t, i, secrets, lib) ==> NotLost(t[i], secrets, lib)
  {
    hide IsToken, SecretLike, ScalarOf, NamesFile, WithSecrets;
    RuntimeNames();
    var name := InputName(t[i].0, lib);
    WithSecretsExact(env, secrets, if IsToken(t[i], lib) then TOKEN_FILE else name);
    if IsToken(t[i], lib) { assert HasToken(t, lib); }
    if !IsToken(t[i], lib) && name in env {
      assert NamesInput(t, lib, name);
      var j :| 0 <= j < |t| && Passed(t[j], lib) && InputName(t[j].0, lib) == name;
      assert SameInputName(t[i].0, t[j].0, lib);
    }
  }

  lemma OwnNames(t: Table, i: nat, secrets: seq<ActionSecret>, lib: Library)
    requires i < |t| && InputsOk(t, lib) && NoneLost(t, secrets, lib)
    ensures HasOwnVariable(t, i, secrets, lib)
  {
    hide IsToken, SecretLike, ScalarOf, NamesFile;
    assert NotLost(t[i], secrets, lib);
    forall j | 0 <= j < |t| && j != i && !IsToken(t[i], lib) && !IsToken(t[j], lib) ensures !SameInputName(t[i].0, t[j].0, lib) {
      assert NotLost(t[j], secrets, lib);
      if j < i { assert !SameInputName(t[j].0, t[i].0, lib); }
    }
  }

  // ---------------------------------------------------------------- component actions

  predicate ComponentInputsOk(t: Table, lib: Library) {
    forall i :: 0 <= i < |t| ==> IsToken(t[i], lib) || (!SecretLike(t[i], lib) && ScalarOf(t[i].1).Some?)
  }

  lemma ComponentInputsOkMore(t: Table, k: nat, lib: Library)
    requires k < |t|
    ensures ComponentInputsOk(t[..k + 1], lib) <==> ComponentInputsOk(t[..k], lib) && (IsToken(t[k], lib) || (!SecretLike(t[k], lib) && ScalarOf(t[k].1).Some?))
  {
    hide IsToken, SecretLike, ScalarOf;
    var more, less := t[..k + 1], t[..k];
    assert more[k] == t[k] && forall i :: 0 <= i < k ==> more[i] == less[i];
  }

  predicate ComponentOk(action: ResolvedAction, inputs: Table, lib: Library) {
    var t := Effective(action.inputs, inputs);
    ComponentInputsOk(t, lib) && !Missing(action.inputs, t)
  }

  function ComponentCapabilities(apiUrl: string): Option<Capabilities>
    requires HttpsEndpoint(apiUrl).Some?
  {
    Some(Capabilities(Policy(apiUrl == PUBLIC_API, {HttpsEndpoint(apiUrl).value}), None, None, [SCM_REQUEST]))
  }

  predicate ComponentKept(action: ResolvedAction, inputs: Table, m: ActionMapping, lib: Library)
    requires action.program.ComponentProgram? && HttpsEndpoint(action.program.apiUrl).Some?
  {
    && m.run == ComponentRun(action.program.reference, LowerNamed(Effective(action.inputs, inputs), lib))
    && m.env == map[] && m.cache == None && m.capabilities == ComponentCapabilities(action.program.apiUrl)
  }

  // ---------------------------------------------------------------- built-in actions

  datatype Mode = ReadWrite | ReadOnly | WriteOnly

  datatype Builtin = Checkout | CacheAction(mode: Mode) | UploadArtifact | DownloadArtifact | BuildPush | SetupBuildx

  function BuiltinOf(normalized: string): Option<Builtin> {
    match normalized
    case "actions/checkout" => Some(Checkout)
    case "actions/cache" => Some(CacheAction(ReadWrite))
    case "actions/cache/restore" => Some(CacheAction(ReadOnly))
    case "actions/cache/save" => Some(CacheAction(WriteOnly))
    case "actions/upload-artifact" => Some(UploadArtifact)
    case "actions/download-artifact" => Some(DownloadArtifact)
    case "docker/build-push-action" => Some(BuildPush)
    case "docker/setup-buildx-action" => Some(SetupBuildx)
    case _ => None
  }

  /** `lines`, trimmed, without empty ones. */
  function Entries(text: string): seq<string> { NonEmpty(Lines(text)) }

  function NonEmpty(lines: seq<string>): (r: seq<string>)
    ensures forall i :: 0 <= i < |r| ==> r[i] != ""
  {
    if lines == [] then []
    else NonEmpty(lines[..|lines| - 1]) + (if Trim(lines[|lines| - 1]) == "" then [] else [Trim(lines[|lines| - 1])])
  }

  predicate AllSafe(paths: seq<string>) { forall i :: 0 <= i < |paths| ==> SafeRelative(paths[i], true) }

  lemma AllSafeMore(t: seq<string>, k: nat)
    requires k < |t|
    ensures AllSafe(t[..k + 1]) <==> AllSafe(t[..k]) && SafeRelative(t[k], true)
  {
    hide SafeRelative;
    var more, less := t[..k + 1], t[..k];
    assert more[k] == t[k] && forall i :: 0 <= i < k ==> more[i] == less[i];
  }

  function NormalizedAll(paths: seq<string>): (r: seq<string>)
    ensures |r| == |paths|
  {
    seq(|paths|, i requires 0 <= i < |paths| => NormalizeRelative(paths[i]))
  }

  lemma NothingNormalized()
    ensures NormalizedAll([]) == []
  {
  }

  lemma NormalizedAllMore(paths: seq<string>, k: nat)
    requires k < |paths|
    ensures NormalizedAll(paths[..k + 1]) == NormalizedAll(paths[..k]) + [NormalizeRelative(paths[k])]
    ensures k + 1 == |paths| ==> paths[..k + 1] == paths
  {
    hide NormalizeRelative;
  }

  lemma NoTilde(path: string, allowGlob: bool)
    requires SafeRelative(path, allowGlob)
    ensures !StartsWith(path, "~")
  {
    hide Segments;
  }

  function StaticBool(v: Yaml): Option<bool> {
    match v
    case Bool(b) => Some(b)
    case Str(s) => if s == "true" then Some(true) else if s == "false" then Some(false) else None
    case _ => None
  }

  function ArgumentKey(argument: string): string {
    match Find(argument, "=") case None => argument case Some(i) => argument[..i]
  }

  predicate BuildArgumentOk(argument: string) { !HasExpression(argument) && !LooksLikeSecretName(ArgumentKey(argument)) }

  predicate AllBuildArgumentsOk(arguments: seq<string>) { forall i :: 0 <= i < |arguments| ==> BuildArgumentOk(arguments[i]) }

  /** The one path of an uploaded artifact. */
  function UploadPath(v: Yaml, lib: Library): Option<string> {
    match StaticString(v, lib)
    case None => None
    case Some(text) => if |Lines(text)| == 1 && SafeRelative(text, false) then Some(NormalizeRelative(text)) else None
  }

  const CHECKOUT_OPTIONS: set<string> := {
    "fetch-depth", "fetch-tags", "lfs", "submodules", "clean", "show-progress", "set-safe-directory", "sparse-checkout-cone-mode"}

  predicate CacheInputOk(e: (string, Yaml), lib: Library) {
    && e.0 in {"path", "key", "restore-keys", "fail-on-cache-miss", "lookup-only", "enableCrossOsArchive"}
    && StaticString(e.1, lib).Some?
    && (e.0 == "path" ==> AllSafe(Entries(StaticString(e.1, lib).value)))
  }

  predicate UploadInputOk(e: (string, Yaml), lib: Library) {
    match e.0
    case "path" => UploadPath(e.1, lib).Some?
    case "retention-days" => PositiveU64(e.1).Some? && PositiveU64(e.1).value <= 90
    case _ =>
      && e.0 in {"name", "if-no-files-found", "compression-level", "overwrite", "include-hidden-files"}
      && StaticString(e.1, lib).Some?
  }

  predicate BuildInputOk(e: (string, Yaml), lib: Library) {
    var text := StaticString(e.1, lib);
    match e.0
    case "context" => text.Some? && (text.value == "." || SafeRelative(text.value, false))
    case "file" => text.Some? && SafeRelative(text.value, false)
    case "push" => StaticBool(e.1) == Some(false)
    case "load" => StaticBool(e.1) == Some(false)
    case "build-args" => text.Some? && AllBuildArgumentsOk(Entries(text.value))
    case "no-cache" => StaticBool(e.1).Some?
    case "pull" => StaticBool(e.1).Some?
    case "network" => text == Some("none")
    case _ => e.0 in {"platforms", "target", "tags", "labels", "annotations", "provenance", "sbom"} && text.Some?
  }

  /** An input that the built-in action takes over or replaces. */
  predicate InputOk(b: Builtin, e: (string, Yaml), lib: Library) {
    match b
    case Checkout => e.0 in CHECKOUT_OPTIONS && StaticString(e.1, lib).Some?
    case CacheAction(_) => CacheInputOk(e, lib)
    case UploadArtifact => UploadInputOk(e, lib)
    case DownloadArtifact => false
    case BuildPush => BuildInputOk(e, lib)
    case SetupBuildx => e.0 in {"install", "use", "cleanup"} && StaticString(e.1, lib).Some?
  }

  predicate AllOk(b: Builtin, t: Table, lib: Library) { forall i :: 0 <= i < |t| ==> InputOk(b, t[i], lib) }

  lemma AllOkMore(b: Builtin, t: Table, k: nat, lib: Library)
    requires k < |t|
    ensures AllOk(b, t[..k + 1], lib) <==> AllOk(b, t[..k], lib) && InputOk(b, t[k], lib)
  {
    assert t[..k + 1] == t[..k] + [t[k]] && t[..k + 1][k] == t[k];
  }

  lemma {:induction false} LookupMore(t: Table, k: nat, name: string)
    requires k < |t|
    ensures Lookup(t[..k + 1], name) ==
      if Lookup(t[..k], name).Some? then Lookup(t[..k], name) else if t[k].0 == name then Some(t[k].1) else None
    ensures k + 1 == |t| ==> t[..k + 1] == t
    ensures Distinct(t) && t[k].0 == name ==> Lookup(t[..k], name).None?
    decreases k
  {
    var more, less := t[..k + 1], t[..k];
    if k > 0 {
      var rest := t[1..];
      LookupMore(rest, k - 1, name);
      assert more[1..] == rest[..k] && less[1..] == rest[..k - 1] && rest[k - 1] == t[k];
      assert Distinct(t) ==> Distinct(rest);
    } else {
      assert more == [t[0]];
    }
  }

  lemma {:induction false} LookupIn(t: Table, name: string)
    ensures Lookup(t, name).Some? ==> (name, Lookup(t, name).value) in t
  {
    if t != [] && t[0].0 != name { LookupIn(t[1..], name); }
  }

  // ---- caches

  function CachePaths(t: Table, lib: Library): seq<string> {
    var v := Lookup(t, "path");
    if v.Some? && StaticString(v.value, lib).Some? then NormalizedAll(Entries(StaticString(v.value, lib).value)) else []
  }

  predicate HasCacheKey(t: Table, lib: Library) {
    var v := Lookup(t, "key");
    v.Some? && StaticString(v.value, lib).Some? && StaticString(v.value, lib).value != ""
  }

  lemma NothingCached(mode: Mode, lib: Library)
    ensures CachePaths([], lib) == [] && !HasCacheKey([], lib) && AllOk(CacheAction(mode), [], lib)
  {
  }

  lemma CacheMore(t: Table, k: nat, lib: Library)
    requires k < |t| && Distinct(t)
    ensures CachePaths(t[..k + 1], lib) ==
      if t[k].0 == "path" && StaticString(t[k].1, lib).Some? then NormalizedAll(Entries(StaticString(t[k].1, lib).value))
      else CachePaths(t[..k], lib)
    ensures t[k].0 == "path" ==> CachePaths(t[..k], lib) == []
    ensures HasCacheKey(t[..k + 1], lib) <==>
      if t[k].0 == "key" && StaticString(t[k].1, lib).Some? then StaticString(t[k].1, lib).value != "" else HasCacheKey(t[..k], lib)
  {
    LookupMore(t, k, "path");
    LookupMore(t, k, "key");
  }

  function ReadOf(mode: Mode): CacheRead { if mode.WriteOnly? then CacheReadDeny else Run }

  function WriteOf(mode: Mode): CacheWrite { if mode.ReadOnly? then CacheWriteDeny else Quarantine }

  predicate CacheKept(mode: Mode, t: Table, m: ActionMapping, lib: Library) {
    var paths := CachePaths(t, lib);
    && m.run == PlainRun(Command(["true"])) && m.env == map[]
    && m.cache == Some(NativeCache(if mode.WriteOnly? then [] else paths, if mode.ReadOnly? then [] else paths))
    && m.capabilities == Some(Capabilities(NoNetwork, Some(CachePermissions(ReadOf(mode), WriteOf(mode))), None, []))
  }

  // ---- artifacts

  function ArtifactName(t: Table, lib: Library): string {
    var v := Lookup(t, "name");
    if v.Some? && StaticString(v.value, lib).Some? then StaticString(v.value, lib).value else "artifact"
  }

  function ArtifactPath(t: Table, lib: Library): Option<string> {
    var v := Lookup(t, "path");
    if v.Some? then UploadPath(v.value, lib) else None
  }

  function Retention(t: Table): string {
    var v := Lookup(t, "retention-days");
    if v.Some? && PositiveU64(v.value).Some? && PositiveU64(v.value).value <= 90
    then Decimals(PositiveU64(v.value).value) + "d" else "7d"
  }

  lemma NothingUploaded(lib: Library)
    ensures ArtifactName([], lib) == "artifact" && ArtifactPath([], lib) == None && Retention([]) == "7d"
    ensures AllOk(UploadArtifact, [], lib)
  {
  }

  lemma UploadOk(e: (string, Yaml), lib: Library)
    ensures InputOk(UploadArtifact, e, lib) == UploadInputOk(e, lib)
    ensures e.0 == "path" && !UploadInputOk(e, lib) ==> UploadPath(e.1, lib).None?
  {
  }

  lemma UploadMore(t: Table, k: nat, lib: Library)
    requires k < |t| && Distinct(t)
    ensures ArtifactName(t[..k + 1], lib) ==
      if t[k].0 == "name" && StaticString(t[k].1, lib).Some? then StaticString(t[k].1, lib).value else ArtifactName(t[..k], lib)
    ensures ArtifactPath(t[..k + 1], lib) == if t[k].0 == "path" then UploadPath(t[k].1, lib) else ArtifactPath(t[..k], lib)
    ensures t[k].0 == "path" ==> ArtifactPath(t[..k], lib).None?
    ensures Retention(t[..k + 1]) ==
      if t[k].0 == "retention-days" && PositiveU64(t[k].1).Some? && PositiveU64(t[k].1).value <= 90
      then Decimals(PositiveU64(t[k].1).value) + "d" else Retention(t[..k])
  {
    LookupMore(t, k, "name");
    LookupMore(t, k, "path");
    LookupMore(t, k, "retention-days");
  }

  const ARTIFACT_CAPABILITIES: Option<Capabilities> := Some(Capabilities(NoNetwork, None, Some(Write), []))

  predicate UploadKept(t: Table, m: ActionMapping, outputs: map<string, NativeOutput>, lib: Library) {
    && ArtifactPath(t, lib).Some?
    && ArtifactName(t, lib) in outputs
    && outputs[ArtifactName(t, lib)] == NativeOutput(ArtifactPath(t, lib).value, Retention(t))
    && m.run == PlainRun(Command(["true"])) && m.env == map[] && m.cache == None && m.capabilities == ARTIFACT_CAPABILITIES
  }

  // ---- image builds

  function BuildContext(t: Table, lib: Library): string {
    var v := Lookup(t, "context");
    if v.Some? then NextContext(("context", v.value), ".", lib) else "."
  }

  function BuildFile(t: Table, lib: Library): string {
    var v := Lookup(t, "file");
    if v.Some? then NextFile(("file", v.value), "Dockerfile", lib) else "Dockerfile"
  }

  function NextContext(e: (string, Yaml), before: string, lib: Library): string {
    if e.0 == "context" && BuildInputOk(e, lib) then StaticString(e.1, lib).value else before
  }

  function NextFile(e: (string, Yaml), before: string, lib: Library): string {
    if e.0 == "file" && BuildInputOk(e, lib) then NormalizeRelative(StaticString(e.1, lib).value) else before
  }

  lemma BuildMore(t: Table, k: nat, lib: Library)
    requires k < |t| && Distinct(t)
    ensures BuildContext(t[..k + 1], lib) == NextContext(t[k], BuildContext(t[..k], lib), lib)
    ensures BuildFile(t[..k + 1], lib) == NextFile(t[k], BuildFile(t[..k], lib), lib)
    ensures Extras(t[..k + 1], lib) == Extras(t[..k], lib) + Extra(t[k], lib)
  {
    LookupMore(t, k, "context");
    LookupMore(t, k, "file");
    assert t[..k + 1][..k] == t[..k] && t[..k + 1][k] == t[k];
  }

  function CommaSeparated(text: string): string {
    seq(|text|, i requires 0 <= i < |text| => if text[i] == '\n' then ',' else text[i])
  }

  function BuildArguments(arguments: seq<string>): seq<string> {
    if arguments == [] then []
    else
      var last := arguments[|arguments| - 1];
      BuildArguments(arguments[..|arguments| - 1]) + (if BuildArgumentOk(last) then ["--opt", "build-arg:" + last] else [])
  }

  lemma BuildArgumentsMore(arguments: seq<string>, k: nat)
    requires k < |arguments|
    ensures BuildArguments(arguments[..k + 1]) ==
      BuildArguments(arguments[..k]) + (if BuildArgumentOk(arguments[k]) then ["--opt", "build-arg:" + arguments[k]] else [])
    ensures AllBuildArgumentsOk(arguments[..k + 1]) <==> AllBuildArgumentsOk(arguments[..k]) && BuildArgumentOk(arguments[k])
  {
    var prefix := arguments[..k + 1];
    assert prefix[..k] == arguments[..k] && prefix[k] == arguments[k];
    assert forall i :: 0 <= i < k ==> prefix[i] == arguments[..k][i];
  }

  /** What an input adds to the build command. */
  function Extra(e: (string, Yaml), lib: Library): seq<string> {
    var text := StaticString(e.1, lib);
    if e.0 == "platforms" && text.Some? then ["--opt", "platform=" + CommaSeparated(text.value)]
    else if e.0 == "target" && text.Some? then ["--opt", "target=" + text.value]
    else if e.0 == "build-args" && text.Some? then BuildArguments(Entries(text.value))
    else if e.0 == "no-cache" && StaticBool(e.1) == Some(true) then ["--no-cache"]
    else if e.0 == "network" && text == Some("none") then ["--opt", "network=none"]
    else []
  }

  function Extras(t: Table, lib: Library): seq<string> {
    if t == [] then [] else Extras(t[..|t| - 1], lib) + Extra(t[|t| - 1], lib)
  }

  function BuildCommand(context: string, file: string, extra: seq<string>): seq<string> {
    var (directory, name) := match RSplitOnce(file, "/") case None => (".", file) case Some(parts) => parts;
    ["buildctl", "build", "--frontend", "dockerfile.v0", "--local", "context=" + context,
     "--local", "dockerfile=" + directory, "--opt", "filename=" + name] + extra
  }

  predicate BuildKept(t: Table, m: ActionMapping, lib: Library) {
    && m.run == PlainRun(Command(BuildCommand(BuildContext(t, lib), BuildFile(t, lib), Extras(t, lib))))
    && m.env == map[] && m.cache == None && m.capabilities == None
  }

  // ---------------------------------------------------------------- references

  datatype Target = Refused | BuiltIn(builtin: Builtin) | Direct(image: string) | Prepared(action: ResolvedAction)

  predicate Usable(program: Program) {
    if program.ContainerProgram? then IsFullSha256Image(program.image)
    else IsExactWasmComponent(program.reference) && HttpsEndpoint(program.apiUrl).Some?
  }

  /** What an action reference stands for: a built-in action, a pinned image or a prepared action. */
  function TargetOf(reference: string, options: Options): (r: Target)
    ensures r.Prepared? ==> reference in options.actions && r.action == options.actions[reference] && Usable(r.action.program)
    ensures r.Direct? ==> IsFullSha256Image(r.image)
  {
    match RSplitOnce(reference, "@")
    case None => Refused
    case Some((action, selector)) =>
      if action == "" || selector == "" then Refused
      else if BuiltinOf(ToAsciiLower(action)).Some? then BuiltIn(BuiltinOf(ToAsciiLower(action)).value)
      else if StartsWith(action, "./") then Refused
      else if StartsWith(action, "docker://") then
        var image := TrimStartMatches(reference, "docker://");
        if IsFullSha256Image(image) then Direct(image) else Refused
      else if IsFullGitCommit(selector) && IsCanonicalRepositoryAction(action) && reference in options.actions
              && Usable(options.actions[reference].program) then Prepared(options.actions[reference])
      else Refused
  }

  /** No input carries a secret except the token, which is mapped. */
  predicate NoRawSecrets(t: Table, lib: Library) {
    forall i :: 0 <= i < |t| && HasSecretExpression(lib.yamlText(t[i].1)) ==> IsToken(t[i], lib)
  }

  lemma NoRawSecretsMore(t: Table, k: nat, lib: Library)
    requires k < |t|
    ensures NoRawSecrets(t[..k + 1], lib) <==> NoRawSecrets(t[..k], lib) && (HasSecretExpression(lib.yamlText(t[k].1)) ==> IsToken(t[k], lib))
  {
    hide HasSecretExpression, IsToken;
    var more, less := t[..k + 1], t[..k];
    assert more[k] == t[k] && forall i :: 0 <= i < k ==> more[i] == less[i];
  }

  /** The mapping keeps what the action step asks for. */
  ghost predicate TargetKept(target: Target, inputs: Table, m: ActionMapping, outputs: map<string, NativeOutput>, lib: Library) {
    match target
    case Refused => false
    case BuiltIn(b) => AllOk(b, inputs, lib) && BuiltinKept(b, inputs, m, outputs, lib)
    case Direct(image) => ContainerKept(None, inputs, m, lib)
    case Prepared(action) =>
      if action.program.ContainerProgram? then ContainerKept(Some(action), inputs, m, lib)
      else HttpsEndpoint(action.program.apiUrl).Some? && ComponentKept(action, inputs, m, lib)
  }

  predicate BuiltinKept(b: Builtin, inputs: Table, m: ActionMapping, outputs: map<string, NativeOutput>, lib: Library) {
    match b
    case Checkout => m == Noop(true)
    case CacheAction(mode) => CachePaths(inputs, lib) != [] && HasCacheKey(inputs, lib) && CacheKept(mode, inputs, m, lib)
    case UploadArtifact => UploadKept(inputs, m, outputs, lib)
    case DownloadArtifact => false
    case BuildPush => BuildKept(inputs, m, lib)
    case SetupBuildx => m == Noop(true)
  }

  ghost predicate ActionKept(
    uses: Yaml, inputs: Table, m: ActionMapping, outputs: map<string, NativeOutput>, options: Options, lib: Library)
  {
    && StaticString(uses, lib).Some? && NoRawSecrets(inputs, lib)
    && TargetKept(TargetOf(StaticString(uses, lib).value, options), inputs, m, outputs, lib)
  }

  /** Outputs are only ever added. */
  predicate Included(a: map<string, NativeOutput>, b: map<string, NativeOutput>) {
    forall k :: k in a ==> k in b && b[k] == a[k]
  }

  lemma ActionKeptGrows(
    uses: Yaml, inputs: Table, m: ActionMapping, outputs: map<string, NativeOutput>, more: map<string, NativeOutput>,
    options: Options, lib: Library)
    requires ActionKept(uses, inputs, m, outputs, options, lib) && Included(outputs, more)
    ensures ActionKept(uses, inputs, m, more, options, lib)
  {
  }
}
