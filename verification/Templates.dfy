/** Rendering of action arguments: literal text with `${{ inputs.<name> }}` references. */
module Templates {
  import opened Results
  import opened Text

  const OPEN: string := "${{"
  const CLOSE: string := "}}"
  const INPUTS: string := "inputs."

  // ---------------------------------------------------------------- what rendering means

  datatype Piece = Literal(text: string) | Expression(text: string) | Unterminated

  /** The pieces of a template, read left to right. */
  function Scan(template: string): seq<Piece> {
    match Find(template, OPEN)
    case None => [Literal(template)]
    case Some(start) =>
      var expression := template[start + 3..];
      match Find(expression, CLOSE)
      case None => [Literal(template[..start]), Unterminated]
      case Some(end) => [Literal(template[..start]), Expression(expression[..end])] + Scan(expression[end + 2..])
  }

  /** What a piece stands for; the names of `inputs` are in lower case. */
  function Value(p: Piece, inputs: map<string, string>): Option<string> {
    match p
    case Literal(text) => Some(text)
    case Unterminated => None
    case Expression(text) =>
      match StripPrefix(Trim(text), INPUTS)
      case None => None
      case Some(name) => if ToAsciiLower(name) in inputs then Some(inputs[ToAsciiLower(name)]) else None
  }

  /** The values of the pieces, joined; none of them is read again. */
  function Joined(pieces: seq<Piece>, inputs: map<string, string>): Option<string> {
    if pieces == [] then Some("")
    else
      match Value(pieces[0], inputs)
      case None => None
      case Some(v) => Before(v, Joined(pieces[1..], inputs))
  }

  function Before(s: string, rest: Option<string>): Option<string> {
    match rest case None => None case Some(r) => Some(s + r)
  }

  /** Joining fails exactly when some piece is unterminated, is not an input or names an unknown one. */
  lemma {:induction false} JoinedExact(pieces: seq<Piece>, inputs: map<string, string>)
    ensures Joined(pieces, inputs).None? <==> exists i :: 0 <= i < |pieces| && Value(pieces[i], inputs).None?
  {
    if pieces != [] {
      JoinedExact(pieces[1..], inputs);
      if i :| 0 <= i < |pieces| && Value(pieces[i], inputs).None? {
        if i > 0 { assert Value(pieces[1..][i - 1], inputs).None?; }
      }
      if Joined(pieces[1..], inputs).None? {
        var i :| 0 <= i < |pieces[1..]| && Value(pieces[1..][i], inputs).None?;
        assert Value(pieces[i + 1], inputs).None?;
      }
    }
  }

  lemma JoinedTwo(a: Piece, b: Piece, rest: seq<Piece>, inputs: map<string, string>)
    requires Value(a, inputs).Some?
    ensures Joined([a, b] + rest, inputs) ==
      if Value(b, inputs).None? then None
      else Before(Value(a, inputs).value + Value(b, inputs).value, Joined(rest, inputs))
  {
    var all := [a, b] + rest;
    assert all[0] == a && all[1..][0] == b && all[1..][1..] == rest;
    if Value(b, inputs).Some? && Joined(rest, inputs).Some? {
      var va, vb, vr := Value(a, inputs).value, Value(b, inputs).value, Joined(rest, inputs).value;
      assert va + (vb + vr) == va + vb + vr;
    }
  }

  /** What the template means, given its first marker and the text up to the closing one. */
  lemma NextReference(remaining: string, start: nat, inputs: map<string, string>)
    requires Find(remaining, OPEN) == Some(start)
    ensures var literal, expression := remaining[..start], remaining[start + 3..];
      Joined(Scan(remaining), inputs) ==
        match Find(expression, CLOSE)
        case None => None
        case Some(end) =>
          match Value(Expression(expression[..end]), inputs)
          case None => None
          case Some(v) => Before(literal + v, Joined(Scan(expression[end + 2..]), inputs))
  {
    var literal, expression := remaining[..start], remaining[start + 3..];
    match Find(expression, CLOSE)
    case None =>
      assert Scan(remaining) == [Literal(literal), Unterminated] + [];
      JoinedTwo(Literal(literal), Unterminated, [], inputs);
    case Some(end) =>
      JoinedTwo(Literal(literal), Expression(expression[..end]), Scan(expression[end + 2..]), inputs);
  }

  lemma NoReference(remaining: string, inputs: map<string, string>)
    requires Find(remaining, OPEN).None?
    ensures Joined(Scan(remaining), inputs) == Some(remaining)
  {
    assert [Literal(remaining)][1..] == [] && remaining + "" == remaining;
  }

  method RenderActionArgument(template: string, inputs: map<string, string>) returns (r: Option<string>)
    ensures r == Joined(Scan(template), inputs)
  {
    hide Joined, Scan, Trim;
    var rendered := "";
    var remaining := template;
    BeforeNothing(Joined(Scan(template), inputs));
    while true
      invariant Joined(Scan(template), inputs) == Before(rendered, Joined(Scan(remaining), inputs))
      decreases |remaining|
    {
      var start := Find(remaining, OPEN);
      if start.None? { break; }
      NextReference(remaining, start.value, inputs);
      var literal := remaining[..start.value];
      var expression := remaining[start.value + 3..];
      var end := Find(expression, CLOSE);
      if end.None? { return None; }
      var path := StripPrefix(Trim(expression[..end.value]), INPUTS);
      if path.None? { return None; }
      if ToAsciiLower(path.value) !in inputs { return None; }
      var value := inputs[ToAsciiLower(path.value)];
      ghost var rest := Joined(Scan(expression[end.value + 2..]), inputs);
      BeforeBefore(rendered, literal + value, rest);
      assert rendered + (literal + value) == rendered + literal + value;
      rendered := rendered + literal + value;
      remaining := expression[end.value + 2..];
    }
    NoReference(remaining, inputs);
    r := Some(rendered + remaining);
  }

  lemma BeforeNothing(rest: Option<string>)
    ensures Before("", rest) == rest
  {
    if rest.Some? { assert "" + rest.value == rest.value; }
  }

  lemma BeforeBefore(a: string, b: string, rest: Option<string>)
    ensures Before(a, Before(b, rest)) == Before(a + b, rest)
  {
    if rest.Some? { assert a + (b + rest.value) == a + b + rest.value; }
  }

  // ---------------------------------------------------------------- printed templates

  /** A reference as an author may write it, with white space on either side. */
  datatype Reference = Reference(left: string, name: string, right: string)

  /** Literal text before each reference, and after the last one. */
  datatype Template = Template(segments: seq<(string, Reference)>, tail: string)

  predicate AllWhitespace(s: string) { forall i :: 0 <= i < |s| ==> IsWhitespace(s[i]) }

  function Body(r: Reference): string { r.left + (INPUTS + r.name) + r.right }

  /** The reference ends where it should: its name neither ends in white space nor holds a closing marker. */
  predicate WellFormedReference(r: Reference) {
    && AllWhitespace(r.left) && AllWhitespace(r.right)
    && (r.name != "" ==> !IsWhitespace(r.name[|r.name| - 1]))
    && !Contains(Body(r) + "}", CLOSE)
  }

  predicate WellFormed(t: Template) {
    && !Contains(t.tail, OPEN)
    && forall i :: 0 <= i < |t.segments| ==> !Contains(t.segments[i].0, OPEN) && WellFormedReference(t.segments[i].1)
  }

  function Printed(t: Template): string
    decreases |t.segments|
  {
    if t.segments == [] then t.tail
    else
      var (literal, reference) := t.segments[0];
      literal + OPEN + (Body(reference) + CLOSE + Printed(Template(t.segments[1..], t.tail)))
  }

  predicate KnownName(name: string, inputs: map<string, string>) { ToAsciiLower(name) in inputs }

  predicate AllKnown(t: Template, inputs: map<string, string>) {
    forall i :: 0 <= i < |t.segments| ==> KnownName(t.segments[i].1.name, inputs)
  }

  /** The literals and the looked-up values, concatenated. */
  function Filled(t: Template, inputs: map<string, string>): string
    requires AllKnown(t, inputs)
    decreases |t.segments|
  {
    if t.segments == [] then t.tail
    else
      var (literal, reference) := t.segments[0];
      assert KnownName(reference.name, inputs);
      literal + inputs[ToAsciiLower(reference.name)] + Filled(Template(t.segments[1..], t.tail), inputs)
  }

  lemma FindIs(s: string, needle: string, i: nat)
    requires OccursAt(s, needle, i)
    requires forall j :: 0 <= j < i ==> !OccursAt(s, needle, j)
    ensures Find(s, needle) == Some(i)
  {
    assert Contains(s, needle) by { assert 0 <= i <= |s| && OccursAt(s, needle, i); }
  }

  /** An opening marker cannot begin inside the literal before it. */
  lemma FindOpen(literal: string, rest: string)
    requires !Contains(literal, OPEN)
    ensures Find(literal + OPEN + rest, OPEN) == Some(|literal|)
  {
    var s := literal + OPEN + rest;
    forall j | 0 <= j < |literal| ensures !OccursAt(s, OPEN, j) {
      if j + 3 <= |literal| {
        assert s[j..j + 3] == literal[j..j + 3];
        assert !OccursAt(literal, OPEN, j);
      } else {
        assert s[|literal|] == '$';
        assert s[j..j + 3][|literal| - j] == '$';
      }
    }
    assert s[|literal|..|literal| + 3] == OPEN;
    FindIs(s, OPEN, |literal|);
  }

  lemma FindClose(body: string, rest: string)
    requires !Contains(body + "}", CLOSE)
    ensures Find(body + CLOSE + rest, CLOSE) == Some(|body|)
  {
    var s := body + CLOSE + rest;
    forall j | 0 <= j < |body| ensures !OccursAt(s, CLOSE, j) {
      assert s[j..j + 2] == (body + "}")[j..j + 2];
      assert !OccursAt(body + "}", CLOSE, j);
    }
    assert s[|body|..|body| + 2] == CLOSE;
    FindIs(s, CLOSE, |body|);
  }

  lemma {:induction false} TrimStartSkips(left: string, s: string)
    requires AllWhitespace(left) && s != "" && !IsWhitespace(s[0])
    ensures TrimStart(left + s) == s
  {
    if left == "" {
      assert left + s == s;
    } else {
      assert (left + s)[1..] == left[1..] + s;
      assert IsWhitespace((left + s)[0]);
      TrimStartSkips(left[1..], s);
    }
  }

  lemma {:induction false} TrimEndSkips(s: string, right: string)
    requires AllWhitespace(right) && s != "" && !IsWhitespace(s[|s| - 1])
    ensures TrimEnd(s + right) == s
  {
    if right == "" {
      assert s + right == s;
    } else {
      var t := s + right;
      assert t[..|t| - 1] == s + right[..|right| - 1];
      assert IsWhitespace(t[|t| - 1]) by { assert t[|t| - 1] == right[|right| - 1]; }
      TrimEndSkips(s, right[..|right| - 1]);
    }
  }

  lemma ReferenceValue(r: Reference, inputs: map<string, string>)
    requires WellFormedReference(r)
    ensures Value(Expression(Body(r)), inputs) == if KnownName(r.name, inputs) then Some(inputs[ToAsciiLower(r.name)]) else None
  {
    var path := INPUTS + r.name;
    assert path[0] == 'i';
    assert !IsWhitespace(path[|path| - 1]);
    assert Body(r) == r.left + (path + r.right);
    TrimStartSkips(r.left, path + r.right);
    TrimEndSkips(path, r.right);
    assert Trim(Body(r)) == path;
    assert path[|INPUTS|..] == r.name;
  }

  /** A printed template means its literals and values when every name is known in lower case, and nothing otherwise. */
  lemma {:induction false} PrintedScan(t: Template, inputs: map<string, string>)
    requires WellFormed(t)
    ensures Joined(Scan(Printed(t)), inputs) == if AllKnown(t, inputs) then Some(Filled(t, inputs)) else None
    decreases |t.segments|
  {
    if t.segments == [] {
      assert Scan(t.tail) == [Literal(t.tail)];
      assert [Literal(t.tail)][1..] == [] && t.tail + "" == t.tail;
    } else {
      var (literal, reference) := t.segments[0];
      var rest := Template(t.segments[1..], t.tail);
      var after := Printed(rest);
      PrintedScan(rest, inputs);
      ScanReference(literal, reference, after);
      JoinedTwo(Literal(literal), Expression(Body(reference)), Scan(after), inputs);
      ReferenceValue(reference, inputs);
      KnownSplit(t, inputs);
    }
  }

  lemma ScanReference(literal: string, reference: Reference, after: string)
    requires !Contains(literal, OPEN) && WellFormedReference(reference)
    ensures Scan(literal + OPEN + (Body(reference) + CLOSE + after))
         == [Literal(literal), Expression(Body(reference))] + Scan(after)
  {
    var expression := Body(reference) + CLOSE + after;
    var s := literal + OPEN + expression;
    FindOpen(literal, expression);
    FindClose(Body(reference), after);
    assert s[..|literal|] == literal && s[|literal| + 3..] == expression;
    assert expression[..|Body(reference)|] == Body(reference) && expression[|Body(reference)| + 2..] == after;
  }

  lemma KnownSplit(t: Template, inputs: map<string, string>)
    requires t.segments != []
    ensures AllKnown(t, inputs) <==> KnownName(t.segments[0].1.name, inputs) && AllKnown(Template(t.segments[1..], t.tail), inputs)
  {
    var rest := t.segments[1..];
    assert forall i :: 0 <= i < |rest| ==> rest[i] == t.segments[i + 1];
    if KnownName(t.segments[0].1.name, inputs) && AllKnown(Template(rest, t.tail), inputs) {
      forall i | 0 <= i < |t.segments| ensures KnownName(t.segments[i].1.name, inputs) {
        if i > 0 { assert t.segments[i] == rest[i - 1]; }
      }
    }
  }
}
