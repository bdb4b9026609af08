/** The material policy for Dockerfiles: logical lines, instructions and the names they may use. */
module Dockerfile {
  import opened Results
  import opened Text

  // ---------------------------------------------------------------- words and numbers

  /** `split_ascii_whitespace`. */
  function Words(s: string): seq<string> { WordsFrom(s, "") }

  /** The words of `s` followed at once by the characters of `word`. */
  function WordsFrom(s: string, word: string): seq<string> {
    if s == "" then if word == "" then [] else [word]
    else
      var init, last := s[..|s| - 1], s[|s| - 1];
      if IsAsciiWhitespace(last) then WordsFrom(init, "") + (if word == "" then [] else [word])
      else WordsFrom(init, [last] + word)
  }

  /** `parse::<usize>`. */
  function ParseUsize(s: string): Option<nat> { ParseUnsigned(s, U64_MAX) }

  /** The offset of the first white space, if any. */
  function FirstSpace(s: string): (r: Option<nat>)
    ensures r.Some? ==> r.value < |s|
  {
    if s == "" then None
    else if IsWhitespace(s[0]) then Some(0)
    else match FirstSpace(s[1..]) case None => None case Some(i) => Some(i + 1)
  }

  // ---------------------------------------------------------------- instructions

  datatype Instruction =
    | Blank
    | ForbiddenDirective
    | Malformed
    | From(image: string, clause: StageClause)
    | BadFrom
    | Add
    | Copy(words: seq<string>)
    | RunOption
    | Other

  /** What follows the image of a FROM. */
  datatype StageClause = Unnamed | Named(name: string) | BadClause

  predicate ValidStageName(s: string) {
    && s != "" && ByteLength(s) <= 128
    && forall i :: 0 <= i < |s| ==> IsAsciiAlphanumeric(s[i]) || s[i] in {'_', '.', '-'}
  }

  /** The words after leading options, all of which must select the one platform. */
  function AfterOptions(words: seq<string>): Option<seq<string>> {
    if words == [] || !StartsWith(words[0], "--") then Some(words)
    else if words[0] == "--platform=linux/amd64" then AfterOptions(words[1..])
    else None
  }

  function ReadFrom(arguments: string): Instruction {
    match AfterOptions(Words(arguments))
    case None => BadFrom
    case Some(words) =>
      if words == [] || '$' in words[0] then BadFrom
      else if |words| == 1 then From(words[0], Unnamed)
      else if |words| == 3 && ToAsciiLower(words[1]) == "as" && ValidStageName(words[2]) then From(words[0], Named(words[2]))
      else From(words[0], BadClause)
  }

  /** One logical line, read as the policy reads it. */
  function ReadInstruction(raw: string): Instruction {
    var line := Trim(raw);
    if line == "" then Blank
    else if line[0] == '#' then
      var directive := ToAsciiLower(TrimStart(line[1..]));
      if StartsWith(directive, "syntax=") || StartsWith(directive, "escape=") then ForbiddenDirective else Blank
    else
      match FirstSpace(line)
      case None => Malformed
      case Some(i) =>
        var name, arguments := ToAsciiUpper(line[..i]), line[i + 1..];
        if name == "FROM" then ReadFrom(arguments)
        else if name == "ADD" then Add
        else if name == "COPY" then Copy(Words(arguments))
        else if name == "RUN" && StartsWith(TrimStart(arguments), "--") then RunOption
        else Other
  }

  /** The instructions of the logical lines: a trailing backslash joins a line to the next with one blank. */
  function Instructions(physical: seq<string>, pending: string): seq<Instruction> {
    if physical == [] then if pending == "" then [] else [ReadInstruction(pending)]
    else
      var line := TrimEnd(physical[0]);
      if EndsWith(line, "\\") then Instructions(physical[1..], pending + line[..|line| - 1] + " ")
      else [ReadInstruction(pending + line)] + Instructions(physical[1..], "")
  }

  // ---------------------------------------------------------------- the check

  datatype Violation =
    | NotUtf8 | DirectiveForbidden | InstructionMalformed | FromMalformed | FromNotAllowed
    | AddForbidden | CopyMalformed | CopyNotAllowed | RunOptionForbidden | NoFrom

  /** The names and the number of the stages so far. */
  datatype Stages = Stages(names: set<string>, count: nat)

  predicate ImageAllowed(image: string, names: set<string>, allowed: seq<string>) {
    ToAsciiLower(image) == "scratch" || ToAsciiLower(image) in names || image in allowed
  }

  predicate SourceAllowed(source: string, s: Stages, allowed: seq<string>) {
    || (ParseUsize(source).Some? && ParseUsize(source).value < s.count)
    || ToAsciiLower(source) in s.names
    || source in allowed
  }

  /** The words of a COPY, left to right. */
  function CheckCopy(words: seq<string>, s: Stages, allowed: seq<string>): Result<(), Violation> {
    if words == [] then Ok(())
    else
      match StripPrefix(words[0], "--from=")
      case None => if words[0] == "--from" then Err(CopyMalformed) else CheckCopy(words[1..], s, allowed)
      case Some(source) => if SourceAllowed(source, s, allowed) then CheckCopy(words[1..], s, allowed) else Err(CopyNotAllowed)
  }

  function CheckInstruction(i: Instruction, s: Stages, allowed: seq<string>): Result<Stages, Violation> {
    match i
    case Blank => Ok(s)
    case Other => Ok(s)
    case ForbiddenDirective => Err(DirectiveForbidden)
    case Malformed => Err(InstructionMalformed)
    case BadFrom => Err(FromMalformed)
    case From(image, clause) =>
      if !ImageAllowed(image, s.names, allowed) then Err(FromNotAllowed)
      else if clause.BadClause? then Err(FromMalformed)
      else Ok(Stages(if clause.Named? then s.names + {ToAsciiLower(clause.name)} else s.names, s.count + 1))
    case Add => Err(AddForbidden)
    case Copy(words) =>
      var checked := CheckCopy(words, s, allowed);
      if checked.Err? then Err(checked.error) else Ok(s)
    case RunOption => Err(RunOptionForbidden)
  }

  function CheckAll(code: seq<Instruction>, s: Stages, allowed: seq<string>): Result<Stages, Violation> {
    if code == [] then Ok(s)
    else
      match CheckInstruction(code[0], s, allowed)
      case Err(v) => Err(v)
      case Ok(next) => CheckAll(code[1..], next, allowed)
  }

  function Policy(code: seq<Instruction>, allowed: seq<string>): Result<(), Violation> {
    match CheckAll(code, Stages({}, 0), allowed)
    case Err(v) => Err(v)
    case Ok(s) => if s.count == 0 then Err(NoFrom) else Ok(())
  }

  /** The validator: `None` stands for bytes that are not UTF-8. */
  method ValidateDockerfilePolicy(bytes: Option<string>, allowed: seq<string>) returns (res: Result<(), Violation>)
    ensures res == if bytes.None? then Err(NotUtf8) else Policy(Instructions(Lines(bytes.value), ""), allowed)
  {
    if bytes.None? { return Err(NotUtf8); }
    var physical := Lines(bytes.value);
    var stages := Stages({}, 0);
    var pending := "";
    for i := 0 to |physical|
      invariant CheckAll(Instructions(physical, ""), Stages({}, 0), allowed)
             == CheckAll(Instructions(physical[i..], pending), stages, allowed)
    {
      assert physical[i..][0] == physical[i] && physical[i..][1..] == physical[i + 1..];
      var line := TrimEnd(physical[i]);
      var continued := EndsWith(line, "\\");
      pending := pending + (if continued then line[..|line| - 1] else line);
      if continued {
        pending := pending + " ";
        continue;
      }
      ghost var rest := Instructions(physical[i + 1..], "");
      assert ([ReadInstruction(pending)] + rest)[1..] == rest;
      var checked := CheckInstruction(ReadInstruction(pending), stages, allowed);
      if checked.Err? { return Err(checked.error); }
      stages := checked.value;
      pending := "";
    }
    assert physical[|physical|..] == [];
    if pending != "" {
      assert [ReadInstruction(pending)][1..] == [];
      var checked := CheckInstruction(ReadInstruction(pending), stages, allowed);
      if checked.Err? { return Err(checked.error); }
      stages := checked.value;
    }
    if stages.count == 0 { return Err(NoFrom); }
    res := Ok(());
  }
}
