/** What an accepted Dockerfile can draw on: its stages as a graph of FROM and COPY edges. */
module DockerfileGraph {
  import opened Results
  import opened Text
  import opened Dockerfile

  // ---------------------------------------------------------------- an independent reading

  datatype Stage = Stage(image: string, clause: StageClause)

  /** The stages that a list of instructions declares, in order. */
  function StagesOf(code: seq<Instruction>): seq<Stage> {
    if code == [] then []
    else
      var last := code[|code| - 1];
      StagesOf(code[..|code| - 1]) + (if last.From? then [Stage(last.image, last.clause)] else [])
  }

  predicate IsNamed(s: Stage, name: string) { s.clause.Named? && ToAsciiLower(s.clause.name) == name }

  /** Some stage of the list carries the name. */
  predicate Declares(stages: seq<Stage>, name: string) {
    exists i :: 0 <= i < |stages| && IsNamed(stages[i], name)
  }

  /** The images and stages that the words of a COPY name. */
  predicate CopiesFrom(words: seq<string>, source: string) {
    "--from=" + source in words
  }

  /** One instruction is acceptable after the instructions before it. */
  ghost predicate InstructionFits(code: seq<Instruction>, k: nat, allowed: seq<string>)
    requires k < |code|
  {
    var before := StagesOf(code[..k]);
    match code[k]
    case Blank => true
    case Other => true
    case From(image, clause) =>
      && !clause.BadClause?
      && (ToAsciiLower(image) == "scratch" || Declares(before, ToAsciiLower(image)) || image in allowed)
    case Copy(words) =>
      && "--from" !in words
      && forall source: string :: CopiesFrom(words, source) ==> SourceKnown(source, before, allowed)
    case _ => false
  }

  predicate SourceKnown(source: string, before: seq<Stage>, allowed: seq<string>) {
    || (ParseUsize(source).Some? && ParseUsize(source).value < |before|)
    || Declares(before, ToAsciiLower(source))
    || source in allowed
  }

  /** The running state is a summary of the stages declared so far. */
  ghost predicate Summarizes(s: Stages, stages: seq<Stage>) {
    s.count == |stages| && forall name: string :: name in s.names <==> Declares(stages, name)
  }

  lemma SummaryStep(s: Stages, stages: seq<Stage>, stage: Stage)
    requires Summarizes(s, stages) && !stage.clause.BadClause?
    ensures Summarizes(Stages(if stage.clause.Named? then s.names + {ToAsciiLower(stage.clause.name)} else s.names, s.count + 1), stages + [stage])
  {
    var more := stages + [stage];
    forall name: string
      ensures Declares(more, name) <==> Declares(stages, name) || IsNamed(stage, name)
    {
      if i :| 0 <= i < |stages| && IsNamed(stages[i], name) { assert IsNamed(more[i], name); }
      if IsNamed(stage, name) { assert IsNamed(more[|stages|], name); }
    }
  }

  lemma {:induction false} CheckCopyExact(words: seq<string>, s: Stages, stages: seq<Stage>, allowed: seq<string>)
    requires Summarizes(s, stages)
    ensures CheckCopy(words, s, allowed).Ok? <==>
      && "--from" !in words
      && forall source: string :: CopiesFrom(words, source) ==> SourceKnown(source, stages, allowed)
  {
    if words != [] {
      CheckCopyExact(words[1..], s, stages, allowed);
      assert words == [words[0]] + words[1..];
      var stripped := StripPrefix(words[0], "--from=");
      forall source: string
        ensures CopiesFrom(words, source) <==> CopiesFrom(words[1..], source) || words[0] == "--from=" + source
      {
      }
      if stripped.Some? {
        assert words[0] == "--from=" + stripped.value;
        assert CopiesFrom(words, stripped.value);
        assert SourceAllowed(stripped.value, s, allowed) == SourceKnown(stripped.value, stages, allowed);
        forall source: string | words[0] == "--from=" + source ensures source == stripped.value {
          assert ("--from=" + source)[|"--from="|..] == source;
        }
        assert |words[0]| >= |"--from="|;
      } else {
        forall source: string ensures words[0] != "--from=" + source {
          assert "--from=" <= "--from=" + source;
        }
      }
    }
  }

  /** The fold and the declarative reading agree, and the state after acceptance summarizes the stages. */
  lemma {:induction false} CheckAllExact(code: seq<Instruction>, k: nat, s: Stages, allowed: seq<string>)
    requires k <= |code| && Summarizes(s, StagesOf(code[..k]))
    ensures CheckAll(code[k..], s, allowed).Ok? <==> forall j :: k <= j < |code| ==> InstructionFits(code, j, allowed)
    ensures CheckAll(code[k..], s, allowed).Ok? ==> Summarizes(CheckAll(code[k..], s, allowed).value, StagesOf(code))
    decreases |code| - k
  {
    if k == |code| {
      assert code[..k] == code;
    } else {
      assert code[k..][0] == code[k] && code[k..][1..] == code[k + 1..];
      assert code[..k + 1][..k] == code[..k];
      var checked := CheckInstruction(code[k], s, allowed);
      CheckInstructionExact(code, k, s, allowed);
      if checked.Ok? {
        CheckAllExact(code, k + 1, checked.value, allowed);
      }
    }
  }

  lemma CheckInstructionExact(code: seq<Instruction>, k: nat, s: Stages, allowed: seq<string>)
    requires k < |code| && Summarizes(s, StagesOf(code[..k]))
    ensures CheckInstruction(code[k], s, allowed).Ok? <==> InstructionFits(code, k, allowed)
    ensures CheckInstruction(code[k], s, allowed).Ok? ==>
      Summarizes(CheckInstruction(code[k], s, allowed).value, StagesOf(code[..k + 1]))
  {
    var before := StagesOf(code[..k]);
    assert code[..k + 1][..k] == code[..k];
    match code[k]
    case From(image, clause) =>
      if !clause.BadClause? { SummaryStep(s, before, Stage(image, clause)); }
    case Copy(words) => CheckCopyExact(words, s, before, allowed);
    case _ => assert before + [] == before;
  }

  /** A Dockerfile is accepted exactly when it has a stage and every instruction fits what precedes it. */
  lemma PolicyExact(code: seq<Instruction>, allowed: seq<string>)
    ensures Policy(code, allowed).Ok? <==>
      StagesOf(code) != [] && forall k :: 0 <= k < |code| ==> InstructionFits(code, k, allowed)
  {
    assert code[..0] == [] && code[0..] == code;
    CheckAllExact(code, 0, Stages({}, 0), allowed);
  }

  // ---------------------------------------------------------------- the graph

  datatype Node = StageNode(index: nat) | ImageNode(image: string)

  /** The position of the FROM that declares stage `i`. */
  ghost predicate DeclaredAt(code: seq<Instruction>, k: nat, i: nat) {
    k < |code| && code[k].From? && |StagesOf(code[..k])| == i
  }

  /** `FROM name`: to an earlier stage of that name if there is one, otherwise to the image. */
  ghost predicate FromEdge(stages: seq<Stage>, i: nat, to: Node)
    requires i < |stages|
  {
    var name := ToAsciiLower(stages[i].image);
    match to
    case StageNode(j) => j < i && IsNamed(stages[j], name)
    case ImageNode(image) => image == stages[i].image && !Declares(stages[..i], name)
  }

  /** `COPY --from=source` inside stage `i`: by number, by name, or an image. */
  ghost predicate CopyEdge(code: seq<Instruction>, i: nat, to: Node) {
    exists k: nat, source: string :: CopyAt(code, k, i, source) && Names(source, StagesOf(code[..k]), to)
  }

  ghost predicate CopyAt(code: seq<Instruction>, k: nat, i: nat, source: string) {
    k < |code| && code[k].Copy? && |StagesOf(code[..k])| == i + 1 && CopiesFrom(code[k].words, source)
  }

  ghost predicate Names(source: string, before: seq<Stage>, to: Node) {
    match to
    case StageNode(j) =>
      j < |before| && (ParseUsize(source) == Some(j) || IsNamed(before[j], ToAsciiLower(source)))
    case ImageNode(image) =>
      && image == source && !Declares(before, ToAsciiLower(source))
      && !(ParseUsize(source).Some? && ParseUsize(source).value < |before|)
  }

  predicate PinnedMaterial(image: string, allowed: seq<string>) {
    ToAsciiLower(image) == "scratch" || image in allowed
  }

  lemma {:induction false} StagesPrefix(code: seq<Instruction>, k: nat)
    requires k <= |code|
    ensures StagesOf(code[..k]) <= StagesOf(code)
  {
    if k < |code| {
      StagesPrefix(code[..|code| - 1], k);
      assert code[..|code| - 1][..k] == code[..k];
    } else {
      assert code[..k] == code;
    }
  }

  /** Every stage has its FROM instruction. */
  lemma {:induction false} FindFrom(code: seq<Instruction>, i: nat) returns (k: nat)
    requires i < |StagesOf(code)|
    ensures DeclaredAt(code, k, i)
    ensures StagesOf(code)[i] == Stage(code[k].image, code[k].clause) && StagesOf(code[..k]) == StagesOf(code)[..i]
  {
    var init := code[..|code| - 1];
    if i < |StagesOf(init)| {
      k := FindFrom(init, i);
      assert init[..k] == code[..k];
    } else {
      k := |code| - 1;
    }
  }

  /** FROM edges go strictly backwards, or end at scratch or an allowlisted image. */
  lemma FromEdgeSafe(code: seq<Instruction>, allowed: seq<string>, i: nat, to: Node)
    requires Policy(code, allowed).Ok? && i < |StagesOf(code)|
    requires FromEdge(StagesOf(code), i, to)
    ensures match to case StageNode(j) => j < i case ImageNode(image) => PinnedMaterial(image, allowed)
  {
    PolicyExact(code, allowed);
    var k := FindFrom(code, i);
    assert InstructionFits(code, k, allowed);
  }

  /** Every stage has a FROM edge. */
  lemma FromEdgeExists(code: seq<Instruction>, i: nat) returns (to: Node)
    requires i < |StagesOf(code)|
    ensures FromEdge(StagesOf(code), i, to)
  {
    var stages := StagesOf(code);
    var name := ToAsciiLower(stages[i].image);
    if Declares(stages[..i], name) {
      var j :| 0 <= j < |stages[..i]| && IsNamed(stages[..i][j], name);
      to := StageNode(j);
    } else {
      to := ImageNode(stages[i].image);
    }
  }

  /** A path of FROM edges from stage `path[0]` through stages to the end of the list. */
  ghost predicate FromPath(stages: seq<Stage>, path: seq<nat>) {
    && path != []
    && (forall n :: 0 <= n < |path| ==> path[n] < |stages|)
    && forall n :: 0 <= n < |path| - 1 ==> FromEdge(stages, path[n], StageNode(path[n + 1]))
  }

  /** Whichever stage of a repeated name one follows, a FROM path has at most as many hops as stages before it. */
  lemma {:induction false} FromPathsEnd(stages: seq<Stage>, path: seq<nat>)
    requires FromPath(stages, path)
    ensures |path| <= path[0] + 1
    decreases |path|
  {
    if |path| > 1 {
      var rest := path[1..];
      assert FromEdge(stages, path[0], StageNode(path[1]));
      forall n | 0 <= n < |rest| - 1 ensures FromEdge(stages, rest[n], StageNode(rest[n + 1])) {
        assert FromEdge(stages, path[n + 1], StageNode(path[n + 1 + 1]));
      }
      FromPathsEnd(stages, rest);
    }
  }

  /** Following FROM from any stage ends at scratch or an allowlisted image. */
  lemma {:induction false} FromEndsPinned(code: seq<Instruction>, allowed: seq<string>, i: nat) returns (path: seq<nat>, image: string)
    requires Policy(code, allowed).Ok? && i < |StagesOf(code)|
    ensures FromPath(StagesOf(code), path) && path[0] == i
    ensures FromEdge(StagesOf(code), path[|path| - 1], ImageNode(image))
    ensures PinnedMaterial(image, allowed)
    decreases i
  {
    var to := FromEdgeExists(code, i);
    FromEdgeSafe(code, allowed, i, to);
    match to
    case ImageNode(found) =>
      path, image := [i], found;
    case StageNode(j) =>
      var rest;
      rest, image := FromEndsPinned(code, allowed, j);
      path := [i] + rest;
      forall n | 0 <= n < |path| - 1 ensures FromEdge(StagesOf(code), path[n], StageNode(path[n + 1])) {
        if n > 0 { assert FromEdge(StagesOf(code), rest[n - 1], StageNode(rest[n - 1 + 1])); }
      }
  }

  /** COPY edges never go forward, and name only declared stages and allowlisted images. */
  lemma CopyEdgeSafe(code: seq<Instruction>, allowed: seq<string>, i: nat, to: Node)
    requires Policy(code, allowed).Ok? && CopyEdge(code, i, to)
    ensures match to case StageNode(j) => j <= i < |StagesOf(code)| case ImageNode(image) => image in allowed
  {
    PolicyExact(code, allowed);
    var k: nat, source: string :| CopyAt(code, k, i, source) && Names(source, StagesOf(code[..k]), to);
    assert InstructionFits(code, k, allowed);
    StagesPrefix(code, k);
    assert SourceKnown(source, StagesOf(code[..k]), allowed);
  }

  ghost predicate Edge(code: seq<Instruction>, i: nat, to: Node) {
    (i < |StagesOf(code)| && FromEdge(StagesOf(code), i, to)) || CopyEdge(code, i, to)
  }

  /** A walk along FROM and COPY edges that starts at a stage. */
  ghost predicate Walk(code: seq<Instruction>, walk: seq<Node>) {
    && walk != [] && walk[0].StageNode? && walk[0].index < |StagesOf(code)|
    && forall n :: 0 <= n < |walk| - 1 ==> walk[n].StageNode? && Edge(code, walk[n].index, walk[n + 1])
  }

  ghost predicate KnownNode(code: seq<Instruction>, allowed: seq<string>, node: Node) {
    match node
    case StageNode(j) => j < |StagesOf(code)|
    case ImageNode(image) => PinnedMaterial(image, allowed)
  }

  /** Whatever FROM and COPY edges lead to is a declared stage, scratch or an allowlisted image. */
  lemma {:induction false} WalksStayPinned(code: seq<Instruction>, allowed: seq<string>, walk: seq<Node>)
    requires Policy(code, allowed).Ok? && Walk(code, walk)
    ensures KnownNode(code, allowed, walk[|walk| - 1])
    ensures walk[|walk| - 1].StageNode? ==> walk[|walk| - 1].index <= walk[0].index
  {
    if |walk| > 1 {
      var init := walk[..|walk| - 1];
      forall n | 0 <= n < |init| - 1 ensures init[n].StageNode? && Edge(code, init[n].index, init[n + 1]) {
        assert Edge(code, walk[n].index, walk[n + 1]);
      }
      WalksStayPinned(code, allowed, init);
      var from, to := walk[|walk| - 2], walk[|walk| - 1];
      assert to == walk[|walk| - 2 + 1] && Edge(code, from.index, to);
      if FromEdge(StagesOf(code), from.index, to) {
        FromEdgeSafe(code, allowed, from.index, to);
      } else {
        CopyEdgeSafe(code, allowed, from.index, to);
      }
    }
  }

  /** The only cycles are single COPY instructions that name their own stage. */
  lemma CyclesAreSelfCopies(code: seq<Instruction>, allowed: seq<string>, i: nat, j: nat)
    requires Policy(code, allowed).Ok?
    requires i < |StagesOf(code)| && j < |StagesOf(code)|
    requires Edge(code, i, StageNode(j))
    requires exists walk :: Walk(code, walk) && walk[0] == StageNode(j) && walk[|walk| - 1] == StageNode(i)
    ensures i == j && CopyEdge(code, i, StageNode(i))
  {
    var walk :| Walk(code, walk) && walk[0] == StageNode(j) && walk[|walk| - 1] == StageNode(i);
    WalksStayPinned(code, allowed, walk);
    if i < |StagesOf(code)| && FromEdge(StagesOf(code), i, StageNode(j)) {
      FromEdgeSafe(code, allowed, i, StageNode(j));
    } else {
      CopyEdgeSafe(code, allowed, i, StageNode(j));
    }
  }

  /** Such self-copies are accepted: a stage may copy from the stage it is in. */
  lemma SelfCopyAccepted(stage: string)
    requires ValidStageName(stage)
    ensures var code := [From("scratch", Named(stage)), Copy(["--from=" + stage, "/out", "/out"])];
      Policy(code, []).Ok? && CopyEdge(code, 0, StageNode(0))
  {
    var code := [From("scratch", Named(stage)), Copy(["--from=" + stage, "/out", "/out"])];
    var stages := [Stage("scratch", Named(stage))];
    assert code[..1] == [code[0]] && code[..1][..0] == [] && code[..0] == [];
    assert StagesOf(code[..1]) == stages;
    assert code[..2] == code && code[..|code| - 1] == code[..1];
    assert IsNamed(stages[0], ToAsciiLower(stage));
    assert ToAsciiLower("scratch") == "scratch";
    assert InstructionFits(code, 0, []);
    forall source: string | CopiesFrom(code[1].words, source) ensures source == stage {
      assert ("--from=" + source)[|"--from="|..] == source && ("--from=" + stage)[|"--from="|..] == stage;
      assert ("--from=" + source)[0] == '-';
    }
    assert |"--from=" + stage| >= |"--from="|;
    assert "--from" !in code[1].words;
    assert InstructionFits(code, 1, []);
    PolicyExact(code, []);
    assert CopyAt(code, 1, 0, stage) && Names(stage, StagesOf(code[..1]), StageNode(0));
  }
}
