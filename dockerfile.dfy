/**
 * pkg/dockerfile/types.go: the instructions of one parsed Dockerfile and
 * the two queries the rule checks run over them.
 */
module Dockerfile {
  import opened Wrappers
  import opened GoStrings

  // Directive names defined in types.go.
  const Healthcheck := "healthcheck"
  const User := "user"
  const Root := "root"
  const Add := "add"
  const Run := "run"
  // Directive names the benchmarker uses but that are defined outside types.go.
  const Env := "env"
  const Label := "label"

  /**
   * Go's regexp package, which is not part of this model: whether a pattern
   * compiles, and whether a compiled pattern matches a string.
   */
  datatype Regexp = Regexp(compiles: string -> bool, matches: (string, string) -> bool)

  /**
   * The parser's syntax node for one Dockerfile line: its directive, its
   * flags and the chain of argument nodes that follows it.
   */
  datatype Node = Node(value: string, flags: seq<string>, next: Option<Node>)

  /** The values along a chain of argument nodes, in order. */
  function Values(chain: Option<Node>): seq<string> {
    match chain
    case None => []
    case Some(n) => [n.value] + Values(n.next)
  }

  /** One instruction, e.g. directive "run", flags ["--from=builder"], content ["apt-get update"]. */
  datatype DockerInstruction = DockerInstruction(instruction: string, flags: seq<string>, content: seq<string>)

  /** The instruction AddNode builds from `node`. */
  function FromNode(node: Node): DockerInstruction {
    DockerInstruction(node.value, node.flags, Values(node.next))
  }

  /** Some instruction has directive `directive`. */
  predicate HasDirective(instructions: seq<DockerInstruction>, directive: string) {
    exists i :: 0 <= i < |instructions| && instructions[i].instruction == directive
  }

  /** How many of `tokens` the compiled `pattern` matches. */
  function MatchCount(tokens: seq<string>, pattern: string, re: Regexp): (n: nat)
    ensures n <= |tokens|
    ensures n > 0 <==> exists t :: t in tokens && re.matches(pattern, t)
  {
    if tokens == [] then 0
    else
      var last := tokens[|tokens| - 1];
      assert tokens == tokens[..|tokens| - 1] + [last];
      MatchCount(tokens[..|tokens| - 1], pattern, re) + (if re.matches(pattern, last) then 1 else 0)
  }

  lemma MatchCountSnoc(tokens: seq<string>, k: nat, pattern: string, re: Regexp)
    requires k < |tokens|
    ensures MatchCount(tokens[..k + 1], pattern, re)
         == MatchCount(tokens[..k], pattern, re) + (if re.matches(pattern, tokens[k]) then 1 else 0)
  {
    assert tokens[..k + 1][..k] == tokens[..k];
  }

  /**
   * The positions whose instruction has directive ToLower(inst) and has a
   * content token matched by ToLower(cont); nothing when ToLower(cont)
   * does not compile.
   */
  function MatchSet(instructions: seq<DockerInstruction>, inst: string, cont: string, re: Regexp): set<int> {
    var pattern := ToLower(cont);
    if re.compiles(pattern) then
      set idx | 0 <= idx < |instructions| && instructions[idx].instruction == ToLower(inst)
                && MatchCount(instructions[idx].content, pattern, re) > 0
    else {}
  }

  /** A space and then the space-joined tokens; nothing when there are no tokens. */
  function Part(tokens: seq<string>): string {
    if |tokens| > 0 then " " + Join(tokens, " ") else ""
  }

  /** One output line of String: directive, then the flags, then the content, then a newline. */
  function Line(di: DockerInstruction): string {
    di.instruction + Part(di.flags) + Part(di.content) + "\n"
  }

  /** Appending a line piece by piece, as String does, appends Line. */
  lemma LineAppended(start: string, di: DockerInstruction, ret: string)
    requires ret == (var r1 := start + di.instruction;
                     var r2 := if |di.flags| > 0 then r1 + " " + Join(di.flags, " ") else r1;
                     var r3 := if |di.content| > 0 then r2 + " " + Join(di.content, " ") else r2;
                     r3 + "\n")
    ensures ret == start + Line(di)
  {
  }

  /** The lines of all instructions, in order. */
  function Lines(instructions: seq<DockerInstruction>): string {
    if instructions == [] then ""
    else Lines(instructions[..|instructions| - 1]) + Line(instructions[|instructions| - 1])
  }

  lemma LinesSnoc(instructions: seq<DockerInstruction>, i: nat)
    requires i < |instructions|
    ensures Lines(instructions[..i + 1]) == Lines(instructions[..i]) + Line(instructions[i])
  {
    assert instructions[..i + 1][..i] == instructions[..i];
  }

  /** No directive, flag or content token contains a newline. */
  predicate SingleLine(di: DockerInstruction) {
    '\n' !in di.instruction
    && (forall k :: 0 <= k < |di.flags| ==> '\n' !in di.flags[k])
    && (forall k :: 0 <= k < |di.content| ==> '\n' !in di.content[k])
  }

  /** Each instruction without embedded newlines contributes exactly one newline-terminated line. */
  lemma {:induction false} LinesCount(instructions: seq<DockerInstruction>)
    requires forall i :: 0 <= i < |instructions| ==> SingleLine(instructions[i])
    ensures CountChar(Lines(instructions), '\n') == |instructions|
    ensures instructions != [] ==> Lines(instructions)[|Lines(instructions)| - 1] == '\n'
  {
    if instructions != [] {
      var n := |instructions| - 1;
      var di := instructions[n];
      LinesCount(instructions[..n]);
      var flags := Part(di.flags);
      var content := Part(di.content);
      CountCharJoin(di.flags, " ", '\n');
      CountCharJoin(di.content, " ", '\n');
      CountCharAppend(" ", Join(di.flags, " "), '\n');
      CountCharAppend(" ", Join(di.content, " "), '\n');
      CountCharAppend(di.instruction, flags, '\n');
      CountCharAppend(di.instruction + flags, content, '\n');
      CountCharAppend(di.instruction + flags + content, "\n", '\n');
      CountCharAppend(Lines(instructions[..n]), Line(di), '\n');
    }
  }

  class Dockerfile {
    const file: string
    var instructions: seq<DockerInstruction>

    /** NewDockerfile: the named file with no instructions yet. */
    constructor (file: string)
      ensures this.file == file && instructions == []
    {
      this.file := file;
      instructions := [];
    }

    /**
     * AddNode appends exactly one instruction: the node's directive (as
     * given, not lower-cased), its flags, and the values of its argument
     * chain in order. Earlier instructions are kept.
     */
    method AddNode(node: Node)
      modifies this
      ensures instructions == old(instructions) + [FromNode(node)]
    {
      var di := DockerInstruction("", [], []);
      di := di.(instruction := node.value);
      di := di.(flags := di.flags + node.flags);
      assert di.flags == node.flags;
      var n := node.next;
      while n.Some?
        invariant di.instruction == node.value && di.flags == node.flags
        invariant di.content + Values(n) == Values(node.next)
        decreases n
      {
        assert Values(n) == [n.value.value] + Values(n.value.next);
        di := di.(content := di.content + [n.value.value]);
        n := n.value.next;
      }
      assert Values(n) == [];
      assert di == FromNode(node);
      instructions := instructions + [di];
    }

    /** String renders a header line naming the file and then one line per instruction. */
    method String() returns (ret: string)
      ensures ret == "Dockerfile: " + file + "\n" + Lines(instructions)
    {
      ret := "Dockerfile: " + file + "\n";
      ghost var header := ret;
      var instrs := instructions;
      for i := 0 to |instrs|
        invariant ret == header + Lines(instrs[..i])
      {
        var di := instrs[i];
        ghost var start := ret;
        ret := ret + di.instruction;
        if |di.flags| > 0 {
          ret := ret + " ";
          ret := ret + Join(di.flags, " ");
        }
        if |di.content| > 0 {
          ret := ret + " ";
          ret := ret + Join(di.content, " ");
        }
        ret := ret + "\n";
        LineAppended(start, di, ret);
        LinesSnoc(instrs, i);
        AppendAssoc(header, Lines(instrs[..i]), Line(di));
      }
      assert instrs[..|instrs|] == instrs;
    }

    /** LookupInstruction: whether some instruction has the lower-cased directive `inst`. */
    method LookupInstruction(inst: string) returns (found: bool)
      ensures found <==> HasDirective(instructions, ToLower(inst))
    {
      var i := ToLower(inst);
      for k := 0 to |instructions|
        invariant !HasDirective(instructions[..k], i)
      {
        if instructions[k].instruction == i {
          return true;
        }
        assert instructions[..k + 1] == instructions[..k] + [instructions[k]];
      }
      assert instructions[..|instructions|] == instructions;
      return false;
    }

    /**
     * LookupInstructionAndContent: the position of every instruction with
     * directive ToLower(inst), once per content token that ToLower(cont)
     * matches. Only the pattern is lower-cased, not the content. A pattern
     * that does not compile gives the empty list.
     */
    method LookupInstructionAndContent(inst: string, cont: string, re: Regexp) returns (indexList: seq<int>)
      ensures !re.compiles(ToLower(cont)) ==> indexList == []
      ensures re.compiles(ToLower(cont)) ==> indexList == Hits(instructions, ToLower(inst), ToLower(cont), re)
      ensures forall x :: x in indexList <==> x in MatchSet(instructions, inst, cont, re)
      ensures indexList == [] <==> MatchSet(instructions, inst, cont, re) == {}
    {
      indexList := [];
      var i := ToLower(inst);
      var c := ToLower(cont);
      if !re.compiles(c) {
        return [];
      }
      var instrs := instructions;
      for idx := 0 to |instrs|
        invariant indexList == Hits(instrs[..idx], i, c, re)
      {
        var di := instrs[idx];
        HitsSnoc(instrs, idx, i, c, re);
        if di.instruction == i {
          indexList := AppendMatches(indexList, idx, di.content, c, re);
        } else {
          assert indexList + Repeat(idx, 0) == indexList;
        }
      }
      assert instrs[..|instrs|] == instrs;
      HitsProperties(instrs, inst, cont, re);
    }
  }

  /**
   * The inner loop of LookupInstructionAndContent: `idx` appended once per
   * content token that the pattern matches.
   */
  method AppendMatches(start: seq<int>, idx: int, content: seq<string>, pattern: string, re: Regexp) returns (indexList: seq<int>)
    ensures indexList == start + Repeat(idx, MatchCount(content, pattern, re))
  {
    indexList := start;
    for k := 0 to |content|
      invariant indexList == start + Repeat(idx, MatchCount(content[..k], pattern, re))
    {
      MatchCountSnoc(content, k, pattern, re);
      if re.matches(pattern, content[k]) {
        AppendAssoc(start, Repeat(idx, MatchCount(content[..k], pattern, re)), [idx]);
        indexList := indexList + [idx];
      }
    }
    assert content[..|content|] == content;
  }

  /** `n` copies of `x`. */
  function Repeat(x: int, n: nat): (r: seq<int>)
    ensures |r| == n && forall k :: 0 <= k < n ==> r[k] == x
  {
    if n == 0 then [] else Repeat(x, n - 1) + [x]
  }

  lemma {:induction false} RepeatCount(x: int, n: nat)
    ensures forall y :: multiset(Repeat(x, n))[y] == if y == x then n else 0
  {
    if n > 0 {
      RepeatCount(x, n - 1);
    }
  }

  /**
   * The reference result of LookupInstructionAndContent for an already
   * lower-cased directive and pattern: positions in order, each repeated
   * once per matching content token.
   */
  function Hits(instructions: seq<DockerInstruction>, directive: string, pattern: string, re: Regexp): seq<int> {
    if instructions == [] then []
    else
      var last := |instructions| - 1;
      var di := instructions[last];
      var prefix := Hits(instructions[..last], directive, pattern, re);
      prefix + Repeat(last, if di.instruction == directive then MatchCount(di.content, pattern, re) else 0)
  }

  /** Hits lists in-range positions of instructions with the directive, in non-decreasing order. */
  lemma {:induction false} HitsBounds(instructions: seq<DockerInstruction>, directive: string, pattern: string, re: Regexp)
    ensures forall k :: 0 <= k < |Hits(instructions, directive, pattern, re)| ==>
              var x := Hits(instructions, directive, pattern, re)[k];
              0 <= x < |instructions| && instructions[x].instruction == directive
    ensures forall j, k :: 0 <= j <= k < |Hits(instructions, directive, pattern, re)| ==>
              Hits(instructions, directive, pattern, re)[j] <= Hits(instructions, directive, pattern, re)[k]
  {
    if instructions != [] {
      var last := |instructions| - 1;
      var prefix := instructions[..last];
      var di := instructions[last];
      var h := Hits(prefix, directive, pattern, re);
      var tail := Repeat(last, if di.instruction == directive then MatchCount(di.content, pattern, re) else 0);
      HitsBounds(prefix, directive, pattern, re);
      var all := Hits(instructions, directive, pattern, re);
      assert all == h + tail;
      forall k | 0 <= k < |all|
        ensures 0 <= all[k] < |instructions| && instructions[all[k]].instruction == directive
      {
        if k < |h| {
          assert all[k] == h[k];
          assert prefix[h[k]] == instructions[h[k]];
        } else {
          assert all[k] == tail[k - |h|] == last;
        }
      }
      forall j, k | 0 <= j <= k < |all|
        ensures all[j] <= all[k]
      {
        if k < |h| {
          assert all[j] == h[j] && all[k] == h[k];
        } else if j >= |h| {
          assert all[j] == tail[j - |h|] && all[k] == tail[k - |h|];
        } else {
          assert all[j] == h[j] && all[k] == tail[k - |h|];
        }
      }
    }
  }

  /** Position `x` occurs in Hits once per content token of instruction `x` that the pattern matches. */
  lemma {:induction false} HitsCount(instructions: seq<DockerInstruction>, directive: string, pattern: string, re: Regexp)
    ensures forall x :: 0 <= x < |instructions| ==>
              multiset(Hits(instructions, directive, pattern, re))[x] ==
                if instructions[x].instruction == directive
                then MatchCount(instructions[x].content, pattern, re)
                else 0
  {
    if instructions != [] {
      var last := |instructions| - 1;
      var prefix := instructions[..last];
      var di := instructions[last];
      var h := Hits(prefix, directive, pattern, re);
      var tail := Repeat(last, if di.instruction == directive then MatchCount(di.content, pattern, re) else 0);
      HitsCount(prefix, directive, pattern, re);
      HitsBounds(prefix, directive, pattern, re);
      RepeatCount(last, |tail|);
      assert Hits(instructions, directive, pattern, re) == h + tail;
      assert multiset(h + tail) == multiset(h) + multiset(tail);
      forall x | 0 <= x < |instructions|
        ensures multiset(h + tail)[x] ==
                  if instructions[x].instruction == directive
                  then MatchCount(instructions[x].content, pattern, re)
                  else 0
      {
        if x == last {
          assert x !in h;
        } else {
          assert prefix[x] == instructions[x];
        }
      }
    }
  }

  /** The distinct positions that LookupInstructionAndContent returns are exactly MatchSet. */
  lemma HitsMembers(instructions: seq<DockerInstruction>, inst: string, cont: string, re: Regexp)
    requires re.compiles(ToLower(cont))
    ensures forall x :: x in Hits(instructions, ToLower(inst), ToLower(cont), re) <==> x in MatchSet(instructions, inst, cont, re)
  {
    var directive, pattern := ToLower(inst), ToLower(cont);
    var h := Hits(instructions, directive, pattern, re);
    HitsCount(instructions, directive, pattern, re);
    HitsBounds(instructions, directive, pattern, re);
    forall x
      ensures x in h <==> x in MatchSet(instructions, inst, cont, re)
    {
      if x in h {
        var n :| 0 <= n < |h| && h[n] == x;
        assert 0 <= x < |instructions|;
        assert multiset(h)[x] > 0;
      }
      if x in MatchSet(instructions, inst, cont, re) {
        assert multiset(h)[x] > 0;
      }
    }
  }

  lemma HitsSnoc(instructions: seq<DockerInstruction>, idx: nat, directive: string, pattern: string, re: Regexp)
    requires idx < |instructions|
    ensures Hits(instructions[..idx + 1], directive, pattern, re)
         == Hits(instructions[..idx], directive, pattern, re)
            + Repeat(idx, if instructions[idx].instruction == directive
                          then MatchCount(instructions[idx].content, pattern, re) else 0)
  {
    assert instructions[..idx + 1][..idx] == instructions[..idx];
  }

  /** What LookupInstructionAndContent promises, proved of Hits. */
  lemma HitsProperties(instructions: seq<DockerInstruction>, inst: string, cont: string, re: Regexp)
    requires re.compiles(ToLower(cont))
    ensures var h := Hits(instructions, ToLower(inst), ToLower(cont), re);
      && (forall idx :: 0 <= idx < |instructions| ==>
            multiset(h)[idx] ==
              if instructions[idx].instruction == ToLower(inst)
              then MatchCount(instructions[idx].content, ToLower(cont), re)
              else 0)
      && (forall idx :: idx in h <==> idx in MatchSet(instructions, inst, cont, re))
      && (h == [] <==> MatchSet(instructions, inst, cont, re) == {})
  {
    var h := Hits(instructions, ToLower(inst), ToLower(cont), re);
    HitsCount(instructions, ToLower(inst), ToLower(cont), re);
    HitsMembers(instructions, inst, cont, re);
    if h != [] {
      assert h[0] in MatchSet(instructions, inst, cont, re);
    }
  }
}
