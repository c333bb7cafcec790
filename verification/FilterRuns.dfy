/**
 Which lines of a transcript reach a rule: what a rule is after a transcript is what those lines alone
 make of it. So the laws about single rules hold inside a plugin, for the lines that reach them.
 */
module FilterRuns {
  import opened Filter
  import opened FilterFusion
  import opened FilterLaws

  // ---------- one line ----------

  /** A rule sees a line iff no rule in front of it had an opinion. */
  lemma {:induction false} RuleAfterLine(lib: RegexLib, rules: seq<CompiledRule>, line: string, j: nat)
    requires j < |rules|
    ensures RunRules(lib, rules, line).1[j] ==
            if RunRules(lib, rules[..j], line).0.None? then Apply(lib, rules[j], line).1 else rules[j]
  {
    if j > 0 {
      RuleAfterLine(lib, rules[1..], line, j - 1);
      assert rules[1..][..j - 1] == rules[..j][1..] && rules[..j][0] == rules[0];
    }
  }

  /** A group sees a line iff it is selected and no selected group in front of it had an opinion. */
  lemma {:induction false} GroupAfterLine(lib: RegexLib, groups: seq<Group>, command: string, subcommand: string, line: string, g: nat)
    requires g < |groups|
    ensures RunGroups(lib, groups, command, subcommand, line).1[g] ==
            if RunGroups(lib, groups[..g], command, subcommand, line).0.None? && Selects(groups[g], command, subcommand)
            then groups[g].(rules := RunRules(lib, groups[g].rules, line).1)
            else groups[g]
  {
    if g > 0 {
      GroupAfterLine(lib, groups[1..], command, subcommand, line, g - 1);
      assert groups[1..][..g - 1] == groups[..g][1..] && groups[..g][0] == groups[0];
    }
  }

  // ---------- a transcript ----------

  /** The groups after a transcript. */
  function GroupsAfter(lib: RegexLib, groups: seq<Group>, calls: seq<Call>): (r: seq<Group>)
    ensures |r| == |groups|
  {
    if calls == [] then groups
    else
      var c := calls[|calls| - 1];
      RunGroups(lib, GroupsAfter(lib, groups, calls[..|calls| - 1]), c.command, FirstWord(lib, c.args), c.line).1
  }

  lemma {:induction false} GroupsOfTranscript(lib: RegexLib, groups: seq<Group>, calls: seq<Call>)
    ensures RunTranscript(lib, groups, calls).1 == GroupsAfter(lib, groups, calls)
  {
    if calls != [] { GroupsOfTranscript(lib, groups, calls[..|calls| - 1]); }
  }

  /** With the groups as they are, the call's line reaches rule `j` of group `g`. */
  predicate Reaches(lib: RegexLib, groups: seq<Group>, c: Call, g: nat, j: nat) {
    && g < |groups| && j < |groups[g].rules|
    && RunGroups(lib, groups[..g], c.command, FirstWord(lib, c.args), c.line).0.None?
    && Selects(groups[g], c.command, FirstWord(lib, c.args))
    && RunRules(lib, groups[g].rules[..j], c.line).0.None?
  }

  /** The lines of a transcript that reach rule `j` of group `g`, in order. */
  function Reaching(lib: RegexLib, groups: seq<Group>, calls: seq<Call>, g: nat, j: nat): seq<string> {
    if calls == [] then []
    else
      var init, c := calls[..|calls| - 1], calls[|calls| - 1];
      if Reaches(lib, GroupsAfter(lib, groups, init), c, g, j) then Reaching(lib, groups, init, g, j) + [c.line]
      else Reaching(lib, groups, init, g, j)
  }

  lemma {:induction false} RuleAfterCall(lib: RegexLib, groups: seq<Group>, c: Call, g: nat, j: nat)
    requires g < |groups| && j < |groups[g].rules|
    ensures var after := RunGroups(lib, groups, c.command, FirstWord(lib, c.args), c.line).1;
            && |after[g].rules| == |groups[g].rules|
            && after[g].rules[j] == if Reaches(lib, groups, c, g, j) then Apply(lib, groups[g].rules[j], c.line).1 else groups[g].rules[j]
  {
    GroupAfterLine(lib, groups, c.command, FirstWord(lib, c.args), c.line, g);
    RuleAfterLine(lib, groups[g].rules, c.line, j);
  }

  lemma {:induction false} AfterOneMore(lib: RegexLib, rule: CompiledRule, lines: seq<string>, line: string)
    ensures After(lib, rule, lines + [line]) == Apply(lib, After(lib, rule, lines), line).1
  {
    AfterLast(lib, rule, lines + [line]);
    assert (lines + [line])[..|lines|] == lines;
  }

  /** After any transcript, a rule is what the lines that reached it make of it. */
  lemma {:induction false} RuleAfterTranscript(lib: RegexLib, groups: seq<Group>, calls: seq<Call>, g: nat, j: nat)
    requires g < |groups| && j < |groups[g].rules|
    ensures RunTranscript(lib, groups, calls).1 == GroupsAfter(lib, groups, calls)
    ensures |GroupsAfter(lib, groups, calls)[g].rules| == |groups[g].rules|
    ensures GroupsAfter(lib, groups, calls)[g].rules[j] == After(lib, groups[g].rules[j], Reaching(lib, groups, calls, g, j))
  {
    GroupsOfTranscript(lib, groups, calls);
    if calls == [] {
      AfterLast(lib, groups[g].rules[j], []);
    } else {
      var init, c := calls[..|calls| - 1], calls[|calls| - 1];
      RuleAfterTranscript(lib, groups, init, g, j);
      RuleAfterCall(lib, GroupsAfter(lib, groups, init), c, g, j);
      AfterOneMore(lib, groups[g].rules[j], Reaching(lib, groups, init, g, j), c.line);
    }
  }

  /** The answer to a line: the opinion of the rule it reaches that has one. */
  lemma {:induction false} AnswerIsOpinion(lib: RegexLib, groups: seq<Group>, c: Call) returns (g: nat, j: nat)
    requires RunGroups(lib, groups, c.command, FirstWord(lib, c.args), c.line).0.Some?
    ensures Reaches(lib, groups, c, g, j)
    ensures RunGroups(lib, groups, c.command, FirstWord(lib, c.args), c.line).0 == Apply(lib, groups[g].rules[j], c.line).0
  {
    var subcommand := FirstWord(lib, c.args);
    var rest := groups[1..];
    if Selects(groups[0], c.command, subcommand) && RunRules(lib, groups[0].rules, c.line).0.Some? {
      j := FirstOpinion(lib, groups[0].rules, c.line);
      g := 0;
      assert groups[..0] == [];
    } else {
      g, j := AnswerIsOpinion(lib, rest, c);
      assert groups[..g + 1] == [groups[0]] + rest[..g];
      assert groups[..g + 1][1..] == rest[..g];
      g := g + 1;
    }
  }

  lemma {:induction false} FirstOpinion(lib: RegexLib, rules: seq<CompiledRule>, line: string) returns (j: nat)
    requires RunRules(lib, rules, line).0.Some?
    ensures j < |rules| && RunRules(lib, rules[..j], line).0.None? && RunRules(lib, rules, line).0 == Apply(lib, rules[j], line).0
  {
    if Apply(lib, rules[0], line).0.Some? {
      j := 0;
      assert rules[..0] == [];
    } else {
      j := FirstOpinion(lib, rules[1..], line);
      assert rules[..j + 1] == [rules[0]] + rules[1..][..j];
      assert rules[..j + 1][1..] == rules[1..][..j];
      j := j + 1;
    }
  }
}
