/**
 What the rules of filter definitions say about a line, from the definitions and the line alone: each
 kind of rule without a state in its own terms, wherever it stands and whatever was said before. Rules
 with a state say what their laws say of the lines that reach them.
 */
module FilterRules {
  import opened Wrappers
  import opened Filter
  import opened FilterFusion
  import opened FilterLaws
  import opened FilterRuns

  // ---------- plugins and their fronts ----------

  predicate Loads(lib: RegexLib, defs: seq<FilterDef>) {
    forall d :: 0 <= d < |defs| ==> AllCompile(lib, defs[d].rules)
  }

  /** The answers to a transcript of a plugin with these definitions. */
  function Answers(lib: RegexLib, defs: seq<FilterDef>, calls: seq<Call>): (r: seq<FilterResult>)
    requires Loads(lib, defs)
    ensures |r| == |calls|
  {
    RunTranscript(lib, SeparateGroups(lib, defs), calls).0
  }

  /** The definitions in front of rule `j` of definition `g`, that one cut short. */
  function UpTo(defs: seq<FilterDef>, g: nat, j: nat): seq<FilterDef>
    requires g < |defs| && j <= |defs[g].rules|
  {
    defs[..g] + [defs[g].(rules := defs[g].rules[..j])]
  }

  /** The definition is for this command, and for its first argument. */
  predicate Selected(lib: RegexLib, def: FilterDef, c: Call) {
    && (def.command == None || def.command == Some(c.command))
    && (def.subcommands == [] || FirstWord(lib, c.args) in def.subcommands)
  }

  /** The first word of the arguments: blanks in front of it, a blank or the end behind it, empty iff there is none. */
  lemma {:induction false} FirstWordIs(lib: RegexLib, args: string) returns (from: nat, to: nat)
    ensures from <= to <= |args| && FirstWord(lib, args) == args[from..to]
    ensures forall i :: 0 <= i < from ==> lib.isSpace(args[i])
    ensures forall i :: from <= i < to ==> !lib.isSpace(args[i])
    ensures to < |args| ==> from < to && lib.isSpace(args[to])
  {
    if args == "" {
      from, to := 0, 0;
    } else if lib.isSpace(args[0]) {
      from, to := FirstWordIs(lib, args[1..]);
      assert args[1..][from..to] == args[from + 1..to + 1];
      from, to := from + 1, to + 1;
    } else {
      from := 0;
      to := WordIs(lib, args);
    }
  }

  lemma {:induction false} WordIs(lib: RegexLib, s: string) returns (n: nat)
    ensures n <= |s| && Word(lib, s) == s[..n]
    ensures forall i :: 0 <= i < n ==> !lib.isSpace(s[i])
    ensures n < |s| ==> lib.isSpace(s[n])
  {
    n := 0;
    if s != "" && !lib.isSpace(s[0]) {
      n := WordIs(lib, s[1..]);
      assert s[..n + 1] == [s[0]] + s[1..][..n];
      n := n + 1;
    }
  }

  function Front(groups: seq<Group>, g: nat, j: nat): seq<Group>
    requires g < |groups| && j <= |groups[g].rules|
  {
    groups[..g] + [groups[g].(rules := groups[g].rules[..j])]
  }

  lemma {:induction false} FrontOfDefs(lib: RegexLib, defs: seq<FilterDef>, g: nat, j: nat)
    requires Loads(lib, defs) && g < |defs| && j <= |defs[g].rules|
    ensures Loads(lib, UpTo(defs, g, j))
    ensures SeparateGroups(lib, UpTo(defs, g, j)) == Front(SeparateGroups(lib, defs), g, j)
  {
    var groups, front := SeparateGroups(lib, defs), UpTo(defs, g, j);
    assert forall d :: 0 <= d < g ==> front[d] == defs[d];
    assert AllCompile(lib, defs[g].rules);
    assert AllCompile(lib, front[g].rules);
    assert CompileEach(lib, front[g].rules) == CompileEach(lib, defs[g].rules)[..j];
  }

  // ---------- one line ----------

  /** Rules after a front do not matter to it, and what it says goes. */
  lemma {:induction false} RulesFront(lib: RegexLib, rules: seq<CompiledRule>, line: string, j: nat)
    requires j <= |rules|
    ensures var (said, after) := RunRules(lib, rules, line);
            var (front, before) := RunRules(lib, rules[..j], line);
            before == after[..j] && said == if front.Some? then front else RunRules(lib, rules[j..], line).0
  {
    if j == 0 {
      assert rules[..0] == [] && rules[0..] == rules;
    } else {
      RulesFront(lib, rules[1..], line, j - 1);
      assert rules[..j][0] == rules[0] && rules[..j][1..] == rules[1..][..j - 1] && rules[1..][j - 1..] == rules[j..];
    }
  }

  lemma {:induction false} OneGroupAnswers(lib: RegexLib, g: Group, rest: seq<Group>, command: string, subcommand: string, line: string)
    ensures var (said, rules) := RunRules(lib, g.rules, line);
            var (later, tail) := RunGroups(lib, rest, command, subcommand, line);
            RunGroups(lib, [g] + rest, command, subcommand, line) ==
            if !Selects(g, command, subcommand) then (later, [g] + tail)
            else if said.Some? then (said, [g.(rules := rules)] + rest) else (later, [g.(rules := rules)] + tail)
  {
    assert ([g] + rest)[1..] == rest;
  }

  lemma {:induction false} FrontCons(first: Group, groups: seq<Group>, g: nat, j: nat)
    requires g < |groups| && j <= |groups[g].rules|
    ensures Front([first] + groups, g + 1, j) == [first] + Front(groups, g, j)
  {
    assert ([first] + groups)[..g + 1] == [first] + groups[..g];
  }

  lemma {:induction false} GroupsFront(lib: RegexLib, groups: seq<Group>, command: string, subcommand: string, line: string, g: nat, j: nat)
    requires g < |groups| && j <= |groups[g].rules|
    ensures var (said, after) := RunGroups(lib, groups, command, subcommand, line);
            var (front, before) := RunGroups(lib, Front(groups, g, j), command, subcommand, line);
            && |after[g].rules| == |groups[g].rules| && before == Front(after, g, j)
            && (front.Some? ==> said == front)
  {
    var first, rest := groups[0], groups[1..];
    assert groups == [first] + rest;
    OneGroupAnswers(lib, first, rest, command, subcommand, line);
    if g == 0 {
      var none: seq<Group> := [];
      RulesFront(lib, first.rules, line, j);
      assert Front(groups, 0, j) == [first.(rules := first.rules[..j])] + none;
      OneGroupAnswers(lib, first.(rules := first.rules[..j]), none, command, subcommand, line);
    } else {
      GroupsFront(lib, rest, command, subcommand, line, g - 1, j);
      OneGroupAnswers(lib, first, Front(rest, g - 1, j), command, subcommand, line);
      var after := first.(rules := RunRules(lib, first.rules, line).1);
      FrontCons(first, rest, g - 1, j);
      FrontCons(after, rest, g - 1, j);
      FrontCons(first, RunGroups(lib, rest, command, subcommand, line).1, g - 1, j);
      FrontCons(after, RunGroups(lib, rest, command, subcommand, line).1, g - 1, j);
    }
  }

  /** When a front says nothing, a longer front of the same group says what its further rules say. */
  lemma {:induction false} FrontGoesOn(lib: RegexLib, groups: seq<Group>, command: string, subcommand: string, line: string, g: nat, j: nat, k: nat)
    requires g < |groups| && j <= k <= |groups[g].rules|
    requires RunGroups(lib, Front(groups, g, j), command, subcommand, line).0.None?
    ensures RunGroups(lib, Front(groups, g, k), command, subcommand, line).0 ==
            if Selects(groups[g], command, subcommand) then RunRules(lib, groups[g].rules[j..k], line).0 else None
  {
    var shorter, longer := Front(groups, g, j), Front(groups, g, k);
    if g == 0 {
      var rules := groups[0].rules[..k];
      RulesFront(lib, rules, line, j);
      assert rules[..j] == groups[0].rules[..j] && rules[j..] == groups[0].rules[j..k];
      assert shorter[1..] == [] && longer[1..] == [];
    } else {
      assert shorter[0] == groups[0] && longer[0] == groups[0];
      assert shorter[1..] == Front(groups[1..], g - 1, j) && longer[1..] == Front(groups[1..], g - 1, k);
      FrontGoesOn(lib, groups[1..], command, subcommand, line, g - 1, j, k);
    }
  }

  lemma {:induction false} NeverPasses(lib: RegexLib, groups: seq<Group>, command: string, subcommand: string, line: string)
    ensures RunGroups(lib, groups, command, subcommand, line).0 != Some(Pass)
  {
    if groups != [] {
      NeverPasses(lib, groups[1..], command, subcommand, line);
      RulesNeverPass(lib, groups[0].rules, line);
    }
  }

  lemma {:induction false} RulesNeverPass(lib: RegexLib, rules: seq<CompiledRule>, line: string)
    ensures RunRules(lib, rules, line).0 != Some(Pass)
  {
    if rules != [] { RulesNeverPass(lib, rules[1..], line); }
  }

  // ---------- a transcript ----------

  lemma {:induction false} TranscriptFront(lib: RegexLib, groups: seq<Group>, calls: seq<Call>, g: nat, j: nat)
    requires g < |groups| && j <= |groups[g].rules|
    ensures |RunTranscript(lib, groups, calls).1[g].rules| == |groups[g].rules|
    ensures RunTranscript(lib, Front(groups, g, j), calls).1 == Front(RunTranscript(lib, groups, calls).1, g, j)
  {
    if calls != [] {
      var c := calls[|calls| - 1];
      TranscriptFront(lib, groups, calls[..|calls| - 1], g, j);
      GroupsFront(lib, RunTranscript(lib, groups, calls[..|calls| - 1]).1, c.command, FirstWord(lib, c.args), c.line, g, j);
    }
  }

  function AsAnswer(opinion: Option<FilterResult>): FilterResult {
    match opinion case Some(said) => said case None => Pass
  }

  lemma {:induction false} AnswerAt(lib: RegexLib, groups: seq<Group>, calls: seq<Call>, i: nat)
    requires i < |calls|
    ensures var c := calls[i];
            RunTranscript(lib, groups, calls).0[i] ==
            AsAnswer(RunGroups(lib, RunTranscript(lib, groups, calls[..i]).1, c.command, FirstWord(lib, c.args), c.line).0)
  {
    var n := |calls| - 1;
    if i < n {
      AnswerAt(lib, groups, calls[..n], i);
      assert calls[..n][..i] == calls[..i];
    }
  }

  /** What the groups in front of, or up to, a rule say about call `i`. */
  lemma {:induction false} FrontAnswer(lib: RegexLib, defs: seq<FilterDef>, calls: seq<Call>, i: nat, g: nat, j: nat)
    requires Loads(lib, defs) && i < |calls| && g < |defs| && j <= |defs[g].rules|
    ensures Loads(lib, UpTo(defs, g, j))
    ensures var now, c := RunTranscript(lib, SeparateGroups(lib, defs), calls[..i]).1, calls[i];
            && |now[g].rules| == |defs[g].rules|
            && Answers(lib, UpTo(defs, g, j), calls)[i] == AsAnswer(RunGroups(lib, Front(now, g, j), c.command, FirstWord(lib, c.args), c.line).0)
  {
    FrontOfDefs(lib, defs, g, j);
    AnswerAt(lib, SeparateGroups(lib, UpTo(defs, g, j)), calls, i);
    TranscriptFront(lib, SeparateGroups(lib, defs), calls[..i], g, j);
  }

  /** The first definitions and rules that say something decide. */
  lemma {:induction false} FrontDecides(lib: RegexLib, defs: seq<FilterDef>, calls: seq<Call>, i: nat, g: nat, j: nat)
    requires Loads(lib, defs) && i < |calls| && g < |defs| && j <= |defs[g].rules|
    ensures Loads(lib, UpTo(defs, g, j))
    ensures Answers(lib, UpTo(defs, g, j), calls)[i] != Pass ==> Answers(lib, defs, calls)[i] == Answers(lib, UpTo(defs, g, j), calls)[i]
  {
    var groups, c := SeparateGroups(lib, defs), calls[i];
    FrontAnswer(lib, defs, calls, i, g, j);
    AnswerAt(lib, groups, calls, i);
    GroupsFront(lib, RunTranscript(lib, groups, calls[..i]).1, c.command, FirstWord(lib, c.args), c.line, g, j);
  }

  lemma {:induction false} KeepsSelector(lib: RegexLib, defs: seq<FilterDef>, calls: seq<Call>, g: nat, c: Call)
    requires Loads(lib, defs) && g < |defs|
    ensures Selects(RunTranscript(lib, SeparateGroups(lib, defs), calls).1[g], c.command, FirstWord(lib, c.args)) <==> Selected(lib, defs[g], c)
  {
    if calls != [] {
      var last := calls[|calls| - 1];
      KeepsSelector(lib, defs, calls[..|calls| - 1], g, c);
      GroupAfterLine(lib, RunTranscript(lib, SeparateGroups(lib, defs), calls[..|calls| - 1]).1, last.command, FirstWord(lib, last.args), last.line, g);
    }
  }

  /** A stretch of rules says what they say now, if the definition is selected and nothing in front of them said anything. */
  lemma {:induction false} StretchAnswer(lib: RegexLib, defs: seq<FilterDef>, calls: seq<Call>, i: nat, g: nat, j: nat, k: nat)
    requires Loads(lib, defs) && i < |calls| && g < |defs| && j <= k <= |defs[g].rules|
    requires Loads(lib, UpTo(defs, g, j)) && Answers(lib, UpTo(defs, g, j), calls)[i] == Pass
    ensures Loads(lib, UpTo(defs, g, k))
    ensures var now := RunTranscript(lib, SeparateGroups(lib, defs), calls[..i]).1;
            && |now[g].rules| == |defs[g].rules|
            && Answers(lib, UpTo(defs, g, k), calls)[i] ==
               if Selected(lib, defs[g], calls[i]) then AsAnswer(RunRules(lib, now[g].rules[j..k], calls[i].line).0) else Pass
  {
    var now, c := RunTranscript(lib, SeparateGroups(lib, defs), calls[..i]).1, calls[i];
    FrontAnswer(lib, defs, calls, i, g, j);
    FrontAnswer(lib, defs, calls, i, g, k);
    KeepsSelector(lib, defs, calls[..i], g, c);
    NeverPasses(lib, Front(now, g, j), c.command, FirstWord(lib, c.args), c.line);
    FrontGoesOn(lib, now, c.command, FirstWord(lib, c.args), c.line, g, j, k);
  }

  // ---------- rules without a state ----------

  predicate Stateless(rule: Rule) {
    || rule.SuppressPrefix? || rule.SuppressRegex? || rule.KeepRegex? || rule.TruncateMatch?
    || rule.TruncateLong? || rule.ContextWindow? || rule.SubstituteWords?
  }

  lemma {:induction false} StatelessStays(lib: RegexLib, rule: Rule, lines: seq<string>)
    requires Stateless(rule) && Compile(lib, rule).Ok?
    ensures After(lib, Compiled(lib, rule), lines) == Compiled(lib, rule)
  {
    AfterLast(lib, Compiled(lib, rule), lines);
    if lines != [] { StatelessStays(lib, rule, lines[..|lines| - 1]); }
  }

  lemma {:induction false} StatelessNow(lib: RegexLib, defs: seq<FilterDef>, calls: seq<Call>, g: nat, m: nat)
    requires Loads(lib, defs) && g < |defs| && m < |defs[g].rules| && Stateless(defs[g].rules[m])
    ensures Compile(lib, defs[g].rules[m]).Ok?
    ensures var now := RunTranscript(lib, SeparateGroups(lib, defs), calls).1[g].rules;
            |now| == |defs[g].rules| && now[m] == Compiled(lib, defs[g].rules[m])
  {
    var groups := SeparateGroups(lib, defs);
    assert AllCompile(lib, defs[g].rules);
    RuleAfterTranscript(lib, groups, calls, g, m);
    StatelessStays(lib, defs[g].rules[m], Reaching(lib, groups, calls, g, m));
  }

  lemma {:induction false} StatelessRules(lib: RegexLib, rules: seq<Rule>, now: seq<CompiledRule>, j: nat, k: nat)
    requires j <= k <= |rules| == |now|
    requires forall m :: j <= m < k ==> Compile(lib, rules[m]).Ok? && now[m] == Compiled(lib, rules[m])
    ensures AllCompile(lib, rules[j..k]) && now[j..k] == CompileEach(lib, rules[j..k])
  {
    var run := rules[j..k];
    forall m | 0 <= m < k - j ensures Compile(lib, run[m]).Ok? && now[j..k][m] == Compiled(lib, run[m]) {
      assert run[m] == rules[j + m] && now[j..k][m] == now[j + m];
    }
  }

  /** A stretch of rules without a state says what it would say alone. */
  lemma {:induction false} StatelessStretch(lib: RegexLib, defs: seq<FilterDef>, calls: seq<Call>, i: nat, g: nat, j: nat, k: nat)
    requires Loads(lib, defs) && i < |calls| && g < |defs| && j <= k <= |defs[g].rules|
    requires forall m :: j <= m < k ==> Stateless(defs[g].rules[m])
    requires Loads(lib, UpTo(defs, g, j)) && Answers(lib, UpTo(defs, g, j), calls)[i] == Pass
    ensures Loads(lib, UpTo(defs, g, k)) && AllCompile(lib, defs[g].rules[j..k])
    ensures Answers(lib, UpTo(defs, g, k), calls)[i] ==
            if Selected(lib, defs[g], calls[i]) then AsAnswer(RunRules(lib, CompileEach(lib, defs[g].rules[j..k]), calls[i].line).0) else Pass
  {
    var now := RunTranscript(lib, SeparateGroups(lib, defs), calls[..i]).1[g].rules;
    StretchAnswer(lib, defs, calls, i, g, j, k);
    forall m | j <= m < k ensures Compile(lib, defs[g].rules[m]).Ok? && now[m] == Compiled(lib, defs[g].rules[m]) {
      StatelessNow(lib, defs, calls[..i], g, m);
    }
    StatelessRules(lib, defs[g].rules, now, j, k);
  }

  /** A rule that can only suppress, and does so on its own. */
  predicate Drops(lib: RegexLib, rule: Rule, line: string) {
    match rule
    case SuppressPrefix(prefix) => |prefix| <= |line| && line[..|prefix|] == prefix
    case SuppressRegex(pattern) => lib.isMatch(pattern, line)
    case KeepRegex(pattern) => !lib.isMatch(pattern, line)
    case _ => false
  }

  predicate OnlyDrops(rule: Rule) { rule.SuppressPrefix? || rule.SuppressRegex? || rule.KeepRegex? }

  ghost predicate AnyDrops(lib: RegexLib, rules: seq<Rule>, line: string) {
    exists rule :: rule in rules && Drops(lib, rule, line)
  }

  lemma {:induction false} AnyOfTail(lib: RegexLib, rules: seq<Rule>, line: string)
    requires rules != []
    ensures AnyDrops(lib, rules, line) <==> Drops(lib, rules[0], line) || AnyDrops(lib, rules[1..], line)
  {
    assert rules[0] in rules;
    if rule :| rule in rules[1..] && Drops(lib, rule, line) { assert rule in rules; }
    if rule :| rule in rules && Drops(lib, rule, line) { assert rule == rules[0] || rule in rules[1..]; }
  }

  lemma {:induction false} EachTail(lib: RegexLib, rules: seq<Rule>)
    requires AllCompile(lib, rules) && rules != []
    ensures AllCompile(lib, rules[1..]) && CompileEach(lib, rules)[1..] == CompileEach(lib, rules[1..])
    ensures CompileEach(lib, rules)[0] == Compiled(lib, rules[0])
  {
    assert forall m :: 0 <= m < |rules| - 1 ==> rules[1..][m] == rules[m + 1];
  }

  lemma {:induction false} DropRunSays(lib: RegexLib, rules: seq<Rule>, line: string)
    requires AllCompile(lib, rules) && forall m :: 0 <= m < |rules| ==> OnlyDrops(rules[m])
    ensures AsAnswer(RunRules(lib, CompileEach(lib, rules), line).0) ==
            if AnyDrops(lib, rules, line) then Suppress else Pass
  {
    if rules != [] {
      EachTail(lib, rules);
      DropRunSays(lib, rules[1..], line);
      AnyOfTail(lib, rules, line);
      assert OnlyDrops(rules[0]);
    }
  }

  /** Prefix, suppress and keep rules in any mix: the line is suppressed iff one of them drops it. */
  lemma {:induction false} DropLaw(lib: RegexLib, defs: seq<FilterDef>, calls: seq<Call>, i: nat, g: nat, j: nat, k: nat)
    requires Loads(lib, defs) && i < |calls| && g < |defs| && j <= k <= |defs[g].rules|
    requires forall m :: j <= m < k ==> OnlyDrops(defs[g].rules[m])
    requires Loads(lib, UpTo(defs, g, j)) && Answers(lib, UpTo(defs, g, j), calls)[i] == Pass
    ensures Loads(lib, UpTo(defs, g, k))
    ensures Answers(lib, UpTo(defs, g, k), calls)[i] ==
            if Selected(lib, defs[g], calls[i]) && AnyDrops(lib, defs[g].rules[j..k], calls[i].line) then Suppress else Pass
  {
    StatelessStretch(lib, defs, calls, i, g, j, k);
    DropRunSays(lib, defs[g].rules[j..k], calls[i].line);
  }

  /** A definition of keep rules only passes a line iff every pattern matches it. */
  lemma {:induction false} KeepLaw(lib: RegexLib, def: FilterDef, fused: seq<Group>, calls: seq<Call>, i: nat)
    requires AllCompile(lib, def.rules) && Loads(lib, [def]) && UnfuseGroups(fused) == SeparateGroups(lib, [def])
    requires i < |calls| && Selected(lib, def, calls[i]) && forall m :: 0 <= m < |def.rules| ==> def.rules[m].KeepRegex?
    ensures RunTranscript(lib, fused, calls).0[i] ==
            if forall m :: 0 <= m < |def.rules| ==> lib.isMatch(def.rules[m].pattern, calls[i].line) then Pass else Suppress
  {
    OneDefinition(lib, def, fused, calls, i);
    DropLaw(lib, [def], calls, i, 0, 0, |def.rules|);
    assert def.rules[0..|def.rules|] == def.rules;
    if m :| 0 <= m < |def.rules| && !lib.isMatch(def.rules[m].pattern, calls[i].line) {
      assert Drops(lib, def.rules[m], calls[i].line) && def.rules[m] in def.rules;
    }
  }

  /** The fused plugin of a single definition gives the answers of all its rules, none of which spoke before. */
  lemma {:induction false} OneDefinition(lib: RegexLib, def: FilterDef, fused: seq<Group>, calls: seq<Call>, i: nat)
    requires AllCompile(lib, def.rules) && Loads(lib, [def]) && UnfuseGroups(fused) == SeparateGroups(lib, [def]) && i < |calls|
    ensures UpTo([def], 0, |def.rules|) == [def] && Loads(lib, UpTo([def], 0, 0))
    ensures RunTranscript(lib, fused, calls).0[i] == Answers(lib, [def], calls)[i]
    ensures Answers(lib, UpTo([def], 0, 0), calls)[i] == Pass
  {
    FusionPreservesMeaning(lib, [def], fused, calls);
    assert def.rules[..|def.rules|] == def.rules && def.(rules := def.rules) == def;
    FrontAnswer(lib, [def], calls, i, 0, 0);
  }

  /** Rule `m` is the first of them whose pattern matches. */
  ghost predicate FirstFit(lib: RegexLib, rules: seq<Rule>, line: string, m: nat) {
    && m < |rules| && rules[m].TruncateMatch? && lib.isMatch(rules[m].pattern, line)
    && forall l :: 0 <= l < m ==> rules[l].TruncateMatch? && !lib.isMatch(rules[l].pattern, line)
  }

  ghost predicate NoneFits(lib: RegexLib, rules: seq<Rule>, line: string) {
    forall m :: 0 <= m < |rules| && rules[m].TruncateMatch? ==> !lib.isMatch(rules[m].pattern, line)
  }

  lemma {:induction false} TruncateRunSays(lib: RegexLib, rules: seq<Rule>, line: string)
    requires AllCompile(lib, rules) && forall m :: 0 <= m < |rules| ==> rules[m].TruncateMatch?
    ensures var said := AsAnswer(RunRules(lib, CompileEach(lib, rules), line).0);
            && (NoneFits(lib, rules, line) ==> said == Pass)
            && (forall m: nat :: FirstFit(lib, rules, line, m) ==> said == Replace(lib.replaceAll(rules[m].pattern, line, rules[m].replace)))
  {
    if rules != [] {
      var said, rest := AsAnswer(RunRules(lib, CompileEach(lib, rules), line).0), rules[1..];
      EachTail(lib, rules);
      TruncateRunSays(lib, rest, line);
      assert rules[0].TruncateMatch?;
      if NoneFits(lib, rules, line) {
        assert !lib.isMatch(rules[0].pattern, line);
        assert forall m :: 0 <= m < |rest| ==> rest[m] == rules[m + 1];
        assert NoneFits(lib, rest, line);
      }
      forall m: nat | FirstFit(lib, rules, line, m) ensures said == Replace(lib.replaceAll(rules[m].pattern, line, rules[m].replace)) {
        if m > 0 {
          assert forall l :: 0 <= l < m - 1 ==> rest[l] == rules[l + 1];
          assert FirstFit(lib, rest, line, m - 1);
        }
      }
    }
  }

  /** A run of truncation rules rewrites the line by the first whose pattern matches. */
  lemma {:induction false} TruncateLaw(lib: RegexLib, defs: seq<FilterDef>, calls: seq<Call>, i: nat, g: nat, j: nat, k: nat)
    requires Loads(lib, defs) && i < |calls| && g < |defs| && j <= k <= |defs[g].rules| && Selected(lib, defs[g], calls[i])
    requires forall m :: j <= m < k ==> defs[g].rules[m].TruncateMatch?
    requires Loads(lib, UpTo(defs, g, j)) && Answers(lib, UpTo(defs, g, j), calls)[i] == Pass
    ensures Loads(lib, UpTo(defs, g, k))
    ensures var run, line, said := defs[g].rules[j..k], calls[i].line, Answers(lib, UpTo(defs, g, k), calls)[i];
            && (NoneFits(lib, run, line) ==> said == Pass)
            && (forall m: nat :: FirstFit(lib, run, line, m) ==> said == Replace(lib.replaceAll(run[m].pattern, line, run[m].replace)))
  {
    StatelessStretch(lib, defs, calls, i, g, j, k);
    TruncateRunSays(lib, defs[g].rules[j..k], calls[i].line);
  }

  // ---------- rules that shorten or rewrite a line on their own ----------

  lemma {:induction false} SingleSays(lib: RegexLib, defs: seq<FilterDef>, calls: seq<Call>, i: nat, g: nat, j: nat)
    requires Loads(lib, defs) && i < |calls| && g < |defs| && j < |defs[g].rules| && Stateless(defs[g].rules[j])
    requires Loads(lib, UpTo(defs, g, j)) && Answers(lib, UpTo(defs, g, j), calls)[i] == Pass && Selected(lib, defs[g], calls[i])
    ensures Loads(lib, UpTo(defs, g, j + 1)) && Compile(lib, defs[g].rules[j]).Ok?
    ensures Answers(lib, UpTo(defs, g, j + 1), calls)[i] == AsAnswer(Apply(lib, Compiled(lib, defs[g].rules[j]), calls[i].line).0)
  {
    var run := defs[g].rules[j..j + 1];
    StatelessStretch(lib, defs, calls, i, g, j, j + 1);
    EachTail(lib, run);
    assert run[1..] == [];
  }

  /** `shown` is `line[x..y]`, with an ellipsis on each side on which something was cut off. */
  predicate Shows(line: string, x: nat, y: nat, shown: string) {
    && x <= y <= |line|
    && shown == (if x == 0 then "" else "…") + line[x..y] + (if y == |line| then "" else "…")
  }

  /** `x..y` is `from..to` and as many characters on either side as there are, up to `around`. */
  predicate Around(line: string, from: nat, to: nat, around: nat, x: nat, y: nat) {
    && x <= from <= to <= y <= |line|
    && from - x <= around && (x > 0 ==> from - x == around)
    && y - to <= around && (y < |line| ==> y - to == around)
  }

  /** A context window shows the match and its surroundings, and nothing of a line without a match. */
  lemma {:induction false} WindowLaw(lib: RegexLib, defs: seq<FilterDef>, calls: seq<Call>, i: nat, g: nat, j: nat, from: nat, to: nat)
    requires Loads(lib, defs) && i < |calls| && g < |defs| && j < |defs[g].rules| && defs[g].rules[j].ContextWindow?
    requires Loads(lib, UpTo(defs, g, j)) && Answers(lib, UpTo(defs, g, j), calls)[i] == Pass && Selected(lib, defs[g], calls[i])
    requires lib.isMatch(defs[g].rules[j].pattern, calls[i].line) ==>
               from <= to <= |calls[i].line| && lib.span(defs[g].rules[j].pattern, calls[i].line) == (from, to)
    ensures Loads(lib, UpTo(defs, g, j + 1))
    ensures var rule, line, said := defs[g].rules[j], calls[i].line, Answers(lib, UpTo(defs, g, j + 1), calls)[i];
            if !lib.isMatch(rule.pattern, line) then said == Pass
            else said.Replace? && exists x, y :: Around(line, from, to, rule.around, x, y) && Shows(line, x, y, said.text)
  {
    var rule, line := defs[g].rules[j], calls[i].line;
    SingleSays(lib, defs, calls, i, g, j);
    if lib.isMatch(rule.pattern, line) { WindowShows(line, from, to, rule.around); }
  }

  lemma {:induction false} ThreeParts(line: string, x: nat, from: nat, to: nat, y: nat)
    requires x <= from <= to <= y <= |line|
    ensures forall front: string, back: string :: front + line[x..from] + line[from..to] + line[to..y] + back == front + line[x..y] + back
  {
    assert line[x..y] == line[x..from] + line[from..to] + line[to..y];
    forall front: string, back: string
      ensures front + line[x..from] + line[from..to] + line[to..y] + back == front + line[x..y] + back
    {
      assert front + line[x..from] + line[from..to] + line[to..y] == front + line[x..y];
    }
  }

  lemma {:induction false} WindowShows(line: string, from: nat, to: nat, around: nat)
    requires from <= to <= |line|
    ensures exists x, y :: Around(line, from, to, around, x, y) && Shows(line, x, y, Windowed(line, from, to, around))
  {
    var x := if from > around then from - around else 0;
    var y := if |line| - to > around then to + around else |line|;
    ThreeParts(line, x, from, to, y);
    assert Around(line, from, to, around, x, y) && Shows(line, x, y, Windowed(line, from, to, around));
  }

  /** A line over the limit is cut so that with the ellipsis it is at the limit, or is the ellipsis alone. */
  lemma {:induction false} TruncateLongLaw(lib: RegexLib, defs: seq<FilterDef>, calls: seq<Call>, i: nat, g: nat, j: nat)
    requires Loads(lib, defs) && i < |calls| && g < |defs| && j < |defs[g].rules| && defs[g].rules[j].TruncateLong?
    requires Loads(lib, UpTo(defs, g, j)) && Answers(lib, UpTo(defs, g, j), calls)[i] == Pass && Selected(lib, defs[g], calls[i])
    ensures Loads(lib, UpTo(defs, g, j + 1))
    ensures var rule, line, said := defs[g].rules[j], calls[i].line, Answers(lib, UpTo(defs, g, j + 1), calls)[i];
            if |line| <= rule.maxLen then said == Pass
            else
              && said.Replace?
              && |said.text| == (if |rule.ellipsis| <= rule.maxLen then rule.maxLen else |rule.ellipsis|)
              && said.text == line[..|said.text| - |rule.ellipsis|] + rule.ellipsis
  {
    SingleSays(lib, defs, calls, i, g, j);
  }

  /** Words of the dictionary are substituted, and a line without any passes. */
  lemma {:induction false} SubstituteLaw(lib: RegexLib, defs: seq<FilterDef>, calls: seq<Call>, i: nat, g: nat, j: nat)
    requires Loads(lib, defs) && i < |calls| && g < |defs| && j < |defs[g].rules| && defs[g].rules[j].SubstituteWords?
    requires Loads(lib, UpTo(defs, g, j)) && Answers(lib, UpTo(defs, g, j), calls)[i] == Pass && Selected(lib, defs[g], calls[i])
    ensures Loads(lib, UpTo(defs, g, j + 1))
    ensures var rule, line, said := defs[g].rules[j], calls[i].line, Answers(lib, UpTo(defs, g, j + 1), calls)[i];
            && rule.pairs != []
            && (lib.substitute(rule.pairs, line).None? ==> said == Pass)
            && (lib.substitute(rule.pairs, line).Some? ==> said == Replace(lib.substitute(rule.pairs, line).value))
  {
    SingleSays(lib, defs, calls, i, g, j);
  }

  // ---------- rules with a state ----------

  /** The lines of a transcript that reach rule `j` of definition `g`: it is selected, and nothing in front of the rule spoke. */
  function Reached(lib: RegexLib, defs: seq<FilterDef>, calls: seq<Call>, g: nat, j: nat): seq<string>
    requires Loads(lib, defs) && g < |defs| && j <= |defs[g].rules| && Loads(lib, UpTo(defs, g, j))
  {
    if calls == [] then []
    else
      var n := |calls| - 1;
      if Selected(lib, defs[g], calls[n]) && Answers(lib, UpTo(defs, g, j), calls)[n] == Pass
      then Reached(lib, defs, calls[..n], g, j) + [calls[n].line]
      else Reached(lib, defs, calls[..n], g, j)
  }

  /** A front says nothing iff no group before its last does, nor, if that one is selected, its rules. */
  lemma {:induction false} FrontSilent(lib: RegexLib, groups: seq<Group>, command: string, subcommand: string, line: string, g: nat, j: nat)
    requires g < |groups| && j <= |groups[g].rules|
    ensures RunGroups(lib, Front(groups, g, j), command, subcommand, line).0.None? <==>
            && RunGroups(lib, groups[..g], command, subcommand, line).0.None?
            && (Selects(groups[g], command, subcommand) ==> RunRules(lib, groups[g].rules[..j], line).0.None?)
  {
    var cut := Front(groups, g, j);
    if g == 0 {
      assert groups[..0] == [] && cut[1..] == [];
    } else {
      assert cut[0] == groups[0] && cut[1..] == Front(groups[1..], g - 1, j);
      assert groups[..g][0] == groups[0] && groups[..g][1..] == groups[1..][..g - 1];
      FrontSilent(lib, groups[1..], command, subcommand, line, g - 1, j);
    }
  }

  lemma {:induction false} ReachedIsReaching(lib: RegexLib, defs: seq<FilterDef>, calls: seq<Call>, g: nat, j: nat)
    requires Loads(lib, defs) && g < |defs| && j < |defs[g].rules| && Loads(lib, UpTo(defs, g, j))
    ensures Reaching(lib, SeparateGroups(lib, defs), calls, g, j) == Reached(lib, defs, calls, g, j)
  {
    if calls != [] {
      var n, groups := |calls| - 1, SeparateGroups(lib, defs);
      var now, c := GroupsAfter(lib, groups, calls[..n]), calls[n];
      ReachedIsReaching(lib, defs, calls[..n], g, j);
      FrontAnswer(lib, defs, calls, n, g, j);
      GroupsOfTranscript(lib, groups, calls[..n]);
      KeepsSelector(lib, defs, calls[..n], g, c);
      NeverPasses(lib, Front(now, g, j), c.command, FirstWord(lib, c.args), c.line);
      FrontSilent(lib, now, c.command, FirstWord(lib, c.args), c.line, g, j);
    }
  }

  /** After a transcript a rule is what the lines that reached it make of it, so it flushes what they call for. */
  lemma {:induction false} RuleAfterCalls(lib: RegexLib, defs: seq<FilterDef>, calls: seq<Call>, g: nat, j: nat)
    requires Loads(lib, defs) && g < |defs| && j < |defs[g].rules|
    ensures Loads(lib, UpTo(defs, g, j)) && Compile(lib, defs[g].rules[j]).Ok?
    ensures var now := RunTranscript(lib, SeparateGroups(lib, defs), calls).1[g].rules;
            |now| == |defs[g].rules| && now[j] == After(lib, Compiled(lib, defs[g].rules[j]), Reached(lib, defs, calls, g, j))
  {
    assert AllCompile(lib, defs[g].rules);
    FrontOfDefs(lib, defs, g, j);
    RuleAfterTranscript(lib, SeparateGroups(lib, defs), calls, g, j);
    ReachedIsReaching(lib, defs, calls, g, j);
  }

  /** What any rule says about a line that reaches it: its opinion on the last of the lines that have reached it so far. */
  lemma {:induction false} RuleSays(lib: RegexLib, defs: seq<FilterDef>, calls: seq<Call>, i: nat, g: nat, j: nat)
    requires Loads(lib, defs) && i < |calls| && g < |defs| && j < |defs[g].rules| && Selected(lib, defs[g], calls[i])
    requires Loads(lib, UpTo(defs, g, j)) && Answers(lib, UpTo(defs, g, j), calls)[i] == Pass
    ensures Loads(lib, UpTo(defs, g, j + 1)) && Compile(lib, defs[g].rules[j]).Ok?
    ensures var lines := Reached(lib, defs, calls[..i], g, j) + [calls[i].line];
            Answers(lib, UpTo(defs, g, j + 1), calls)[i] == AsAnswer(Opinions(lib, Compiled(lib, defs[g].rules[j]), lines)[|lines| - 1])
  {
    var before := Reached(lib, defs, calls[..i], g, j);
    var lines := before + [calls[i].line];
    var now := RunTranscript(lib, SeparateGroups(lib, defs), calls[..i]).1[g].rules;
    StretchAnswer(lib, defs, calls, i, g, j, j + 1);
    RuleAfterCalls(lib, defs, calls[..i], g, j);
    OpinionAt(lib, Compiled(lib, defs[g].rules[j]), lines, |before|);
    assert lines[..|before|] == before;
    assert now[j..j + 1][0] == now[j] && now[j..j + 1][1..] == [];
  }
}
