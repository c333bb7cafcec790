/**
 `compile_group` fuses runs of `SuppressRegex` and of `TruncateMatch` rules. Fused and separately
 compiled rules are indistinguishable: same answer to every line of every transcript, same flush.
 */
module FilterFusion {
  import Seqs
  import opened Wrappers
  import opened Filter

  datatype CompileError = BadPattern | NoPairs | SetTooBig

  /** `Rule::compile`, one rule on its own. */
  function Compile(lib: RegexLib, rule: Rule): Result<CompiledRule, CompileError> {
    match rule
    case SuppressPrefix(prefix) => Ok(CSuppressPrefix(prefix))
    case SuppressRegex(p) => if lib.valid(p) then Ok(CSuppressRegex(p)) else Err(BadPattern)
    case KeepRegex(p) => if lib.valid(p) then Ok(CKeepRegex(p)) else Err(BadPattern)
    case CollapseRepeats(p, g) => if lib.valid(p) then Ok(CCollapseRepeats(p, g, None)) else Err(BadPattern)
    case TruncateMatch(p, replace) => if lib.valid(p) then Ok(CTruncateMatch(p, replace)) else Err(BadPattern)
    case CollapseRun(p, k, blanks) => if lib.valid(p) then Ok(CCollapseRun(p, k, blanks, 0)) else Err(BadPattern)
    case CollapseCommonPrefix(n, k) => Ok(CCollapseCommonPrefix(n, k, None, 0))
    case TruncateLong(n, ellipsis) => Ok(CTruncateLong(n, ellipsis))
    case ContextWindow(p, around) => if lib.valid(p) then Ok(CContextWindow(p, around)) else Err(BadPattern)
    case SubstituteWords(pairs) => if pairs != [] then Ok(CSubstituteWords(pairs)) else Err(NoPairs)
    case EmptyResultSubstitute(message) => Ok(CEmptyResultSubstitute(message, 0))
    case DedupWithCount(p, g) => if lib.valid(p) then Ok(CDedupWithCount(p, g, [])) else Err(BadPattern)
    case GroupByCapture(p, g, k, t, h) =>
      if lib.valid(p) then Ok(CGroupByCapture(p, g, k, t, h, Tray([], 0, 0))) else Err(BadPattern)
  }

  function Compiled(lib: RegexLib, rule: Rule): CompiledRule
    requires Compile(lib, rule).Ok?
  {
    Compile(lib, rule).value
  }

  /** Every rule compiles on its own. */
  predicate AllCompile(lib: RegexLib, rules: seq<Rule>) {
    forall i :: 0 <= i < |rules| ==> Compile(lib, rules[i]).Ok?
  }

  /** The pattern of the rule, if it has one, is valid, and a dictionary is not empty. */
  predicate WellFormed(lib: RegexLib, rule: Rule) {
    if rule.SubstituteWords? then rule.pairs != []
    else rule.SuppressPrefix? || rule.CollapseCommonPrefix? || rule.TruncateLong? || rule.EmptyResultSubstitute? || lib.valid(rule.pattern)
  }

  /** A rule compiles on its own iff it is well formed; the error says which way it is not. */
  lemma {:induction false} CompilesIffWellFormed(lib: RegexLib, rule: Rule)
    ensures Compile(lib, rule).Ok? <==> WellFormed(lib, rule)
    ensures Compile(lib, rule).Err? ==> Compile(lib, rule).error == if rule.SubstituteWords? then NoPairs else BadPattern
  {
  }

  /** The reference: compile each rule separately. */
  function CompileEach(lib: RegexLib, rules: seq<Rule>): (r: seq<CompiledRule>)
    requires AllCompile(lib, rules)
    ensures |r| == |rules|
  {
    seq(|rules|, i requires 0 <= i < |rules| => Compile(lib, rules[i]).value)
  }

  function SuppressRun(res: seq<string>): (r: seq<CompiledRule>)
    ensures |r| == |res| && forall i :: 0 <= i < |res| ==> r[i] == CSuppressRegex(res[i])
  {
    seq(|res|, i requires 0 <= i < |res| => CSuppressRegex(res[i]))
  }

  function TruncateRun(rules: seq<(string, string)>): (r: seq<CompiledRule>)
    ensures |r| == |rules| && forall i :: 0 <= i < |rules| ==> r[i] == CTruncateMatch(rules[i].0, rules[i].1)
  {
    seq(|rules|, i requires 0 <= i < |rules| => CTruncateMatch(rules[i].0, rules[i].1))
  }

  /** The rules a compiled rule stands for: a set stands for its members, in order. */
  function Members(c: CompiledRule): seq<CompiledRule> {
    match c
    case CSuppressRegexSet(res) => SuppressRun(res)
    case CTruncateMatchSet(rules) => TruncateRun(rules)
    case _ => [c]
  }

  function Flat<T>(ss: seq<seq<T>>): seq<T> {
    if ss == [] then [] else ss[0] + Flat(ss[1..])
  }

  lemma {:induction false} FlatSnoc<T>(ss: seq<seq<T>>, s: seq<T>)
    ensures Flat(ss + [s]) == Flat(ss) + s
  {
    if ss == [] {
      assert ss + [s] == [s] && [s][1..] == [];
    } else {
      FlatSnoc(ss[1..], s);
      assert (ss + [s])[1..] == ss[1..] + [s];
      assert ss[0] + (Flat(ss[1..]) + s) == (ss[0] + Flat(ss[1..])) + s;
    }
  }

  function AllMembers(cs: seq<CompiledRule>): (r: seq<seq<CompiledRule>>)
    ensures |r| == |cs| && forall i :: 0 <= i < |cs| ==> r[i] == Members(cs[i])
  {
    seq(|cs|, i requires 0 <= i < |cs| => Members(cs[i]))
  }

  /** The rules a list of compiled rules stands for. */
  function Unfuse(cs: seq<CompiledRule>): seq<CompiledRule> {
    Flat(AllMembers(cs))
  }

  lemma {:induction false} UnfuseHead(cs: seq<CompiledRule>)
    requires cs != []
    ensures Unfuse(cs) == Members(cs[0]) + Unfuse(cs[1..])
  {
    assert AllMembers(cs)[1..] == AllMembers(cs[1..]);
  }

  lemma {:induction false} UnfuseLast(cs: seq<CompiledRule>, c: CompiledRule)
    ensures Unfuse(cs + [c]) == Unfuse(cs) + Members(c)
  {
    assert AllMembers(cs + [c]) == AllMembers(cs) + [Members(c)];
    FlatSnoc(AllMembers(cs), Members(c));
  }

  // ---------- the compiler ----------

  /** No two neighbours could still be fused. */
  predicate FullyFused(cs: seq<CompiledRule>) {
    forall i :: 0 <= i < |cs| - 1 ==>
                  && !(IsSuppressRegex(cs[i]) && IsSuppressRegex(cs[i + 1]))
                  && !(IsTruncateMatch(cs[i]) && IsTruncateMatch(cs[i + 1]))
  }

  predicate IsSuppressRegex(c: CompiledRule) { c.CSuppressRegex? || c.CSuppressRegexSet? }

  predicate IsTruncateMatch(c: CompiledRule) { c.CTruncateMatch? || c.CTruncateMatchSet? }

  /** Does the next rule, if any, continue a run of the kind of `c`? */
  predicate Continues(c: CompiledRule, rules: seq<Rule>, i: nat) {
    i < |rules| && ((IsSuppressRegex(c) && rules[i].SuppressRegex?) || (IsTruncateMatch(c) && rules[i].TruncateMatch?))
  }

  lemma {:induction false} EmitKeepsInvariant(lib: RegexLib, rules: seq<Rule>, i: nat, j: nat, out: seq<CompiledRule>, c: CompiledRule)
    requires i < j <= |rules| && AllCompile(lib, rules[..i]) && Unfuse(out) == CompileEach(lib, rules[..i])
    requires AllCompile(lib, rules[i..j]) && Members(c) == CompileEach(lib, rules[i..j])
    ensures AllCompile(lib, rules[..j]) && Unfuse(out + [c]) == CompileEach(lib, rules[..j])
  {
    forall k | 0 <= k < j ensures Compile(lib, rules[..j][k]).Ok? {
      if k >= i { assert rules[..j][k] == rules[i..j][k - i]; } else { assert rules[..j][k] == rules[..i][k]; }
    }
    UnfuseLast(out, c);
    var each := CompileEach(lib, rules[..j]);
    assert each == CompileEach(lib, rules[..i]) + CompileEach(lib, rules[i..j]);
  }

  lemma {:induction false} EmitKeepsFused(rules: seq<Rule>, i: nat, out: seq<CompiledRule>, c: CompiledRule)
    requires FullyFused(out) && i < |rules| && (out != [] ==> !Continues(out[|out| - 1], rules, i))
    requires (IsSuppressRegex(c) <==> rules[i].SuppressRegex?) && (IsTruncateMatch(c) <==> rules[i].TruncateMatch?)
    ensures FullyFused(out + [c])
  {
    var all := out + [c];
    forall k | 0 <= k < |all| - 1
      ensures !(IsSuppressRegex(all[k]) && IsSuppressRegex(all[k + 1])) && !(IsTruncateMatch(all[k]) && IsTruncateMatch(all[k + 1]))
    {
      assert all[k] == out[k];
      if k + 1 < |out| { assert all[k + 1] == out[k + 1]; }
    }
  }

  // ---------- runs ----------

  datatype Kind = Suppressing | Truncating | Alone

  function KindOf(rule: Rule): Kind {
    match rule case SuppressRegex(_) => Suppressing case TruncateMatch(_, _) => Truncating case _ => Alone
  }

  /** No run of fusible rules goes on from before `i`. */
  predicate StartsAfresh(rules: seq<Rule>, i: nat) {
    i <= |rules| && (0 < i < |rules| && KindOf(rules[i]) != Alone ==> KindOf(rules[i - 1]) != KindOf(rules[i]))
  }

  /** `rules[i..j]` is as long a run of fusible rules of one kind as there is. */
  ghost predicate IsRun(rules: seq<Rule>, i: nat, j: nat) {
    && i < j <= |rules| && KindOf(rules[i]) != Alone && StartsAfresh(rules, i)
    && (forall k :: i <= k < j ==> KindOf(rules[k]) == KindOf(rules[i]))
    && (j < |rules| ==> KindOf(rules[j]) != KindOf(rules[i]))
  }

  /** The pattern of a rule that can be fused. */
  function PatternOf(rule: Rule): string {
    match rule case SuppressRegex(p) => p case TruncateMatch(p, _) => p case _ => ""
  }

  function RunPatterns(rules: seq<Rule>, i: nat, j: nat): (r: seq<string>)
    requires i <= j <= |rules|
    ensures |r| == j - i && forall k :: 0 <= k < j - i ==> r[k] == PatternOf(rules[i + k])
  {
    seq(j - i, k requires 0 <= k < j - i => PatternOf(rules[i + k]))
  }

  /** The patterns of a run of several rules fit into one set. */
  ghost predicate RunFits(lib: RegexLib, rules: seq<Rule>, i: nat, j: nat)
    requires IsRun(rules, i, j)
  {
    j - i >= 2 ==> lib.fits(RunPatterns(rules, i, j))
  }

  ghost predicate RunsFit(lib: RegexLib, rules: seq<Rule>, upTo: nat) {
    forall i, j :: 0 <= i < upTo && IsRun(rules, i, j) ==> RunFits(lib, rules, i, j)
  }

  lemma {:induction false} RunsFitBeyond(lib: RegexLib, rules: seq<Rule>, i: nat, j: nat)
    requires RunsFit(lib, rules, i) && IsRun(rules, i, j) && RunFits(lib, rules, i, j)
    ensures RunsFit(lib, rules, j)
  {
    forall a, b | 0 <= a < j && IsRun(rules, a, b) ensures RunFits(lib, rules, a, b) {
      if a >= i { OneRunAt(rules, i, j, a, b); }
    }
  }

  lemma {:induction false} OneRunAt(rules: seq<Rule>, i: nat, j: nat, a: nat, b: nat)
    requires IsRun(rules, i, j) && IsRun(rules, a, b) && i <= a < j
    ensures a == i && b == j
  {
  }

  /** Gather the run of `SuppressRegex` patterns that starts at `i`. */
  method TakeSuppressRun(rules: seq<Rule>, i: nat) returns (patterns: seq<string>, j: nat)
    requires i < |rules| && rules[i].SuppressRegex?
    ensures i < j <= |rules| && |patterns| == j - i
    ensures forall k :: 0 <= k < |patterns| ==> rules[i + k] == SuppressRegex(patterns[k])
    ensures j < |rules| ==> !rules[j].SuppressRegex?
  {
    patterns, j := [rules[i].pattern], i + 1;
    while j < |rules| && rules[j].SuppressRegex?
      invariant i < j <= |rules| && |patterns| == j - i
      invariant forall k :: 0 <= k < |patterns| ==> rules[i + k] == SuppressRegex(patterns[k])
    {
      patterns, j := patterns + [rules[j].pattern], j + 1;
    }
  }

  method TakeTruncateRun(rules: seq<Rule>, i: nat) returns (pairs: seq<(string, string)>, j: nat)
    requires i < |rules| && rules[i].TruncateMatch?
    ensures i < j <= |rules| && |pairs| == j - i
    ensures forall k :: 0 <= k < |pairs| ==> rules[i + k] == TruncateMatch(pairs[k].0, pairs[k].1)
    ensures j < |rules| ==> !rules[j].TruncateMatch?
  {
    pairs, j := [(rules[i].pattern, rules[i].replace)], i + 1;
    while j < |rules| && rules[j].TruncateMatch?
      invariant i < j <= |rules| && |pairs| == j - i
      invariant forall k :: 0 <= k < |pairs| ==> rules[i + k] == TruncateMatch(pairs[k].0, pairs[k].1)
    {
      pairs, j := pairs + [(rules[j].pattern, rules[j].replace)], j + 1;
    }
  }

  /** `c` is a correct compilation of rules `i..j`, after which the run does not go on. */
  ghost predicate CompiledRun(lib: RegexLib, rules: seq<Rule>, i: nat, j: nat, c: CompiledRule)
    requires i < j <= |rules|
  {
    && AllCompile(lib, rules[i..j]) && Members(c) == CompileEach(lib, rules[i..j])
    && !Continues(c, rules, j)
    && (IsSuppressRegex(c) <==> rules[i].SuppressRegex?)
    && (IsTruncateMatch(c) <==> rules[i].TruncateMatch?)
  }

  lemma {:induction false} SuppressesAre(rules: seq<Rule>, i: nat, j: nat, patterns: seq<string>)
    requires i <= j <= |rules| && |patterns| == j - i && forall k :: 0 <= k < |patterns| ==> rules[i + k] == SuppressRegex(patterns[k])
    ensures (forall k :: i <= k < j ==> KindOf(rules[k]) == Suppressing) && RunPatterns(rules, i, j) == patterns
  {
    forall k | i <= k < j ensures KindOf(rules[k]) == Suppressing {
      assert rules[i + (k - i)] == SuppressRegex(patterns[k - i]);
    }
    var r := RunPatterns(rules, i, j);
    forall k | 0 <= k < j - i ensures r[k] == patterns[k] {
      assert r[k] == PatternOf(rules[i + k]);
    }
  }

  lemma {:induction false} TruncatesAre(rules: seq<Rule>, i: nat, j: nat, pairs: seq<(string, string)>)
    requires i <= j <= |rules| && |pairs| == j - i && forall k :: 0 <= k < |pairs| ==> rules[i + k] == TruncateMatch(pairs[k].0, pairs[k].1)
    ensures (forall k :: i <= k < j ==> KindOf(rules[k]) == Truncating) && RunPatterns(rules, i, j) == Patterns(pairs)
  {
    forall k | i <= k < j ensures KindOf(rules[k]) == Truncating {
      assert rules[i + (k - i)] == TruncateMatch(pairs[k - i].0, pairs[k - i].1);
    }
    var r := RunPatterns(rules, i, j);
    forall k | 0 <= k < j - i ensures r[k] == Patterns(pairs)[k] {
      assert r[k] == PatternOf(rules[i + k]);
    }
  }

  /** A regex set is built iff each of its patterns is valid and together they fit. */
  method CompileSuppressRun(lib: RegexLib, rules: seq<Rule>, i: nat) returns (c: Result<CompiledRule, CompileError>, j: nat)
    requires i < |rules| && rules[i].SuppressRegex? && StartsAfresh(rules, i)
    ensures IsRun(rules, i, j)
    ensures c.Err? ==> !AllCompile(lib, rules) || !RunFits(lib, rules, i, j)
    ensures c.Ok? ==> CompiledRun(lib, rules, i, j, c.value) && RunFits(lib, rules, i, j)
  {
    var patterns;
    patterns, j := TakeSuppressRun(rules, i);
    SuppressesAre(rules, i, j, patterns);
    if k :| 0 <= k < |patterns| && !lib.valid(patterns[k]) {
      assert Compile(lib, rules[i + k]).Err?;
      return Err(BadPattern), j;
    }
    if |patterns| >= 2 && !lib.fits(patterns) {
      return Err(SetTooBig), j;
    }
    c := Ok(if |patterns| == 1 then CSuppressRegex(patterns[0]) else CSuppressRegexSet(patterns));
    SuppressRunCompiled(lib, rules, i, j, patterns, c.value);
  }

  lemma {:induction false} SuppressRunCompiled(lib: RegexLib, rules: seq<Rule>, i: nat, j: nat, patterns: seq<string>, c: CompiledRule)
    requires IsRun(rules, i, j) && |patterns| == j - i && forall k :: 0 <= k < |patterns| ==> rules[i + k] == SuppressRegex(patterns[k])
    requires forall k :: 0 <= k < |patterns| ==> lib.valid(patterns[k])
    requires c == if |patterns| == 1 then CSuppressRegex(patterns[0]) else CSuppressRegexSet(patterns)
    ensures CompiledRun(lib, rules, i, j, c)
  {
    forall k | 0 <= k < j - i ensures rules[i..j][k] == SuppressRegex(patterns[k]) {
      assert rules[i..j][k] == rules[i + k];
    }
    assert rules[i] == rules[i + 0];
    assert Members(c) == SuppressRun(patterns);
    assert CompileEach(lib, rules[i..j]) == SuppressRun(patterns);
  }

  method CompileTruncateRun(lib: RegexLib, rules: seq<Rule>, i: nat) returns (c: Result<CompiledRule, CompileError>, j: nat)
    requires i < |rules| && rules[i].TruncateMatch? && StartsAfresh(rules, i)
    ensures IsRun(rules, i, j)
    ensures c.Err? ==> !AllCompile(lib, rules) || !RunFits(lib, rules, i, j)
    ensures c.Ok? ==> CompiledRun(lib, rules, i, j, c.value) && RunFits(lib, rules, i, j)
  {
    var pairs;
    pairs, j := TakeTruncateRun(rules, i);
    TruncatesAre(rules, i, j, pairs);
    if |pairs| >= 2 && !lib.fits(Patterns(pairs)) {
      return Err(SetTooBig), j;
    }
    if k :| 0 <= k < |pairs| && !lib.valid(pairs[k].0) {
      assert Compile(lib, rules[i + k]).Err?;
      return Err(BadPattern), j;
    }
    c := Ok(if |pairs| == 1 then CTruncateMatch(pairs[0].0, pairs[0].1) else CTruncateMatchSet(pairs));
    TruncateRunCompiled(lib, rules, i, j, pairs, c.value);
  }

  lemma {:induction false} TruncateRunCompiled(lib: RegexLib, rules: seq<Rule>, i: nat, j: nat, pairs: seq<(string, string)>, c: CompiledRule)
    requires IsRun(rules, i, j) && |pairs| == j - i && forall k :: 0 <= k < |pairs| ==> rules[i + k] == TruncateMatch(pairs[k].0, pairs[k].1)
    requires forall k :: 0 <= k < |pairs| ==> lib.valid(pairs[k].0)
    requires c == if |pairs| == 1 then CTruncateMatch(pairs[0].0, pairs[0].1) else CTruncateMatchSet(pairs)
    ensures CompiledRun(lib, rules, i, j, c)
  {
    forall k | 0 <= k < j - i ensures rules[i..j][k] == TruncateMatch(pairs[k].0, pairs[k].1) {
      assert rules[i..j][k] == rules[i + k];
    }
    assert rules[i] == rules[i + 0];
    assert Members(c) == TruncateRun(pairs);
    assert CompileEach(lib, rules[i..j]) == TruncateRun(pairs);
  }

  lemma {:induction false} SingleRun(lib: RegexLib, rules: seq<Rule>, i: nat)
    requires i < |rules| && !rules[i].SuppressRegex? && !rules[i].TruncateMatch? && Compile(lib, rules[i]).Ok?
    ensures CompiledRun(lib, rules, i, i + 1, Compile(lib, rules[i]).value)
  {
    assert rules[i..i + 1] == [rules[i]];
    assert CompileEach(lib, [rules[i]]) == [Compile(lib, rules[i]).value];
  }

  /** What was emitted for the first `i` rules is their separate compilation regrouped, and could not be fused any further. */
  ghost predicate Emitted(lib: RegexLib, rules: seq<Rule>, i: nat, out: seq<CompiledRule>) {
    && i <= |rules| && AllCompile(lib, rules[..i]) && Unfuse(out) == CompileEach(lib, rules[..i])
    && FullyFused(out) && (out != [] ==> !Continues(out[|out| - 1], rules, i))
    && StartsAfresh(rules, i) && RunsFit(lib, rules, i)
  }

  lemma {:induction false} EmitOne(lib: RegexLib, rules: seq<Rule>, i: nat, j: nat, out: seq<CompiledRule>, c: CompiledRule)
    requires Emitted(lib, rules, i, out) && i < j <= |rules| && CompiledRun(lib, rules, i, j, c)
    requires if KindOf(rules[i]) == Alone then j == i + 1 else IsRun(rules, i, j) && RunFits(lib, rules, i, j)
    ensures Emitted(lib, rules, j, out + [c])
  {
    EmitKeepsInvariant(lib, rules, i, j, out, c);
    EmitKeepsFused(rules, i, out, c);
    if KindOf(rules[i]) != Alone {
      RunsFitBeyond(lib, rules, i, j);
      assert KindOf(rules[j - 1]) == KindOf(rules[i]);
    }
  }

  /**
   `compile_group`: fails iff some rule fails alone or some run of several fusible rules does not fit
   into one set, and otherwise only regroups the separate compilation.
   */
  method CompileGroup(lib: RegexLib, rules: seq<Rule>) returns (r: Result<seq<CompiledRule>, CompileError>)
    ensures r.Ok? <==> AllCompile(lib, rules) && RunsFit(lib, rules, |rules|)
    ensures r.Ok? <==> (forall i :: 0 <= i < |rules| ==> WellFormed(lib, rules[i])) && RunsFit(lib, rules, |rules|)
    ensures r.Ok? ==> Unfuse(r.value) == CompileEach(lib, rules) && FullyFused(r.value)
  {
    forall i | 0 <= i < |rules| ensures Compile(lib, rules[i]).Ok? <==> WellFormed(lib, rules[i]) {
      CompilesIffWellFormed(lib, rules[i]);
    }
    var out: seq<CompiledRule> := [];
    var i := 0;
    while i < |rules|
      invariant 0 <= i <= |rules| && Emitted(lib, rules, i, out)
    {
      var c, j;
      match rules[i] {
        case SuppressRegex(_) => c, j := CompileSuppressRun(lib, rules, i);
        case TruncateMatch(_, _) => c, j := CompileTruncateRun(lib, rules, i);
        case other =>
          c, j := Compile(lib, other), i + 1;
          if c.Ok? { SingleRun(lib, rules, i); }
      }
      if c.Err? {
        return Err(c.error);
      }
      EmitOne(lib, rules, i, j, out, c.value);
      out, i := out + [c.value], j;
    }
    assert rules[..|rules|] == rules;
    return Ok(out);
  }

  // ---------- one line ----------

  lemma {:induction false} SuppressRunAnswers(lib: RegexLib, res: seq<string>, rest: seq<CompiledRule>, line: string)
    ensures RunRules(lib, SuppressRun(res) + rest, line) ==
            if FirstMatch(lib, res, line).Some? then (Some(Suppress), SuppressRun(res) + rest)
            else (RunRules(lib, rest, line).0, SuppressRun(res) + RunRules(lib, rest, line).1)
  {
    var later := RunRules(lib, rest, line).1;
    if res == [] {
      assert SuppressRun(res) + rest == rest && SuppressRun(res) + later == later;
    } else {
      var c, run := CSuppressRegex(res[0]), SuppressRun(res[1..]);
      assert SuppressRun(res) == [c] + run;
      assert [c] + run + rest == [c] + (run + rest) && [c] + run + later == [c] + (run + later);
      SuppressRunAnswers(lib, res[1..], rest, line);
    }
  }

  lemma {:induction false} OneRuleAnswers(lib: RegexLib, c: CompiledRule, rest: seq<CompiledRule>, line: string)
    ensures var (said, head) := Apply(lib, c, line);
            RunRules(lib, [c] + rest, line) ==
            if said.Some? then (said, [head] + rest) else (RunRules(lib, rest, line).0, [head] + RunRules(lib, rest, line).1)
  {
    assert ([c] + rest)[1..] == rest;
  }

  lemma {:induction false} FirstOfPatterns(lib: RegexLib, rules: seq<(string, string)>, line: string)
    requires rules != []
    ensures FirstMatch(lib, Patterns(rules), line) ==
            if lib.isMatch(rules[0].0, line) then Some(0)
            else match FirstMatch(lib, Patterns(rules[1..]), line) case Some(i) => Some(i + 1) case None => None
  {
    assert Patterns(rules)[1..] == Patterns(rules[1..]);
  }

  lemma {:induction false} TruncateRunAnswers(lib: RegexLib, rules: seq<(string, string)>, rest: seq<CompiledRule>, line: string)
    ensures RunRules(lib, TruncateRun(rules) + rest, line) ==
            match FirstMatch(lib, Patterns(rules), line)
            case Some(i) => (ReplaceIfMatch(lib, rules[i].0, rules[i].1, line), TruncateRun(rules) + rest)
            case None => (RunRules(lib, rest, line).0, TruncateRun(rules) + RunRules(lib, rest, line).1)
  {
    var later := RunRules(lib, rest, line).1;
    if rules == [] {
      assert TruncateRun(rules) + rest == rest && TruncateRun(rules) + later == later;
    } else {
      var c, run := CTruncateMatch(rules[0].0, rules[0].1), TruncateRun(rules[1..]);
      TruncateRunAnswers(lib, rules[1..], rest, line);
      assert TruncateRun(rules) == [c] + run;
      Seqs.Associates([c], run, rest);
      Seqs.Associates([c], run, later);
      OneRuleAnswers(lib, c, run + rest, line);
      FirstOfPatterns(lib, rules, line);
    }
  }

  /** Run in front of any rules, the members of a compiled rule say and become what the rule says and becomes. */
  lemma {:induction false} MembersAnswer(lib: RegexLib, c: CompiledRule, rest: seq<CompiledRule>, line: string)
    ensures var (said, head) := Apply(lib, c, line);
            RunRules(lib, Members(c) + rest, line) ==
            if said.Some? then (said, Members(head) + rest)
            else (RunRules(lib, rest, line).0, Members(head) + RunRules(lib, rest, line).1)
  {
    match c {
      case CSuppressRegexSet(res) => SuppressRunAnswers(lib, res, rest, line);
      case CTruncateMatchSet(rules) => TruncateRunAnswers(lib, rules, rest, line);
      case _ =>
        assert Members(c) == [c] && Members(Apply(lib, c, line).1) == [Apply(lib, c, line).1];
    }
  }

  lemma {:induction false} UnfuseCons(c: CompiledRule, cs: seq<CompiledRule>)
    ensures Unfuse([c] + cs) == Members(c) + Unfuse(cs)
  {
    UnfuseHead([c] + cs);
    assert ([c] + cs)[1..] == cs;
  }

  /** One line: fused and separate rules answer alike, and the separate states are the unfused states. */
  lemma {:induction false} FusedLine(lib: RegexLib, cs: seq<CompiledRule>, line: string)
    ensures var (opinion, after) := RunRules(lib, cs, line);
            RunRules(lib, Unfuse(cs), line) == (opinion, Unfuse(after))
  {
    if cs != [] {
      var c, tail := cs[0], cs[1..];
      var (said, head) := Apply(lib, c, line);
      UnfuseHead(cs);
      MembersAnswer(lib, c, Unfuse(tail), line);
      FusedLine(lib, tail, line);
      UnfuseCons(head, if said.Some? then tail else RunRules(lib, tail, line).1);
    }
  }

  lemma {:induction false} FlushAppend(a: seq<CompiledRule>, b: seq<CompiledRule>, text: string)
    ensures FlushRules(a + b, text) == FlushRules(b, FlushRules(a, text))
  {
    if a == [] {
      assert a + b == b;
    } else {
      var next := AddSummary(text, Summary(a[0]));
      assert (a + b)[0] == a[0] && (a + b)[1..] == a[1..] + b;
      FlushAppend(a[1..], b, next);
    }
  }

  lemma {:induction false} SilentFlush(cs: seq<CompiledRule>, text: string)
    requires forall i :: 0 <= i < |cs| ==> Summary(cs[i]) == None
    ensures FlushRules(cs, text) == text
  {
    if cs != [] { SilentFlush(cs[1..], text); }
  }

  lemma {:induction false} FusedFlush(cs: seq<CompiledRule>, text: string)
    ensures FlushRules(Unfuse(cs), text) == FlushRules(cs, text)
  {
    if cs != [] {
      UnfuseHead(cs);
      FlushAppend(Members(cs[0]), Unfuse(cs[1..]), text);
      FusedFlush(cs[1..], AddSummary(text, Summary(cs[0])));
      match cs[0] {
        case CSuppressRegexSet(res) => SilentFlush(SuppressRun(res), text);
        case CTruncateMatchSet(rules) => SilentFlush(TruncateRun(rules), text);
        case _ =>
          assert Members(cs[0]) == [cs[0]] && [cs[0]][1..] == [];
      }
    }
  }

  // ---------- groups and transcripts ----------

  function UnfuseGroups(groups: seq<Group>): (r: seq<Group>)
    ensures |r| == |groups| && forall i :: 0 <= i < |groups| ==> r[i] == groups[i].(rules := Unfuse(groups[i].rules))
  {
    seq(|groups|, i requires 0 <= i < |groups| => groups[i].(rules := Unfuse(groups[i].rules)))
  }

  lemma {:induction false} UnfuseGroupsCons(g: Group, groups: seq<Group>)
    ensures UnfuseGroups([g] + groups) == [g.(rules := Unfuse(g.rules))] + UnfuseGroups(groups)
  {
  }

  lemma {:induction false} FusedGroups(lib: RegexLib, groups: seq<Group>, command: string, subcommand: string, line: string)
    ensures var (opinion, after) := RunGroups(lib, groups, command, subcommand, line);
            RunGroups(lib, UnfuseGroups(groups), command, subcommand, line) == (opinion, UnfuseGroups(after))
  {
    if groups == [] {
      assert UnfuseGroups(groups) == [];
    } else {
      var g, tail := groups[0], groups[1..];
      FusedGroups(lib, tail, command, subcommand, line);
      FusedLine(lib, g.rules, line);
      assert groups == [g] + tail;
      UnfuseGroupsCons(g, tail);
      assert UnfuseGroups(groups)[1..] == UnfuseGroups(tail);
      var (opinion, rules) := RunRules(lib, g.rules, line);
      var later := RunGroups(lib, tail, command, subcommand, line).1;
      UnfuseGroupsCons(g, later);
      UnfuseGroupsCons(g.(rules := rules), later);
      UnfuseGroupsCons(g.(rules := rules), tail);
    }
  }

  /** One call of `filter`: the line, the proxied command and its arguments. */
  datatype Call = Call(line: string, command: string, args: string)

  /** The answers a plugin gives to a whole transcript, and its groups at the end. */
  function RunTranscript(lib: RegexLib, groups: seq<Group>, calls: seq<Call>): (r: (seq<FilterResult>, seq<Group>))
    ensures |r.0| == |calls| && |r.1| == |groups|
  {
    if calls == [] then ([], groups)
    else
      var c := calls[|calls| - 1];
      var (answers, before) := RunTranscript(lib, groups, calls[..|calls| - 1]);
      var (opinion, after) := RunGroups(lib, before, c.command, FirstWord(lib, c.args), c.line);
      (answers + [if opinion.Some? then opinion.value else Pass], after)
  }

  lemma {:induction false} FusedTranscript(lib: RegexLib, groups: seq<Group>, calls: seq<Call>)
    ensures var (answers, after) := RunTranscript(lib, groups, calls);
            RunTranscript(lib, UnfuseGroups(groups), calls) == (answers, UnfuseGroups(after))
  {
    if calls != [] {
      var c := calls[|calls| - 1];
      FusedTranscript(lib, groups, calls[..|calls| - 1]);
      FusedGroups(lib, RunTranscript(lib, groups, calls[..|calls| - 1]).1, c.command, FirstWord(lib, c.args), c.line);
    }
  }

  lemma {:induction false} FusedGroupsFlush(groups: seq<Group>, text: string)
    ensures FlushGroups(UnfuseGroups(groups), text) == FlushGroups(groups, text)
  {
    if groups != [] {
      FusedFlush(groups[0].rules, text);
      assert UnfuseGroups(groups)[1..] == UnfuseGroups(groups[1..]);
      FusedGroupsFlush(groups[1..], FlushRules(groups[0].rules, text));
    }
  }

  /** A filter file: its selector and its rules. */
  datatype FilterDef = FilterDef(command: Option<string>, subcommands: seq<string>, rules: seq<Rule>)

  /** `load_dir`: one group per definition, each compiled by `compile_group`. */
  method LoadGroups(lib: RegexLib, defs: seq<FilterDef>) returns (r: Result<seq<Group>, CompileError>)
    ensures r.Ok? <==> forall i :: 0 <= i < |defs| ==> AllCompile(lib, defs[i].rules) && RunsFit(lib, defs[i].rules, |defs[i].rules|)
    ensures r.Ok? ==>
              && |r.value| == |defs|
              && UnfuseGroups(r.value) == SeparateGroups(lib, defs)
  {
    var groups: seq<Group> := [];
    for i := 0 to |defs|
      invariant |groups| == i
      invariant forall k :: 0 <= k < i ==> AllCompile(lib, defs[k].rules) && RunsFit(lib, defs[k].rules, |defs[k].rules|)
      invariant forall k :: 0 <= k < i ==>
                  && groups[k].command == defs[k].command && groups[k].subcommands == defs[k].subcommands
                  && Unfuse(groups[k].rules) == CompileEach(lib, defs[k].rules)
    {
      var rules := CompileGroup(lib, defs[i].rules);
      if rules.Err? {
        return Err(rules.error);
      }
      groups := groups + [Group(defs[i].command, defs[i].subcommands, rules.value)];
    }
    return Ok(groups);
  }

  /** The same groups with every rule compiled on its own. */
  function SeparateGroups(lib: RegexLib, defs: seq<FilterDef>): seq<Group>
    requires forall i :: 0 <= i < |defs| ==> AllCompile(lib, defs[i].rules)
  {
    seq(|defs|, i requires 0 <= i < |defs| => Group(defs[i].command, defs[i].subcommands, CompileEach(lib, defs[i].rules)))
  }

  /**
   Fusion preserves meaning: whatever the definitions and the transcript, the fused groups give the
   answers of the separately compiled ones, and the same flush text.
   */
  lemma {:induction false} FusionPreservesMeaning(lib: RegexLib, defs: seq<FilterDef>, fused: seq<Group>, calls: seq<Call>)
    requires forall i :: 0 <= i < |defs| ==> AllCompile(lib, defs[i].rules)
    requires UnfuseGroups(fused) == SeparateGroups(lib, defs)
    ensures RunTranscript(lib, fused, calls).0 == RunTranscript(lib, SeparateGroups(lib, defs), calls).0
    ensures FlushGroups(RunTranscript(lib, fused, calls).1, "") == FlushGroups(RunTranscript(lib, SeparateGroups(lib, defs), calls).1, "")
  {
    FusedTranscript(lib, fused, calls);
    FusedGroupsFlush(RunTranscript(lib, fused, calls).1, "");
  }
}
