/**
 What the stateful rules amount to over a whole run: run collapsing, prefix collapsing, repeat
 collapsing, empty results and counted dedup, each against a rule stated on the lines alone.
 `lines` are the lines that reach the rule, in order (see `FilterRuns`). Counters are `u32` and wrap.
 */
module FilterLaws {
  import opened Wrappers
  import opened Utf8
  import opened Filter
  import opened FilterFusion
  import opened Wrapping

  /** The answers of a stepping machine to a sequence of lines, and its state afterwards. */
  function Fold<S, O>(step: (S, string) -> (O, S), state: S, lines: seq<string>): (r: (seq<O>, S))
    ensures |r.0| == |lines|
  {
    if lines == [] then ([], state)
    else
      var (said, before) := Fold(step, state, lines[..|lines| - 1]);
      var (opinion, after) := step(before, lines[|lines| - 1]);
      (said + [opinion], after)
  }

  function StepOf(lib: RegexLib): (CompiledRule, string) -> (Option<FilterResult>, CompiledRule) {
    (rule, line) => Apply(lib, rule, line)
  }

  /** A rule's opinions on the lines it observes. */
  function Opinions(lib: RegexLib, rule: CompiledRule, lines: seq<string>): (r: seq<Option<FilterResult>>)
    ensures |r| == |lines|
  {
    Fold(StepOf(lib), rule, lines).0
  }

  /** The rule's state after those lines. */
  function After(lib: RegexLib, rule: CompiledRule, lines: seq<string>): CompiledRule {
    Fold(StepOf(lib), rule, lines).1
  }

  lemma {:induction false} FoldAt<S, O>(step: (S, string) -> (O, S), state: S, lines: seq<string>, i: nat)
    requires i < |lines|
    ensures Fold(step, state, lines).0[i] == step(Fold(step, state, lines[..i]).1, lines[i]).0
  {
    var n := |lines| - 1;
    if i < n {
      FoldAt(step, state, lines[..n], i);
      assert lines[..n][..i] == lines[..i];
    }
  }

  /** The opinion on line `i` comes from the state after the lines before it. */
  lemma {:induction false} OpinionAt(lib: RegexLib, rule: CompiledRule, lines: seq<string>, i: nat)
    requires i < |lines|
    ensures Opinions(lib, rule, lines)[i] == Apply(lib, After(lib, rule, lines[..i]), lines[i]).0
  {
    FoldAt(StepOf(lib), rule, lines, i);
  }

  lemma {:induction false} AfterLast(lib: RegexLib, rule: CompiledRule, lines: seq<string>)
    ensures lines == [] ==> After(lib, rule, lines) == rule
    ensures lines != [] ==> After(lib, rule, lines) == Apply(lib, After(lib, rule, lines[..|lines| - 1]), lines[|lines| - 1]).1
  {
  }

  // ---------- CollapseRun ----------

  /** A line that ends a run: no match, and not a blank that the rule ignores. */
  predicate EndsRun(lib: RegexLib, re: string, ignoreBlanks: bool, line: string) {
    !lib.isMatch(re, line) && !(ignoreBlanks && forall c :: c in line ==> lib.isSpace(c))
  }

  lemma {:induction false} BlankIsAllSpace(lib: RegexLib, line: string)
    ensures Blank(lib, line) <==> forall c :: c in line ==> lib.isSpace(c)
  {
    if forall c :: c in line ==> lib.isSpace(c) {
      forall i | 0 <= i < |line| ensures lib.isSpace(line[i]) {
        assert line[i] in line;
      }
    }
  }

  function Matches(lib: RegexLib, re: string, lines: seq<string>): nat {
    if lines == [] then 0
    else Matches(lib, re, lines[..|lines| - 1]) + if lib.isMatch(re, lines[|lines| - 1]) then 1 else 0
  }

  /** A run opens at `j`: nothing before it, or the line before it ends a run. */
  predicate RunOpensAt(lib: RegexLib, re: string, ignoreBlanks: bool, lines: seq<string>, j: nat) {
    j <= |lines| && (j == 0 || EndsRun(lib, re, ignoreBlanks, lines[j - 1]))
  }

  function RunCounter(lib: RegexLib, re: string, ignoreBlanks: bool, lines: seq<string>): u32 {
    if lines == [] then 0
    else
      var c := RunCounter(lib, re, ignoreBlanks, lines[..|lines| - 1]);
      var last := lines[|lines| - 1];
      if lib.isMatch(re, last) then Bump(c) else if ignoreBlanks && Blank(lib, last) then c else 0
  }

  lemma {:induction false} RunAfter(lib: RegexLib, re: string, keepFirst: u32, ignoreBlanks: bool, lines: seq<string>)
    ensures After(lib, CCollapseRun(re, keepFirst, ignoreBlanks, 0), lines) ==
            CCollapseRun(re, keepFirst, ignoreBlanks, RunCounter(lib, re, ignoreBlanks, lines))
  {
    AfterLast(lib, CCollapseRun(re, keepFirst, ignoreBlanks, 0), lines);
    if lines != [] { RunAfter(lib, re, keepFirst, ignoreBlanks, lines[..|lines| - 1]); }
  }

  lemma {:induction false} RunCount(lib: RegexLib, re: string, ignoreBlanks: bool, lines: seq<string>, j: nat, i: nat)
    requires RunOpensAt(lib, re, ignoreBlanks, lines, j) && j <= i <= |lines|
    requires forall m :: j <= m < i ==> !EndsRun(lib, re, ignoreBlanks, lines[m])
    ensures RunCounter(lib, re, ignoreBlanks, lines[..i]) == Wrap32(Matches(lib, re, lines[j..i]))
  {
    if i > 0 {
      assert lines[..i][..i - 1] == lines[..i - 1];
      BlankIsAllSpace(lib, lines[i - 1]);
      if j < i {
        RunCount(lib, re, ignoreBlanks, lines, j, i - 1);
        assert lines[j..i][..i - 1 - j] == lines[j..i - 1];
        BumpWraps(Matches(lib, re, lines[j..i - 1]));
      }
    }
  }

  lemma {:induction false} RunOpinion(lib: RegexLib, re: string, keepFirst: u32, ignoreBlanks: bool, lines: seq<string>, i: nat)
    requires lib.valid(re) && i < |lines|
    ensures Opinions(lib, Compiled(lib, CollapseRun(re, keepFirst, ignoreBlanks)), lines)[i] ==
            if lib.isMatch(re, lines[i]) && Bump(RunCounter(lib, re, ignoreBlanks, lines[..i])) > keepFirst then Some(SuppressWithNote(0)) else None
  {
    OpinionAt(lib, CCollapseRun(re, keepFirst, ignoreBlanks, 0), lines, i);
    RunAfter(lib, re, keepFirst, ignoreBlanks, lines[..i]);
  }

  /**
   Line `i` of the run opened at `j` is suppressed iff it matches and the number of matching lines of
   the run so far, taken modulo 2^32, is past `keep_first`. Ignored blanks neither count nor end a run.
   */
  lemma {:induction false} CollapseRunLaw(lib: RegexLib, re: string, keepFirst: u32, ignoreBlanks: bool, lines: seq<string>, j: nat, i: nat)
    requires lib.valid(re) && RunOpensAt(lib, re, ignoreBlanks, lines, j) && j <= i < |lines|
    requires forall m :: j <= m < i ==> !EndsRun(lib, re, ignoreBlanks, lines[m])
    ensures var place := Matches(lib, re, lines[j..i + 1]);
            var opinion := Opinions(lib, Compiled(lib, CollapseRun(re, keepFirst, ignoreBlanks)), lines)[i];
            && (opinion == Some(SuppressWithNote(0)) <==> lib.isMatch(re, lines[i]) && Wrap32(place) > keepFirst)
            && (opinion == None || opinion == Some(SuppressWithNote(0)))
            && (place < U32 ==> (opinion.Some? <==> lib.isMatch(re, lines[i]) && place > keepFirst))
            && (place == U32 ==> opinion.None?)
  {
    RunOpinion(lib, re, keepFirst, ignoreBlanks, lines, i);
    RunCount(lib, re, ignoreBlanks, lines, j, i);
    BumpWraps(Matches(lib, re, lines[j..i]));
    assert lines[j..i + 1][..i - j] == lines[j..i];
  }

  // ---------- CollapseCommonPrefix ----------

  predicate SamePrefix(prefixLen: nat, a: string, b: string) {
    |a| >= prefixLen && |b| >= prefixLen && a[..prefixLen] == b[..prefixLen]
  }

  function PrefixOf(prefixLen: nat, line: string): Option<string> {
    if |line| < prefixLen then None else Some(line[..prefixLen])
  }

  function PrefixCounter(prefixLen: nat, lines: seq<string>): u32 {
    if lines == [] then 0
    else
      var n := |lines| - 1;
      if |lines[n]| < prefixLen then 0
      else if n > 0 && SamePrefix(prefixLen, lines[n - 1], lines[n]) then Bump(PrefixCounter(prefixLen, lines[..n])) else 1
  }

  lemma {:induction false} PrefixAfter(lib: RegexLib, prefixLen: nat, keepFirst: u32, lines: seq<string>)
    ensures After(lib, CCollapseCommonPrefix(prefixLen, keepFirst, None, 0), lines) ==
            CCollapseCommonPrefix(prefixLen, keepFirst,
                                  if lines == [] then None else PrefixOf(prefixLen, lines[|lines| - 1]),
                                  PrefixCounter(prefixLen, lines))
  {
    AfterLast(lib, CCollapseCommonPrefix(prefixLen, keepFirst, None, 0), lines);
    if lines != [] { PrefixAfter(lib, prefixLen, keepFirst, lines[..|lines| - 1]); }
  }

  lemma {:induction false} PrefixCount(prefixLen: nat, lines: seq<string>, j: nat, i: nat)
    requires j < i <= |lines| && |lines[i - 1]| >= prefixLen
    requires j > 0 ==> !SamePrefix(prefixLen, lines[j - 1], lines[i - 1])
    requires forall m :: j <= m < i ==> SamePrefix(prefixLen, lines[m], lines[i - 1])
    ensures PrefixCounter(prefixLen, lines[..i]) == Wrap32(i - j)
  {
    assert lines[..i][..i - 1] == lines[..i - 1];
    if i - 1 > j {
      assert SamePrefix(prefixLen, lines[i - 2], lines[i - 1]);
      PrefixCount(prefixLen, lines, j, i - 1);
      BumpWraps(i - 1 - j);
    }
  }

  /**
   When lines `j..i` are the longest stretch ending at `i` that share their first `prefixLen`
   characters, line `i` is suppressed iff its place in the stretch, modulo 2^32, is past `keep_first`.
   Lines shorter than the prefix are never suppressed.
   */
  lemma {:induction false} CollapseCommonPrefixLaw(lib: RegexLib, prefixLen: nat, keepFirst: u32, lines: seq<string>, j: nat, i: nat)
    requires j <= i < |lines| && (j > 0 ==> !SamePrefix(prefixLen, lines[j - 1], lines[i]))
    requires forall m :: j <= m < i ==> SamePrefix(prefixLen, lines[m], lines[i])
    ensures var opinion := Opinions(lib, Compiled(lib, CollapseCommonPrefix(prefixLen, keepFirst)), lines)[i];
            && (|lines[i]| < prefixLen ==> opinion == None)
            && (|lines[i]| >= prefixLen ==>
                  opinion == if Wrap32(i - j + 1) > keepFirst then Some(SuppressWithNote(0)) else None)
  {
    OpinionAt(lib, CCollapseCommonPrefix(prefixLen, keepFirst, None, 0), lines, i);
    PrefixAfter(lib, prefixLen, keepFirst, lines[..i]);
    if |lines[i]| >= prefixLen && j < i {
      assert SamePrefix(prefixLen, lines[i - 1], lines[i]);
      PrefixCount(prefixLen, lines, j, i);
      BumpWraps(i - j);
    }
  }

  // ---------- CollapseRepeats ----------

  lemma {:induction false} LastCapture(lib: RegexLib, re: string, group: Option<nat>, lines: seq<string>)
    ensures After(lib, CCollapseRepeats(re, group, None), lines) ==
            CCollapseRepeats(re, group,
                             if lines != [] && lib.isMatch(re, lines[|lines| - 1])
                             then Capture(lib, re, lines[|lines| - 1], group) else None)
  {
    AfterLast(lib, CCollapseRepeats(re, group, None), lines);
    if lines != [] { LastCapture(lib, re, group, lines[..|lines| - 1]); }
  }

  /** What counts as captured: the group asked for, group 1 by default, if it took part in the match, and else the whole match. */
  predicate Captures(lib: RegexLib, re: string, group: Option<nat>, line: string, text: string) {
    var asked := if group == None then lib.group(re, line, 1) else lib.group(re, line, group.value);
    asked == Some(text) || (asked == None && lib.group(re, line, 0) == Some(text))
  }

  /** The key of a line is what it captures, or empty if it captures nothing. */
  lemma {:induction false} KeyIsCaptured(lib: RegexLib, re: string, group: Option<nat>, line: string)
    ensures forall text :: Captures(lib, re, group, line, text) ==> KeyOf(lib, re, line, group) == text
    ensures Captures(lib, re, group, line, KeyOf(lib, re, line, group)) || KeyOf(lib, re, line, group) == ""
  {
  }

  /** A line is suppressed iff it and the line before it match with the same captured text. */
  lemma {:induction false} CollapseRepeatsLaw(lib: RegexLib, re: string, group: Option<nat>, lines: seq<string>, i: nat)
    requires lib.valid(re) && i < |lines|
    ensures var opinion := Opinions(lib, Compiled(lib, CollapseRepeats(re, group)), lines)[i];
            && (opinion == None || opinion == Some(Suppress))
            && (opinion == Some(Suppress) <==>
                  && i > 0 && lib.isMatch(re, lines[i - 1]) && lib.isMatch(re, lines[i])
                  && exists text :: Captures(lib, re, group, lines[i - 1], text) && Captures(lib, re, group, lines[i], text))
  {
    OpinionAt(lib, Compiled(lib, CollapseRepeats(re, group)), lines, i);
    LastCapture(lib, re, group, lines[..i]);
    CapturesOnce(lib, re, group, lines[i]);
    if i > 0 { CapturesOnce(lib, re, group, lines[i - 1]); }
  }

  lemma {:induction false} CapturesOnce(lib: RegexLib, re: string, group: Option<nat>, line: string)
    ensures forall text :: Captures(lib, re, group, line, text) <==> Capture(lib, re, line, group) == Some(text)
  {
  }

  // ---------- EmptyResultSubstitute ----------

  lemma {:induction false} ObservedCount(lib: RegexLib, message: string, lines: seq<string>)
    requires |lines| <= MAX_USIZE
    ensures After(lib, CEmptyResultSubstitute(message, 0), lines) == CEmptyResultSubstitute(message, |lines|)
  {
    AfterLast(lib, CEmptyResultSubstitute(message, 0), lines);
    if lines != [] { ObservedCount(lib, message, lines[..|lines| - 1]); }
  }

  /** The message is in the flush iff no line at all reached the rule (below 2^64 lines). */
  lemma {:induction false} EmptyResultLaw(lib: RegexLib, message: string, lines: seq<string>)
    requires |lines| <= MAX_USIZE
    ensures Summary(After(lib, Compiled(lib, EmptyResultSubstitute(message)), lines)) == if lines == [] then Some(message) else None
  {
    ObservedCount(lib, message, lines);
  }

  // ---------- DedupWithCount ----------

  /** The matching lines with a given key, in arrival order. */
  function KeyLines(lib: RegexLib, re: string, group: Option<nat>, lines: seq<string>, key: string): seq<string> {
    if lines == [] then []
    else
      var last := lines[|lines| - 1];
      var earlier := KeyLines(lib, re, group, lines[..|lines| - 1], key);
      if lib.isMatch(re, last) && KeyOf(lib, re, last, group) == key then earlier + [last] else earlier
  }

  /** One slot per key seen, holding the first line of its key and how many lines it has had, modulo 2^32. */
  ghost predicate SlotsAreExact(lib: RegexLib, re: string, group: Option<nat>, lines: seq<string>, seen: seq<Slot>) {
    && (forall i, j :: 0 <= i < j < |seen| ==> seen[i].key != seen[j].key)
    && (forall i :: 0 <= i < |seen| ==> SlotIsExact(seen[i], KeyLines(lib, re, group, lines, seen[i].key)))
    && (forall k :: KeyLines(lib, re, group, lines, k) != [] ==> HasKey(seen, k))
  }

  ghost predicate SlotIsExact(s: Slot, lines: seq<string>) {
    lines != [] && s.line == lines[0] && s.count == Wrap32(|lines|)
  }

  ghost predicate HasKey(seen: seq<Slot>, key: string) {
    exists i :: 0 <= i < |seen| && seen[i].key == key
  }

  /** Slots stand in order of first appearance: a prefix that shows a later key shows the earlier ones. */
  ghost predicate FirstSeenOrder(lib: RegexLib, re: string, group: Option<nat>, lines: seq<string>, seen: seq<Slot>) {
    forall p, i, j :: 0 <= p <= |lines| && 0 <= i < j < |seen| && ShownBy(lib, re, group, lines, p, seen[j].key) ==>
                        ShownBy(lib, re, group, lines, p, seen[i].key)
  }

  /** Some of the first `p` lines has this key. */
  ghost predicate ShownBy(lib: RegexLib, re: string, group: Option<nat>, lines: seq<string>, p: nat, key: string)
    requires p <= |lines|
  {
    KeyLines(lib, re, group, lines[..p], key) != []
  }

  lemma {:induction false} KeyLinesOneMore(lib: RegexLib, re: string, group: Option<nat>, lines: seq<string>, line: string, key: string)
    ensures KeyLines(lib, re, group, lines + [line], key) ==
            if lib.isMatch(re, line) && KeyOf(lib, re, line, group) == key then KeyLines(lib, re, group, lines, key) + [line]
            else KeyLines(lib, re, group, lines, key)
  {
    assert (lines + [line])[..|lines|] == lines;
  }

  lemma {:induction false} SlotsByKey(seen: seq<Slot>, key: string)
    ensures HasKey(seen, key) <==> FindSlot(seen, key).Some?
  {
  }

  lemma {:induction false} BumpedIsExact(s: Slot, mine: seq<string>, line: string)
    requires SlotIsExact(s, mine)
    ensures SlotIsExact(s.(count := Bump(s.count)), mine + [line])
  {
    BumpWraps(|mine|);
  }

  lemma {:induction false} TallyAt(seen: seq<Slot>, key: string, line: string, i: nat)
    requires i < |Tally(seen, key, line)| && forall x, y :: 0 <= x < y < |seen| ==> seen[x].key != seen[y].key
    ensures Tally(seen, key, line)[i] ==
            if i == |seen| then Slot(key, line, 1)
            else if seen[i].key == key then Slot(key, seen[i].line, Bump(seen[i].count))
            else seen[i]
    ensures i == |seen| ==> !HasKey(seen, key)
  {
    SlotsByKey(seen, key);
  }

  lemma {:induction false} TallySlot(lib: RegexLib, re: string, group: Option<nat>, lines: seq<string>, seen: seq<Slot>, line: string, i: nat)
    requires SlotsAreExact(lib, re, group, lines, seen) && lib.isMatch(re, line)
    requires i < |Tally(seen, KeyOf(lib, re, line, group), line)|
    ensures var s := Tally(seen, KeyOf(lib, re, line, group), line)[i];
            SlotIsExact(s, KeyLines(lib, re, group, lines + [line], s.key))
  {
    var key := KeyOf(lib, re, line, group);
    TallyAt(seen, key, line, i);
    if i < |seen| {
      KeyLinesOneMore(lib, re, group, lines, line, seen[i].key);
      BumpedIsExact(seen[i], KeyLines(lib, re, group, lines, seen[i].key), line);
    } else {
      KeyLinesOneMore(lib, re, group, lines, line, key);
    }
  }

  lemma {:induction false} TallyHas(seen: seq<Slot>, key: string, line: string, k: string)
    ensures HasKey(Tally(seen, key, line), k) <==> HasKey(seen, k) || k == key
  {
    var after := Tally(seen, key, line);
    SlotsByKey(seen, key);
    assert after[match FindSlot(seen, key) case Some(i) => i case None => |seen|].key == key;
    if HasKey(seen, k) {
      var i :| 0 <= i < |seen| && seen[i].key == k;
      assert after[i].key == k;
    }
    if HasKey(after, k) && k != key {
      var i :| 0 <= i < |after| && after[i].key == k;
      assert seen[i].key == k;
    }
  }

  lemma {:induction false} TallyIsExact(lib: RegexLib, re: string, group: Option<nat>, lines: seq<string>, seen: seq<Slot>, line: string)
    requires SlotsAreExact(lib, re, group, lines, seen) && lib.isMatch(re, line)
    ensures SlotsAreExact(lib, re, group, lines + [line], Tally(seen, KeyOf(lib, re, line, group), line))
  {
    var key := KeyOf(lib, re, line, group);
    var after := Tally(seen, key, line);
    forall i | 0 <= i < |after|
      ensures SlotIsExact(after[i], KeyLines(lib, re, group, lines + [line], after[i].key))
    {
      TallySlot(lib, re, group, lines, seen, line, i);
    }
    forall k | KeyLines(lib, re, group, lines + [line], k) != [] ensures HasKey(after, k) {
      KeyLinesOneMore(lib, re, group, lines, line, k);
      TallyHas(seen, key, line, k);
    }
  }

  lemma {:induction false} SkipIsExact(lib: RegexLib, re: string, group: Option<nat>, lines: seq<string>, line: string)
    requires !lib.isMatch(re, line)
    ensures forall k :: KeyLines(lib, re, group, lines + [line], k) == KeyLines(lib, re, group, lines, k)
  {
    forall k ensures KeyLines(lib, re, group, lines + [line], k) == KeyLines(lib, re, group, lines, k) {
      KeyLinesOneMore(lib, re, group, lines, line, k);
    }
  }

  function SeenAfter(lib: RegexLib, re: string, group: Option<nat>, lines: seq<string>): seq<Slot> {
    if lines == [] then []
    else
      var seen := SeenAfter(lib, re, group, lines[..|lines| - 1]);
      var last := lines[|lines| - 1];
      if lib.isMatch(re, last) then Tally(seen, KeyOf(lib, re, last, group), last) else seen
  }

  lemma {:induction false} DedupAfter(lib: RegexLib, re: string, group: Option<nat>, lines: seq<string>)
    ensures After(lib, CDedupWithCount(re, group, []), lines) == CDedupWithCount(re, group, SeenAfter(lib, re, group, lines))
  {
    AfterLast(lib, CDedupWithCount(re, group, []), lines);
    if lines != [] { DedupAfter(lib, re, group, lines[..|lines| - 1]); }
  }

  lemma {:induction false} SeenIsExact(lib: RegexLib, re: string, group: Option<nat>, lines: seq<string>)
    ensures SlotsAreExact(lib, re, group, lines, SeenAfter(lib, re, group, lines))
  {
    if lines != [] {
      var init, last := lines[..|lines| - 1], lines[|lines| - 1];
      SeenIsExact(lib, re, group, init);
      assert lines == init + [last];
      if lib.isMatch(re, last) {
        TallyIsExact(lib, re, group, init, SeenAfter(lib, re, group, init), last);
      } else {
        SkipIsExact(lib, re, group, init, last);
      }
    }
  }

  lemma {:induction false} KeyLinesGrow(lib: RegexLib, re: string, group: Option<nat>, lines: seq<string>, p: nat, key: string)
    requires p <= |lines|
    ensures KeyLines(lib, re, group, lines[..p], key) <= KeyLines(lib, re, group, lines, key)
  {
    if p < |lines| {
      KeyLinesGrow(lib, re, group, lines[..|lines| - 1], p, key);
      assert lines[..|lines| - 1][..p] == lines[..p];
    } else {
      assert lines[..p] == lines;
    }
  }

  lemma {:induction false} SeenInOrderStep(lib: RegexLib, re: string, group: Option<nat>, init: seq<string>, seen0: seq<Slot>, seen: seq<Slot>,
                        p: nat, i: nat, j: nat)
    requires SlotsAreExact(lib, re, group, init, seen0) && FirstSeenOrder(lib, re, group, init, seen0)
    requires |seen0| <= |seen| <= |seen0| + 1 && forall k :: 0 <= k < |seen0| ==> seen0[k].key == seen[k].key
    requires |seen| == |seen0| + 1 ==> !HasKey(seen0, seen[|seen0|].key)
    requires p <= |init| && i < j < |seen| && ShownBy(lib, re, group, init, p, seen[j].key)
    ensures ShownBy(lib, re, group, init, p, seen[i].key)
  {
    KeyLinesGrow(lib, re, group, init, p, seen[j].key);
    assert HasKey(seen0, seen[j].key);
    assert j < |seen0|;
    assert ShownBy(lib, re, group, init, p, seen0[j].key);
  }

  lemma {:induction false} TallyKeys(seen: seq<Slot>, key: string, line: string)
    ensures var after := Tally(seen, key, line);
            && |seen| <= |after| <= |seen| + 1
            && (forall k :: 0 <= k < |seen| ==> seen[k].key == after[k].key)
            && (|after| == |seen| + 1 ==> !HasKey(seen, after[|seen|].key))
  {
    SlotsByKey(seen, key);
  }

  lemma {:induction false} SeenInOrderAt(lib: RegexLib, re: string, group: Option<nat>, lines: seq<string>, init: seq<string>, seen0: seq<Slot>, seen: seq<Slot>,
                              p: nat, i: nat, j: nat)
    requires SlotsAreExact(lib, re, group, init, seen0) && FirstSeenOrder(lib, re, group, init, seen0)
    requires SlotsAreExact(lib, re, group, lines, seen) && |lines| == |init| + 1 && lines[..|init|] == init
    requires |seen0| <= |seen| <= |seen0| + 1 && forall k :: 0 <= k < |seen0| ==> seen0[k].key == seen[k].key
    requires |seen| == |seen0| + 1 ==> !HasKey(seen0, seen[|seen0|].key)
    requires p <= |lines| && i < j < |seen| && ShownBy(lib, re, group, lines, p, seen[j].key)
    ensures ShownBy(lib, re, group, lines, p, seen[i].key)
  {
    if p == |lines| {
      assert lines[..p] == lines;
      assert SlotIsExact(seen[i], KeyLines(lib, re, group, lines, seen[i].key));
    } else {
      assert lines[..p] == init[..p];
      SeenInOrderStep(lib, re, group, init, seen0, seen, p, i, j);
    }
  }

  lemma {:induction false} SeenInOrder(lib: RegexLib, re: string, group: Option<nat>, lines: seq<string>)
    ensures FirstSeenOrder(lib, re, group, lines, SeenAfter(lib, re, group, lines))
  {
    if lines != [] {
      var init, last := lines[..|lines| - 1], lines[|lines| - 1];
      SeenInOrder(lib, re, group, init);
      SeenIsExact(lib, re, group, init);
      SeenIsExact(lib, re, group, lines);
      var seen0, seen := SeenAfter(lib, re, group, init), SeenAfter(lib, re, group, lines);
      TallyKeys(seen0, KeyOf(lib, re, last, group), last);
      forall p, i, j | 0 <= p <= |lines| && 0 <= i < j < |seen| && ShownBy(lib, re, group, lines, p, seen[j].key)
        ensures ShownBy(lib, re, group, lines, p, seen[i].key)
      {
        SeenInOrderAt(lib, re, group, lines, init, seen0, seen, p, i, j);
      }
    }
  }

  /**
   Over every run, the dedup map is exactly the per-key first lines and counts, in order of first
   appearance.
   */
  lemma {:induction false} DedupLaw(lib: RegexLib, re: string, group: Option<nat>, lines: seq<string>)
    requires lib.valid(re)
    ensures var after := After(lib, Compiled(lib, DedupWithCount(re, group)), lines);
            && after.CDedupWithCount?
            && SlotsAreExact(lib, re, group, lines, after.seen)
            && FirstSeenOrder(lib, re, group, lines, after.seen)
  {
    DedupAfter(lib, re, group, lines);
    SeenIsExact(lib, re, group, lines);
    SeenInOrder(lib, re, group, lines);
  }

  function SumCounts(seen: seq<Slot>): nat {
    if seen == [] then 0 else SumCounts(seen[..|seen| - 1]) + seen[|seen| - 1].count
  }

  lemma {:induction false} SumAfterUpdate(seen: seq<Slot>, i: nat, s: Slot)
    requires i < |seen|
    ensures SumCounts(seen[i := s]) == SumCounts(seen) - seen[i].count + s.count
  {
    var n := |seen| - 1;
    if i < n {
      SumAfterUpdate(seen[..n], i, s);
      assert seen[i := s][..n] == seen[..n][i := s];
    } else {
      assert seen[i := s][..n] == seen[..n];
    }
  }

  /** One more line adds one to the counts, unless its counter stood at the top and wraps to zero. */
  lemma {:induction false} TallySum(seen: seq<Slot>, key: string, line: string)
    ensures SumCounts(Tally(seen, key, line)) ==
            match FindSlot(seen, key)
            case Some(i) => SumCounts(seen) - seen[i].count + Bump(seen[i].count)
            case None => SumCounts(seen) + 1
  {
    match FindSlot(seen, key) {
      case Some(i) => SumAfterUpdate(seen, i, Slot(seen[i].key, seen[i].line, Bump(seen[i].count)));
      case None => assert (seen + [Slot(key, line, 1)])[..|seen|] == seen;
    }
  }

  ghost predicate NoKeyWraps(lib: RegexLib, re: string, group: Option<nat>, lines: seq<string>) {
    forall k :: |KeyLines(lib, re, group, lines, k)| < U32
  }

  lemma {:induction false} NoKeyWrapsOneMore(lib: RegexLib, re: string, group: Option<nat>, lines: seq<string>, line: string)
    requires lib.isMatch(re, line)
    ensures NoKeyWraps(lib, re, group, lines + [line]) <==>
            NoKeyWraps(lib, re, group, lines) && |KeyLines(lib, re, group, lines, KeyOf(lib, re, line, group))| + 1 < U32
  {
    var key := KeyOf(lib, re, line, group);
    KeyLinesOneMore(lib, re, group, lines, line, key);
    forall k ensures k != key ==> KeyLines(lib, re, group, lines + [line], k) == KeyLines(lib, re, group, lines, k) {
      KeyLinesOneMore(lib, re, group, lines, line, k);
    }
    if NoKeyWraps(lib, re, group, lines + [line]) {
      assert |KeyLines(lib, re, group, lines + [line], key)| < U32;
      forall k ensures |KeyLines(lib, re, group, lines, k)| < U32 {
        assert |KeyLines(lib, re, group, lines + [line], k)| < U32;
      }
    }
  }

  /**
   The counts never exceed the matching lines. They add up to the matching lines iff no key had
   2^32 lines or more.
   */
  lemma {:induction false} SeenConserves(lib: RegexLib, re: string, group: Option<nat>, lines: seq<string>)
    ensures SumCounts(SeenAfter(lib, re, group, lines)) <= Matches(lib, re, lines)
    ensures SumCounts(SeenAfter(lib, re, group, lines)) == Matches(lib, re, lines) <==> NoKeyWraps(lib, re, group, lines)
  {
    if lines != [] {
      var init, last := lines[..|lines| - 1], lines[|lines| - 1];
      SeenConserves(lib, re, group, init);
      assert lines == init + [last];
      if lib.isMatch(re, last) {
        var seen, key := SeenAfter(lib, re, group, init), KeyOf(lib, re, last, group);
        SeenIsExact(lib, re, group, init);
        TallySum(seen, key, last);
        NoKeyWrapsOneMore(lib, re, group, init, last);
        SlotsByKey(seen, key);
        if FindSlot(seen, key).Some? {
          assert SlotIsExact(seen[FindSlot(seen, key).value], KeyLines(lib, re, group, init, key));
        }
      } else {
        SkipIsExact(lib, re, group, init, last);
      }
    }
  }

  lemma {:induction false} DedupConserves(lib: RegexLib, re: string, group: Option<nat>, lines: seq<string>)
    requires lib.valid(re)
    ensures var after := After(lib, Compiled(lib, DedupWithCount(re, group)), lines);
            && after.CDedupWithCount?
            && SumCounts(after.seen) <= Matches(lib, re, lines)
            && (SumCounts(after.seen) == Matches(lib, re, lines) <==> NoKeyWraps(lib, re, group, lines))
  {
    DedupAfter(lib, re, group, lines);
    SeenConserves(lib, re, group, lines);
  }
}
