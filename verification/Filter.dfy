/**
 Output filter rules: their compiled form, what one rule does with one line, and the dispatch
 loop that runs a line through the groups, first opinion wins.
 */
module Filter {
  import opened Numerals
  import opened Texts
  import opened Wrappers
  import opened Utf8
  import opened Wrapping
  import Seqs

  /** The regex crate. Patterns stand for their compiled automata; `valid` says which compile. */
  datatype RegexLib = RegexLib(
    valid: string -> bool,
    /** Whether valid patterns are together within the size limit of one `RegexSet`. */
    fits: seq<string> -> bool,
    isMatch: (string, string) -> bool,
    /** Text of capture group `n`, if the pattern matches the line and the group took part. */
    group: (string, string, nat) -> Option<string>,
    /** `replace_all` on a line that matches. */
    replaceAll: (string, string, string) -> string,
    /** Character positions of the first match, on a line that matches. */
    span: (string, string) -> (nat, nat),
    /** Dictionary substitution, if some word of the line is in the dictionary. */
    substitute: (seq<(string, string)>, string) -> Option<string>,
    isSpace: char -> bool)

  datatype FilterResult = Pass | Suppress | SuppressWithNote(note: nat) | Replace(text: string)

  datatype Rule =
    | SuppressPrefix(prefix: string)
    | SuppressRegex(pattern: string)
    | KeepRegex(pattern: string)
    | CollapseRepeats(pattern: string, matchCapture: Option<nat>)
    | TruncateMatch(pattern: string, replace: string)
    | CollapseRun(pattern: string, keepFirst: u32, ignoreBlanks: bool)
    | CollapseCommonPrefix(prefixLen: nat, keepFirst: u32)
    | TruncateLong(maxLen: nat, ellipsis: string)
    | ContextWindow(pattern: string, around: nat)
    | SubstituteWords(pairs: seq<(string, string)>)
    | EmptyResultSubstitute(message: string)
    | DedupWithCount(pattern: string, keyCapture: Option<nat>)
    | GroupByCapture(pattern: string, keyCapture: Option<nat>, capPerKey: u32, totalCap: u32, header: string)

  /** An entry of the insertion-ordered map of `DedupWithCount`. */
  datatype Slot = Slot(key: string, line: string, count: u32)

  /** An entry of the insertion-ordered map of `GroupByCapture`. */
  datatype Bucket = Bucket(key: string, lines: seq<string>, overflow: u32)

  /** The state of `GroupByCapture`: its buckets and its two running totals. */
  datatype Tray = Tray(buckets: seq<Bucket>, totalKept: u32, globalOverflow: u32)

  datatype CompiledRule =
    | CSuppressPrefix(prefix: string)
    | CSuppressRegex(re: string)
    | CSuppressRegexSet(res: seq<string>)
    | CKeepRegex(re: string)
    | CCollapseRepeats(re: string, group: Option<nat>, lastCapture: Option<string>)
    | CTruncateMatch(re: string, replace: string)
    | CTruncateMatchSet(rules: seq<(string, string)>)
    | CCollapseRun(re: string, keepFirst: u32, ignoreBlanks: bool, count: u32)
    | CCollapseCommonPrefix(prefixLen: nat, keepFirst: u32, lastPrefix: Option<string>, count: u32)
    | CTruncateLong(maxLen: nat, ellipsis: string)
    | CContextWindow(re: string, around: nat)
    | CSubstituteWords(pairs: seq<(string, string)>)
    | CEmptyResultSubstitute(message: string, observed: nat)
    | CDedupWithCount(re: string, keyCapture: Option<nat>, seen: seq<Slot>)
    | CGroupByCapture(re: string, keyCapture: Option<nat>, capPerKey: u32, totalCap: u32, header: string, tray: Tray)

  // ---------- one rule, one line ----------

  /** The capture asked for (group 1 by default), else the whole match. */
  function Capture(lib: RegexLib, re: string, line: string, group: Option<nat>): Option<string> {
    var asked := lib.group(re, line, match group case Some(g) => g case None => 1);
    if asked.Some? then asked else lib.group(re, line, 0)
  }

  function KeyOf(lib: RegexLib, re: string, line: string, group: Option<nat>): string {
    match Capture(lib, re, line, group) case Some(k) => k case None => ""
  }

  function ReplaceIfMatch(lib: RegexLib, re: string, replace: string, line: string): Option<FilterResult> {
    if lib.isMatch(re, line) then Some(Replace(lib.replaceAll(re, line, replace))) else None
  }

  /** The lowest index in a set of patterns that matches, as `RegexSet::matches(line).iter().next()`. */
  function FirstMatch(lib: RegexLib, res: seq<string>, line: string): (r: Option<nat>)
    ensures r.Some? ==> r.value < |res| && lib.isMatch(res[r.value], line) && forall j :: 0 <= j < r.value ==> !lib.isMatch(res[j], line)
    ensures r.None? ==> forall j :: 0 <= j < |res| ==> !lib.isMatch(res[j], line)
  {
    if res == [] then None
    else if lib.isMatch(res[0], line) then Some(0)
    else match FirstMatch(lib, res[1..], line) case Some(i) => Some(i + 1) case None => None
  }

  function Patterns(rules: seq<(string, string)>): (ps: seq<string>)
    ensures |ps| == |rules| && forall i :: 0 <= i < |rules| ==> ps[i] == rules[i].0
  {
    seq(|rules|, i requires 0 <= i < |rules| => rules[i].0)
  }

  predicate Blank(lib: RegexLib, line: string) {
    forall i :: 0 <= i < |line| ==> lib.isSpace(line[i])
  }

  /** The entry with a key, in an insertion-ordered map whose entries carry their keys. */
  function FindEntry<T>(entries: seq<T>, keyOf: T -> string, key: string): (r: Option<nat>)
    ensures r.Some? ==> r.value < |entries| && keyOf(entries[r.value]) == key
    ensures r.None? ==> forall i :: 0 <= i < |entries| ==> keyOf(entries[i]) != key
  {
    if entries == [] then None
    else if keyOf(entries[|entries| - 1]) == key then Some(|entries| - 1)
    else FindEntry(entries[..|entries| - 1], keyOf, key)
  }

  function FindSlot(seen: seq<Slot>, key: string): (r: Option<nat>)
    ensures r.Some? ==> r.value < |seen| && seen[r.value].key == key
    ensures r.None? ==> forall i :: 0 <= i < |seen| ==> seen[i].key != key
  {
    FindEntry(seen, (s: Slot) => s.key, key)
  }

  function FindBucket(buckets: seq<Bucket>, key: string): (r: Option<nat>)
    ensures r.Some? ==> r.value < |buckets| && buckets[r.value].key == key
    ensures r.None? ==> forall i :: 0 <= i < |buckets| ==> buckets[i].key != key
  {
    FindEntry(buckets, (b: Bucket) => b.key, key)
  }

  function Tally(seen: seq<Slot>, key: string, line: string): seq<Slot> {
    match FindSlot(seen, key)
    case Some(i) => seen[i := seen[i].(count := Bump(seen[i].count))]
    case None => seen + [Slot(key, line, 1)]
  }

  /** `buckets` with an entry for `key`. */
  function Opened(buckets: seq<Bucket>, key: string): seq<Bucket> {
    if FindBucket(buckets, key).Some? then buckets else buckets + [Bucket(key, [], 0)]
  }

  /** File a matching line: keep it, count it against its bucket, or count it globally. */
  function Filed(tray: Tray, capPerKey: u32, totalCap: u32, key: string, line: string): Tray {
    var buckets := Opened(tray.buckets, key);
    match FindBucket(buckets, key)
    case None => tray
    case Some(i) =>
      var b := buckets[i];
      // a bucket never exceeds its u32 cap, so the cast of its length is exact
      var underPerKey := |b.lines| < capPerKey;
      var underTotal := tray.totalKept < totalCap;
      if underPerKey && underTotal then
        Tray(buckets[i := Bucket(b.key, b.lines + [line], b.overflow)], Bump(tray.totalKept), tray.globalOverflow)
      else if !underPerKey && underTotal then
        Tray(buckets[i := Bucket(b.key, b.lines, Bump(b.overflow))], tray.totalKept, tray.globalOverflow)
      else
        Tray(buckets, tray.totalKept, Bump(tray.globalOverflow))
  }

  function Cut(line: string, n: nat): string {
    if n <= |line| then line[..n] else line
  }

  function Windowed(line: string, from: nat, to: nat, around: nat): string
    requires from <= to <= |line|
  {
    var start := if from > around then from - around else 0;
    var end := if |line| - to > around then to + around else |line|;
    (if start > 0 then "…" else "") + line[start..from] + line[from..to] + line[to..end]
    + (if end < |line| then "…" else "")
  }

  function ApplyTruncateSet(lib: RegexLib, rules: seq<(string, string)>, line: string): Option<FilterResult> {
    match FirstMatch(lib, Patterns(rules), line)
    case Some(i) => ReplaceIfMatch(lib, rules[i].0, rules[i].1, line)
    case None => None
  }

  function ApplyRepeats(lib: RegexLib, re: string, group: Option<nat>, last: Option<string>, line: string): (Option<FilterResult>, CompiledRule) {
    if lib.isMatch(re, line) then
      var current := Capture(lib, re, line, group);
      (if last.Some? && last == current then Some(Suppress) else None, CCollapseRepeats(re, group, current))
    else (None, CCollapseRepeats(re, group, None))
  }

  function ApplyRun(lib: RegexLib, re: string, keepFirst: u32, ignoreBlanks: bool, count: u32, line: string): (Option<FilterResult>, CompiledRule) {
    if lib.isMatch(re, line) then
      (if Bump(count) > keepFirst then Some(SuppressWithNote(0)) else None, CCollapseRun(re, keepFirst, ignoreBlanks, Bump(count)))
    else if ignoreBlanks && Blank(lib, line) then (None, CCollapseRun(re, keepFirst, ignoreBlanks, count))
    else (None, CCollapseRun(re, keepFirst, ignoreBlanks, 0))
  }

  function ApplyPrefix(prefixLen: nat, keepFirst: u32, last: Option<string>, count: u32, line: string): (Option<FilterResult>, CompiledRule) {
    if |line| < prefixLen then (None, CCollapseCommonPrefix(prefixLen, keepFirst, None, 0))
    else
      var n := if last == Some(line[..prefixLen]) then Bump(count) else 1;
      (if n > keepFirst then Some(SuppressWithNote(0)) else None,
       CCollapseCommonPrefix(prefixLen, keepFirst, Some(line[..prefixLen]), n))
  }

  function ApplyTruncateLong(maxLen: nat, ellipsis: string, line: string): Option<FilterResult> {
    var keep := if maxLen > |ellipsis| then maxLen - |ellipsis| else 0;
    if |line| > maxLen then Some(Replace(line[..keep] + ellipsis)) else None
  }

  function ApplyWindow(lib: RegexLib, re: string, around: nat, line: string): Option<FilterResult> {
    if !lib.isMatch(re, line) then None
    else
      // a match lies inside the line it was found in
      var (from, to) := lib.span(re, line);
      if from <= to <= |line| then Some(Replace(Windowed(line, from, to, around))) else None
  }

  function ApplyDedup(lib: RegexLib, re: string, keyCapture: Option<nat>, seen: seq<Slot>, line: string): (Option<FilterResult>, CompiledRule) {
    if !lib.isMatch(re, line) then (None, CDedupWithCount(re, keyCapture, seen))
    else (Some(Suppress), CDedupWithCount(re, keyCapture, Tally(seen, KeyOf(lib, re, line, keyCapture), line)))
  }

  function ApplyGroup(lib: RegexLib, re: string, keyCapture: Option<nat>, capPerKey: u32, totalCap: u32, header: string, tray: Tray,
                      line: string): (Option<FilterResult>, CompiledRule)
  {
    if !lib.isMatch(re, line) then (None, CGroupByCapture(re, keyCapture, capPerKey, totalCap, header, tray))
    else
      var filed := Filed(tray, capPerKey, totalCap, KeyOf(lib, re, line, keyCapture), line);
      (Some(Suppress), CGroupByCapture(re, keyCapture, capPerKey, totalCap, header, filed))
  }

  function SuppressIf(b: bool): Option<FilterResult> {
    if b then Some(Suppress) else None
  }

  function ReplaceBy(text: Option<string>): Option<FilterResult> {
    match text case Some(s) => Some(Replace(s)) case None => None
  }

  /** What a rule says about a line, and its state afterwards. */
  function Apply(lib: RegexLib, rule: CompiledRule, line: string): (Option<FilterResult>, CompiledRule) {
    match rule
    case CSuppressPrefix(prefix) => (SuppressIf(prefix <= line), rule)
    case CSuppressRegex(re) => (SuppressIf(lib.isMatch(re, line)), rule)
    case CSuppressRegexSet(res) => (SuppressIf(FirstMatch(lib, res, line).Some?), rule)
    case CKeepRegex(re) => (SuppressIf(!lib.isMatch(re, line)), rule)
    case CTruncateMatch(re, replace) => (ReplaceIfMatch(lib, re, replace, line), rule)
    case CTruncateMatchSet(rules) => (ApplyTruncateSet(lib, rules, line), rule)
    case CCollapseRepeats(re, group, last) => ApplyRepeats(lib, re, group, last, line)
    case CCollapseRun(re, keepFirst, ignoreBlanks, count) => ApplyRun(lib, re, keepFirst, ignoreBlanks, count, line)
    case CCollapseCommonPrefix(prefixLen, keepFirst, last, count) => ApplyPrefix(prefixLen, keepFirst, last, count, line)
    case CTruncateLong(maxLen, ellipsis) => (ApplyTruncateLong(maxLen, ellipsis, line), rule)
    case CContextWindow(re, around) => (ApplyWindow(lib, re, around, line), rule)
    case CSubstituteWords(pairs) => (ReplaceBy(lib.substitute(pairs, line)), rule)
    case CEmptyResultSubstitute(message, observed) => (None, CEmptyResultSubstitute(message, (observed + 1) % (MAX_USIZE + 1)))
    case CDedupWithCount(re, keyCapture, seen) => ApplyDedup(lib, re, keyCapture, seen, line)
    case CGroupByCapture(re, keyCapture, capPerKey, totalCap, header, tray) =>
      ApplyGroup(lib, re, keyCapture, capPerKey, totalCap, header, tray, line)
  }

  // ---------- the loops inside `apply` ----------

  /** The loop of `CollapseCommonPrefix`: how many characters it saw and the byte offset it cuts at. */
  method PrefixCutoff(line: string, prefixLen: nat) returns (cutoff: nat, charsSeen: nat)
    ensures charsSeen == if |line| < prefixLen then |line| else prefixLen
    ensures cutoff == ByteLen(line[..charsSeen])
  {
    cutoff, charsSeen := 0, 0;
    var offset := 0;
    for k := 0 to |line|
      invariant charsSeen == k <= prefixLen
      invariant offset == cutoff == ByteLen(line[..k])
    {
      if charsSeen == prefixLen {
        cutoff := offset;
        return;
      }
      charsSeen := charsSeen + 1;
      cutoff := offset + LenUtf8(line[k]);
      assert line[..k + 1][..k] == line[..k];
      offset := cutoff;
    }
    assert line[..|line|] == line;
  }

  /** `max_len.saturating_mul(4)` on a 64-bit `usize`. */
  function SaturatingTimes4(n: nat): nat {
    if 4 * n > MAX_USIZE then MAX_USIZE else 4 * n
  }

  /** `char_indices().nth(k)`, or the length of the line when it has no such character. */
  method ByteOffsetOf(line: string, k: nat) returns (offset: nat)
    ensures offset == ByteLen(Cut(line, k))
  {
    offset := 0;
    for i := 0 to |line|
      invariant offset == ByteLen(line[..i]) && i <= k
    {
      if i == k {
        return;
      }
      assert line[..i + 1][..i] == line[..i];
      offset := offset + LenUtf8(line[i]);
    }
    assert line[..|line|] == line;
  }

  /**
   `TruncateLong`, with its two byte-length shortcuts. No `usize` exceeds `MAX_USIZE`, so no line has
   more bytes than that; the shortcuts then decide exactly whether the line has too many characters.
   */
  method TruncateLongLine(line: string, maxLen: nat, ellipsis: string) returns (r: Option<FilterResult>)
    requires ByteLen(line) <= MAX_USIZE
    ensures r.Some? <==> |line| > maxLen
    ensures r.Some? ==>
              && r.value.Replace?
              && |r.value.text| == (if maxLen > |ellipsis| then maxLen else |ellipsis|)
              && r.value.text == line[..|r.value.text| - |ellipsis|] + ellipsis
  {
    ByteLenBounds(line);
    if ByteLen(line) <= maxLen {
      return None;
    }
    if ByteLen(line) <= SaturatingTimes4(maxLen) && !(|line| > maxLen) {
      return None;
    }
    var keep := if maxLen > |ellipsis| then maxLen - |ellipsis| else 0;
    var cutoff := ByteOffsetOf(line, keep);
    SliceAtChar(line, keep);
    var kept := SliceTo(line, cutoff);
    return Some(Replace(kept.value + ellipsis));
  }

  /** `CompiledRule::apply`: computes what `Apply` specifies, with the loops and shortcuts of the code. */
  method ApplyRule(lib: RegexLib, rule: CompiledRule, line: string) returns (r: Option<FilterResult>, after: CompiledRule)
    requires ByteLen(line) <= MAX_USIZE
    ensures (r, after) == Apply(lib, rule, line)
  {
    match rule {
      case CTruncateLong(maxLen, ellipsis) =>
        r := TruncateLongLine(line, maxLen, ellipsis);
        after := rule;
      case CCollapseCommonPrefix(prefixLen, keepFirst, last, count) =>
        var cutoff, charsSeen := PrefixCutoff(line, prefixLen);
        if charsSeen < prefixLen {
          return None, CCollapseCommonPrefix(prefixLen, keepFirst, None, 0);
        }
        SliceAtChar(line, charsSeen);
        var cur := SliceTo(line, cutoff).value;
        var matchesPrev := last == Some(cur);
        var newCount := if matchesPrev then Bump(count) else 1;
        // the stored prefix is only replaced when it changed
        after := CCollapseCommonPrefix(prefixLen, keepFirst, if matchesPrev then last else Some(cur), newCount);
        r := if newCount > keepFirst then Some(SuppressWithNote(0)) else None;
      case _ =>
        var step := Apply(lib, rule, line);
        r, after := step.0, step.1;
    }
  }

  // ---------- flush ----------

  function SlotText(s: Slot): string {
    if s.count > 1 then s.line + " ×" + Decimal(s.count) else s.line
  }

  function SlotTexts(seen: seq<Slot>): (r: seq<string>)
    ensures |r| == |seen| && forall i :: 0 <= i < |seen| ==> r[i] == SlotText(seen[i])
  {
    seq(|seen|, i requires 0 <= i < |seen| => SlotText(seen[i]))
  }

  function BucketText(b: Bucket): string {
    b.key + ": " + Joined(b.lines, ", ") + if b.overflow > 0 then " (+" + Decimal(b.overflow) + ")" else ""
  }

  function BucketTexts(buckets: seq<Bucket>): (r: seq<string>)
    ensures |r| == |buckets| && forall i :: 0 <= i < |buckets| ==> r[i] == BucketText(buckets[i])
  {
    seq(|buckets|, i requires 0 <= i < |buckets| => BucketText(buckets[i]))
  }

  /** Rows below a header. */
  function Below(rows: seq<string>): string {
    if rows == [] then "" else Below(rows[..|rows| - 1]) + "\n  " + rows[|rows| - 1]
  }

  function DroppedText(n: u32): string {
    if n > 0 then "\n  (+" + Decimal(n) + " dropped)" else ""
  }

  function Summary(rule: CompiledRule): Option<string> {
    match rule
    case CEmptyResultSubstitute(message, observed) => if observed == 0 then Some(message) else None
    case CDedupWithCount(_, _, seen) => if seen == [] then None else Some(Joined(SlotTexts(seen), "\n"))
    case CGroupByCapture(_, _, _, _, header, tray) =>
      if tray.buckets == [] then None
      else Some(header + Below(BucketTexts(tray.buckets)) + DroppedText(tray.globalOverflow))
    case _ => None
  }

  function AddSummary(text: string, summary: Option<string>): string {
    if summary.None? || summary.value == "" then text
    else if text == "" then summary.value
    else text + "\n" + summary.value
  }

  function FlushRules(rules: seq<CompiledRule>, text: string): string {
    if rules == [] then text else FlushRules(rules[1..], AddSummary(text, Summary(rules[0])))
  }

  // ---------- groups and dispatch ----------

  datatype Group = Group(command: Option<string>, subcommands: seq<string>, rules: seq<CompiledRule>)

  predicate Selects(g: Group, command: string, subcommand: string) {
    && (g.command.Some? ==> g.command.value == command)
    && (g.subcommands != [] ==> subcommand in g.subcommands)
  }

  /** Run a line through rules until one has an opinion; rules after that one do not see the line. */
  function RunRules(lib: RegexLib, rules: seq<CompiledRule>, line: string): (r: (Option<FilterResult>, seq<CompiledRule>))
    ensures |r.1| == |rules|
  {
    if rules == [] then (None, [])
    else
      var (opinion, head) := Apply(lib, rules[0], line);
      if opinion.Some? then (opinion, [head] + rules[1..])
      else
        var (later, tail) := RunRules(lib, rules[1..], line);
        (later, [head] + tail)
  }

  function RunGroups(lib: RegexLib, groups: seq<Group>, command: string, subcommand: string, line: string)
    : (r: (Option<FilterResult>, seq<Group>))
    ensures |r.1| == |groups|
  {
    if groups == [] then (None, [])
    else if !Selects(groups[0], command, subcommand) then
      var (later, tail) := RunGroups(lib, groups[1..], command, subcommand, line);
      (later, [groups[0]] + tail)
    else
      var (opinion, rules) := RunRules(lib, groups[0].rules, line);
      if opinion.Some? then (opinion, [groups[0].(rules := rules)] + groups[1..])
      else
        var (later, tail) := RunGroups(lib, groups[1..], command, subcommand, line);
        (later, [groups[0].(rules := rules)] + tail)
  }

  function FlushGroups(groups: seq<Group>, text: string): string {
    if groups == [] then text else FlushGroups(groups[1..], FlushRules(groups[0].rules, text))
  }

  function FirstWord(lib: RegexLib, args: string): string {
    if args == "" then ""
    else if lib.isSpace(args[0]) then FirstWord(lib, args[1..])
    else Word(lib, args)
  }

  function Word(lib: RegexLib, s: string): string {
    if s == "" || lib.isSpace(s[0]) then "" else [s[0]] + Word(lib, s[1..])
  }

  /** Part way through the rules: `done` have had their turn without an opinion, `rest` are still to come. */
  ghost predicate RulesLeft(lib: RegexLib, goal: (Option<FilterResult>, seq<CompiledRule>), done: seq<CompiledRule>, rest: seq<CompiledRule>, line: string) {
    goal == (RunRules(lib, rest, line).0, done + RunRules(lib, rest, line).1)
  }

  lemma {:induction false} NextRule(lib: RegexLib, goal: (Option<FilterResult>, seq<CompiledRule>), done: seq<CompiledRule>, rest: seq<CompiledRule>, line: string)
    requires rest != [] && RulesLeft(lib, goal, done, rest, line)
    ensures var (opinion, after) := Apply(lib, rest[0], line);
            if opinion.Some? then goal == (opinion, (done + [after]) + rest[1..]) else RulesLeft(lib, goal, done + [after], rest[1..], line)
  {
    var (opinion, after) := Apply(lib, rest[0], line);
    var more := if opinion.Some? then rest[1..] else RunRules(lib, rest[1..], line).1;
    Seqs.Associates(done, [after], more);
  }

  /** The same for groups, where a group that does not apply has no turn. */
  ghost predicate GroupsLeft(lib: RegexLib, goal: (Option<FilterResult>, seq<Group>), done: seq<Group>, rest: seq<Group>,
                             command: string, subcommand: string, line: string)
  {
    goal == (RunGroups(lib, rest, command, subcommand, line).0, done + RunGroups(lib, rest, command, subcommand, line).1)
  }

  lemma {:induction false} NextGroup(lib: RegexLib, goal: (Option<FilterResult>, seq<Group>), done: seq<Group>, rest: seq<Group>,
                                     command: string, subcommand: string, line: string)
    requires rest != [] && Selects(rest[0], command, subcommand) && GroupsLeft(lib, goal, done, rest, command, subcommand, line)
    ensures var (opinion, rules) := RunRules(lib, rest[0].rules, line);
            var after := rest[0].(rules := rules);
            if opinion.Some? then goal == (opinion, (done + [after]) + rest[1..])
            else GroupsLeft(lib, goal, done + [after], rest[1..], command, subcommand, line)
  {
    var (opinion, rules) := RunRules(lib, rest[0].rules, line);
    var more := if opinion.Some? then rest[1..] else RunGroups(lib, rest[1..], command, subcommand, line).1;
    Seqs.Associates(done, [rest[0].(rules := rules)], more);
  }

  lemma {:induction false} SkipGroup(lib: RegexLib, goal: (Option<FilterResult>, seq<Group>), done: seq<Group>, rest: seq<Group>,
                                     command: string, subcommand: string, line: string)
    requires rest != [] && !Selects(rest[0], command, subcommand) && GroupsLeft(lib, goal, done, rest, command, subcommand, line)
    ensures GroupsLeft(lib, goal, done + [rest[0]], rest[1..], command, subcommand, line)
  {
    Seqs.Associates(done, [rest[0]], RunGroups(lib, rest[1..], command, subcommand, line).1);
  }

  lemma {:induction false} AfterUpdate<T>(s: seq<T>, i: nat, x: T)
    requires i < |s|
    ensures s[i := x][..i + 1] == s[..i] + [x] && s[i := x][i + 1..] == s[i..][1..] && s[i..][0] == s[i]
    ensures s[i := x] == (s[..i] + [x]) + s[i..][1..]
  {
  }

  class FilterPlugin {
    const lib: RegexLib
    var groups: seq<Group>

    constructor (lib: RegexLib, groups: seq<Group>)
      ensures this.lib == lib && this.groups == groups
    {
      this.lib, this.groups := lib, groups;
    }

    /** `FilterPlugin::filter`: the two nested loops over groups and their rules. */
    method Filter(line: string, command: string, args: string) returns (r: FilterResult)
      requires ByteLen(line) <= MAX_USIZE
      modifies this
      ensures var (opinion, after) := RunGroups(lib, old(groups), command, FirstWord(lib, args), line);
              groups == after && r == (if opinion.Some? then opinion.value else Pass)
    {
      var subcommand := FirstWord(lib, args);
      ghost var goal := RunGroups(lib, groups, command, subcommand, line);
      assert groups[0..] == groups && groups[..0] + goal.1 == goal.1;
      for i := 0 to |groups|
        invariant |groups| == |old(groups)|
        invariant GroupsLeft(lib, goal, groups[..i], groups[i..], command, subcommand, line)
      {
        if !Selects(groups[i], command, subcommand) {
          SkipGroup(lib, goal, groups[..i], groups[i..], command, subcommand, line);
          AfterUpdate(groups, i, groups[i]);
          assert groups[i := groups[i]] == groups;
          continue;
        }
        var opinion, rules := RunGroup(groups[i].rules, line);
        NextGroup(lib, goal, groups[..i], groups[i..], command, subcommand, line);
        AfterUpdate(groups, i, groups[i].(rules := rules));
        groups := groups[i := groups[i].(rules := rules)];
        if opinion.Some? {
          return opinion.value;
        }
      }
      assert groups[..|groups|] + [] == groups;
      r := Pass;
    }

    /** The inner loop. */
    method RunGroup(before: seq<CompiledRule>, line: string) returns (opinion: Option<FilterResult>, rules: seq<CompiledRule>)
      requires ByteLen(line) <= MAX_USIZE
      ensures (opinion, rules) == RunRules(lib, before, line)
    {
      rules := before;
      ghost var goal := RunRules(lib, before, line);
      assert before[0..] == before && rules[..0] + goal.1 == goal.1;
      for j := 0 to |before|
        invariant |rules| == |before| && RulesLeft(lib, goal, rules[..j], rules[j..], line)
      {
        var after;
        opinion, after := ApplyRule(lib, rules[j], line);
        NextRule(lib, goal, rules[..j], rules[j..], line);
        AfterUpdate(rules, j, after);
        rules := rules[j := after];
        if opinion.Some? {
          return;
        }
      }
      assert rules[..|before|] + [] == rules;
      opinion := None;
    }

    /** `FilterPlugin::flush`: summaries in rule order, one per line. State is not cleared. */
    method Flush() returns (text: string)
      ensures text == FlushGroups(groups, "")
    {
      text := "";
      for i := 0 to |groups|
        invariant FlushGroups(groups, "") == FlushGroups(groups[i..], text)
      {
        var rules := groups[i].rules;
        ghost var before := text;
        assert groups[i..][1..] == groups[i + 1..];
        for j := 0 to |rules|
          invariant FlushRules(rules, before) == FlushRules(rules[j..], text)
        {
          assert rules[j..][1..] == rules[j + 1..];
          text := AddSummary(text, Summary(rules[j]));
        }
      }
    }
  }
}
