/**
 The text a filter flushes at the end of a command: which summaries, in which order, and how each is
 written, from the lines that reached its rule.
 */
module FilterFlush {
  import opened Numerals
  import opened Texts
  import opened Wrappers
  import opened Filter
  import opened FilterFusion
  import opened FilterLaws
  import opened GroupLaws
  import opened Wrapping

  // ---------- one rule ----------

  /** The first of some lines, with their number behind it if there is more than one. */
  function CountedLine(lines: seq<string>): string
    requires lines != []
  {
    if Wrap32(|lines|) > 1 then lines[0] + " ×" + Decimal(Wrap32(|lines|)) else lines[0]
  }

  /** One row per slot: the first line of its key, counted. */
  ghost predicate RowsOfKeys(lib: RegexLib, re: string, group: Option<nat>, lines: seq<string>, seen: seq<Slot>, rows: seq<string>) {
    && |rows| == |seen|
    && forall k :: 0 <= k < |seen| ==>
                     var mine := KeyLines(lib, re, group, lines, seen[k].key); mine != [] && rows[k] == CountedLine(mine)
  }

  /** Counted dedup flushes a row per key, in order of first appearance, and nothing iff there is no key. */
  lemma {:induction false} DedupFlushLaw(lib: RegexLib, re: string, group: Option<nat>, lines: seq<string>) returns (rows: seq<string>)
    requires lib.valid(re)
    ensures var after := After(lib, Compiled(lib, DedupWithCount(re, group)), lines);
            && after.CDedupWithCount? && SlotsAreExact(lib, re, group, lines, after.seen) && FirstSeenOrder(lib, re, group, lines, after.seen)
            && RowsOfKeys(lib, re, group, lines, after.seen, rows)
            && Summary(after) == if rows == [] then None else Some(Joined(rows, "\n"))
  {
    DedupLaw(lib, re, group, lines);
    rows := SlotTexts(After(lib, Compiled(lib, DedupWithCount(re, group)), lines).seen);
  }

  /** The lines a bucket keeps, and how many of its key it leaves out, as a `u32`. */
  function KeptLines(p: Policy, lines: seq<string>, key: string): seq<string> {
    var mine := Early(p, lines, key);
    if |mine| <= p.capPerKey then mine else mine[..p.capPerKey]
  }

  function LeftOut(p: Policy, lines: seq<string>, key: string): u32 {
    Wrap32(Excess(|Early(p, lines, key)|, p.capPerKey))
  }

  /** The row of a key: the lines kept, and how many were left out, if any. */
  function BucketRow(p: Policy, lines: seq<string>, key: string): string {
    key + ": " + Joined(KeptLines(p, lines, key), ", ")
    + if LeftOut(p, lines, key) > 0 then " (+" + Decimal(LeftOut(p, lines, key)) + ")" else ""
  }

  /** A last row for the lines that came once the total was full, if any. */
  function DroppedRow(n: u32): seq<string> {
    if n > 0 then ["(+" + Decimal(n) + " dropped)"] else []
  }

  function BucketRows(p: Policy, lines: seq<string>, buckets: seq<Bucket>): (r: seq<string>)
    ensures |r| == |buckets| && forall i :: 0 <= i < |buckets| ==> r[i] == BucketRow(p, lines, buckets[i].key)
  {
    seq(|buckets|, i requires 0 <= i < |buckets| => BucketRow(p, lines, buckets[i].key))
  }

  lemma {:induction false} BucketTextsAreRows(p: Policy, lines: seq<string>, buckets: seq<Bucket>)
    requires BucketsAreExact(p, lines, buckets)
    ensures BucketTexts(buckets) == BucketRows(p, lines, buckets)
  {
    forall i | 0 <= i < |buckets| ensures BucketText(buckets[i]) == BucketRow(p, lines, buckets[i].key) {
      assert BucketIsExact(p, lines, buckets[i]);
    }
  }

  /** Rows below a header are joined to it. */
  lemma {:induction false} BelowJoins(header: string, rows: seq<string>)
    ensures header + Below(rows) == Joined([header] + rows, "\n  ")
  {
    if rows == [] {
      assert [header] + rows == [header];
    } else {
      var n := |rows| - 1;
      BelowJoins(header, rows[..n]);
      assert [header] + rows == ([header] + rows[..n]) + [rows[n]];
      JoinedSnoc([header] + rows[..n], "\n  ", rows[n]);
      BehindHeader(header, Below(rows[..n]), "\n  ", rows[n]);
    }
  }

  lemma {:induction false} BehindHeader(header: string, front: string, separator: string, row: string)
    ensures header + (front + separator + row) == header + front + separator + row
  {
  }

  lemma {:induction false} NoMatchNoKey(p: Policy, lines: seq<string>)
    ensures (forall k :: Mine(p, lines, k) == []) <==> Matched(p, lines) == 0
  {
    if lines != [] {
      var init, last := lines[..|lines| - 1], lines[|lines| - 1];
      NoMatchNoKey(p, init);
      assert lines == init + [last];
      MatchedOneMore(p, init, last);
      forall k ensures Mine(p, lines, k) == if Hits(p, last) && Key(p, last) == k then Mine(p, init, k) + [last] else Mine(p, init, k) {
        KeyLinesOneMore(p.lib, p.re, p.group, init, last, k);
      }
      if Hits(p, last) { assert Mine(p, lines, Key(p, last)) != []; }
    }
  }

  lemma {:induction false} NoBuckets(p: Policy, lines: seq<string>, buckets: seq<Bucket>)
    requires OnePerKey(p, lines, buckets)
    ensures buckets == [] <==> Matched(p, lines) == 0
  {
    NoMatchNoKey(p, lines);
    if buckets != [] {
      assert HasBucket(buckets, buckets[0].key);
    } else {
      forall k ensures Mine(p, lines, k) == [] {
        assert !HasBucket(buckets, k);
      }
    }
  }

  /** Grouping flushes its header, a row per bucket, and the number of lines that came once it was full; nothing iff no line matched. */
  lemma {:induction false} GroupFlushLaw(p: Policy, header: string, lines: seq<string>)
    requires p.lib.valid(p.re)
    ensures var after := After(p.lib, Compiled(p.lib, GroupByCapture(p.re, p.group, p.capPerKey, p.totalCap, header)), lines);
            && after.CGroupByCapture? && OnePerKey(p, lines, after.tray.buckets)
            && Summary(after) ==
               if Matched(p, lines) == 0 then None
               else Some(Joined(([header] + BucketRows(p, lines, after.tray.buckets)) + DroppedRow(Wrap32(Late(p, lines))), "\n  "))
  {
    GroupFromRule(p, header, lines);
    TrayStaysExact(p, lines);
    TrayText(p, header, lines, TrayAfter(p, lines));
  }

  lemma {:induction false} TrayText(p: Policy, header: string, lines: seq<string>, tray: Tray)
    requires OnePerKey(p, lines, tray.buckets) && BucketsAreExact(p, lines, tray.buckets)
    ensures Summary(CGroupByCapture(p.re, p.group, p.capPerKey, p.totalCap, header, tray)) ==
            if Matched(p, lines) == 0 then None
            else Some(Joined(([header] + BucketRows(p, lines, tray.buckets)) + DroppedRow(tray.globalOverflow), "\n  "))
  {
    NoBuckets(p, lines, tray.buckets);
    BucketTextsAreRows(p, lines, tray.buckets);
    BelowJoins(header, BucketRows(p, lines, tray.buckets));
    DroppedJoined([header] + BucketRows(p, lines, tray.buckets), tray.globalOverflow);
  }

  lemma {:induction false} DroppedJoined(rows: seq<string>, n: u32)
    requires rows != []
    ensures Joined(rows, "\n  ") + DroppedText(n) == Joined(rows + DroppedRow(n), "\n  ")
  {
    if n > 0 {
      JoinedSnoc(rows, "\n  ", DroppedRow(n)[0]);
      DroppedSplits(Decimal(n));
      BehindHeader(Joined(rows, "\n  "), "", "\n  ", DroppedRow(n)[0]);
    } else {
      assert rows + DroppedRow(n) == rows;
    }
  }

  lemma {:induction false} DroppedSplits(n: string)
    ensures "\n  (+" + n + " dropped)" == "" + "\n  " + ("(+" + n + " dropped)")
  {
    assert "\n  (+" == "\n  " + "(+";
  }

  // ---------- a whole plugin ----------

  /** The summaries worth printing, in order. */
  function Said(rules: seq<CompiledRule>): seq<string> {
    if rules == [] then []
    else
      var last := Summary(rules[|rules| - 1]);
      if last.Some? && last.value != "" then Said(rules[..|rules| - 1]) + [last.value] else Said(rules[..|rules| - 1])
  }

  function AllRules(groups: seq<Group>): seq<CompiledRule> {
    if groups == [] then [] else AllRules(groups[..|groups| - 1]) + groups[|groups| - 1].rules
  }

  ghost predicate NoneEmpty(parts: seq<string>) {
    forall i :: 0 <= i < |parts| ==> parts[i] != ""
  }

  lemma {:induction false} JoinedEmpty(parts: seq<string>, separator: string)
    requires NoneEmpty(parts)
    ensures Joined(parts, separator) == "" <==> parts == []
  {
  }

  lemma {:induction false} SummaryAdded(parts: seq<string>, summary: Option<string>)
    requires NoneEmpty(parts)
    ensures AddSummary(Joined(parts, "\n"), summary) ==
            Joined(if summary.Some? && summary.value != "" then parts + [summary.value] else parts, "\n")
  {
    JoinedEmpty(parts, "\n");
    if parts != [] && summary.Some? { JoinedSnoc(parts, "\n", summary.value); }
  }

  lemma {:induction false} SaidIsNonEmpty(rules: seq<CompiledRule>)
    ensures NoneEmpty(Said(rules))
  {
    if rules != [] { SaidIsNonEmpty(rules[..|rules| - 1]); }
  }

  lemma {:induction false} SaidMore(done: seq<CompiledRule>, rule: CompiledRule)
    ensures Joined(Said(done + [rule]), "\n") == AddSummary(Joined(Said(done), "\n"), Summary(rule))
  {
    assert (done + [rule])[..|done|] == done;
    SaidIsNonEmpty(done);
    SummaryAdded(Said(done), Summary(rule));
  }

  lemma {:induction false} FlushOne(rules: seq<CompiledRule>, i: nat, text: string)
    requires i < |rules|
    ensures FlushRules(rules[i..], text) == FlushRules(rules[i + 1..], AddSummary(text, Summary(rules[i])))
  {
    assert rules[i..][0] == rules[i] && rules[i..][1..] == rules[i + 1..];
  }

  lemma {:induction false} FlushRulesFrom(done: seq<CompiledRule>, rules: seq<CompiledRule>, i: nat)
    requires i <= |rules|
    ensures FlushRules(rules[i..], Joined(Said(done + rules[..i]), "\n")) == Joined(Said(done + rules), "\n")
    decreases |rules| - i
  {
    if i == |rules| {
      assert rules[..i] == rules && rules[i..] == [];
    } else {
      FlushOne(rules, i, Joined(Said(done + rules[..i]), "\n"));
      SaidMore(done + rules[..i], rules[i]);
      assert (done + rules[..i]) + [rules[i]] == done + rules[..i + 1];
      FlushRulesFrom(done, rules, i + 1);
    }
  }

  lemma {:induction false} FlushGroup(done: seq<CompiledRule>, groups: seq<Group>, i: nat)
    requires i < |groups|
    ensures FlushGroups(groups[i..], Joined(Said(done), "\n")) == FlushGroups(groups[i + 1..], Joined(Said(done + groups[i].rules), "\n"))
  {
    var rules := groups[i].rules;
    assert groups[i..][0] == groups[i] && groups[i..][1..] == groups[i + 1..];
    FlushRulesFrom(done, rules, 0);
    assert rules[0..] == rules && done + rules[..0] == done;
  }

  lemma {:induction false} FlushGroupsFrom(groups: seq<Group>, i: nat)
    requires i <= |groups|
    ensures FlushGroups(groups[i..], Joined(Said(AllRules(groups[..i])), "\n")) == Joined(Said(AllRules(groups)), "\n")
    decreases |groups| - i
  {
    if i == |groups| {
      assert groups[..i] == groups && groups[i..] == [];
    } else {
      FlushGroup(AllRules(groups[..i]), groups, i);
      assert groups[..i + 1][..i] == groups[..i];
      FlushGroupsFrom(groups, i + 1);
    }
  }

  /** A plugin flushes the summaries of its rules that have one, in order, a line break between them. */
  lemma {:induction false} FlushLaw(groups: seq<Group>)
    ensures FlushGroups(groups, "") == Joined(Said(AllRules(groups)), "\n")
  {
    FlushGroupsFrom(groups, 0);
    assert groups[0..] == groups && groups[..0] == [];
  }
}
