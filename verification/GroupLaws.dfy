/**
 What `GroupByCapture` amounts to over a whole run: its caps, its buckets and its counters, each
 against the lines alone, and when they account for every matching line.
 */
module GroupLaws {
  import opened Wrappers
  import opened Filter
  import opened FilterFusion
  import opened FilterLaws
  import opened Wrapping

  /** The parameters of a grouping rule. */
  datatype Policy = Policy(lib: RegexLib, re: string, group: Option<nat>, capPerKey: u32, totalCap: u32)

  predicate Hits(p: Policy, line: string) { p.lib.isMatch(p.re, line) }

  function Key(p: Policy, line: string): string { KeyOf(p.lib, p.re, line, p.group) }

  /** The matching lines with a key, and the number of matching lines. */
  function Mine(p: Policy, lines: seq<string>, key: string): seq<string> { KeyLines(p.lib, p.re, p.group, lines, key) }

  function Matched(p: Policy, lines: seq<string>): nat { Matches(p.lib, p.re, lines) }

  // ---------- what the caps let through, from the lines alone ----------

  /** How many lines are kept: those that come while both their key and the total are under their caps. */
  function KeptOf(p: Policy, lines: seq<string>): nat {
    if lines == [] then 0
    else
      var init, last := lines[..|lines| - 1], lines[|lines| - 1];
      var kept := KeptOf(p, init);
      if Hits(p, last) && kept < p.totalCap && |Mine(p, init, Key(p, last))| < p.capPerKey then kept + 1 else kept
  }

  /** The lines up to the one that fills the total; all of them as long as it is not full. */
  function UntilFull(p: Policy, lines: seq<string>): (n: nat)
    ensures n <= |lines|
  {
    if lines == [] then 0
    else if KeptOf(p, lines[..|lines| - 1]) < p.totalCap then |lines|
    else UntilFull(p, lines[..|lines| - 1])
  }

  /** The lines of a key that come until the total is full. */
  function Early(p: Policy, lines: seq<string>, key: string): seq<string> {
    Mine(p, lines[..UntilFull(p, lines)], key)
  }

  /** How many matching lines come once the total is full. */
  function Late(p: Policy, lines: seq<string>): nat {
    Matched(p, lines[UntilFull(p, lines)..])
  }

  function Excess(n: nat, cap: nat): nat { if n > cap then n - cap else 0 }

  lemma {:induction false} OneMoreLine(p: Policy, lines: seq<string>, line: string)
    ensures KeptOf(p, lines) <= p.totalCap
    ensures KeptOf(p, lines + [line]) ==
            KeptOf(p, lines) + if Hits(p, line) && KeptOf(p, lines) < p.totalCap && |Mine(p, lines, Key(p, line))| < p.capPerKey then 1 else 0
    ensures UntilFull(p, lines + [line]) == if KeptOf(p, lines) < p.totalCap then |lines| + 1 else UntilFull(p, lines)
    ensures KeptOf(p, lines) < p.totalCap ==> UntilFull(p, lines) == |lines|
  {
    assert (lines + [line])[..|lines|] == lines;
    if lines != [] {
      OneMoreLine(p, lines[..|lines| - 1], lines[|lines| - 1]);
      assert lines == lines[..|lines| - 1] + [lines[|lines| - 1]];
    }
  }

  lemma {:induction false} MatchedOneMore(p: Policy, lines: seq<string>, line: string)
    ensures Matched(p, lines + [line]) == Matched(p, lines) + if Hits(p, line) then 1 else 0
  {
    assert (lines + [line])[..|lines|] == lines;
  }

  /** Until the total is full, a line counts under its key; after that, under no key. */
  lemma {:induction false} EarlyOneMore(p: Policy, lines: seq<string>, line: string, key: string)
    ensures Early(p, lines + [line], key) ==
            if KeptOf(p, lines) < p.totalCap && Hits(p, line) && Key(p, line) == key then Early(p, lines, key) + [line] else Early(p, lines, key)
    ensures KeptOf(p, lines) < p.totalCap ==> Early(p, lines, key) == Mine(p, lines, key)
  {
    OneMoreLine(p, lines, line);
    KeyLinesOneMore(p.lib, p.re, p.group, lines, line, key);
    if KeptOf(p, lines) < p.totalCap {
      assert (lines + [line])[..|lines| + 1] == lines + [line] && lines[..|lines|] == lines;
    } else {
      assert (lines + [line])[..UntilFull(p, lines)] == lines[..UntilFull(p, lines)];
    }
  }

  lemma {:induction false} LateOneMore(p: Policy, lines: seq<string>, line: string)
    ensures Late(p, lines + [line]) == Late(p, lines) + if KeptOf(p, lines) >= p.totalCap && Hits(p, line) then 1 else 0
    ensures KeptOf(p, lines) < p.totalCap ==> Late(p, lines) == 0
  {
    OneMoreLine(p, lines, line);
    if KeptOf(p, lines) < p.totalCap {
      assert (lines + [line])[|lines| + 1..] == [] && lines[|lines|..] == [];
    } else {
      var n := UntilFull(p, lines);
      assert (lines + [line])[n..] == lines[n..] + [line];
      MatchedOneMore(p, lines[n..], line);
    }
  }

  // ---------- the buckets ----------

  /** A bucket holds the first early lines of its key, up to the cap, and counts the others modulo 2^32. */
  ghost predicate BucketIsExact(p: Policy, lines: seq<string>, b: Bucket) {
    var mine := Early(p, lines, b.key);
    && b.lines == (if |mine| <= p.capPerKey then mine else mine[..p.capPerKey])
    && b.overflow == Wrap32(Excess(|mine|, p.capPerKey))
  }

  ghost predicate BucketsAreExact(p: Policy, lines: seq<string>, buckets: seq<Bucket>) {
    forall i :: 0 <= i < |buckets| ==> BucketIsExact(p, lines, buckets[i])
  }

  ghost predicate HasBucket(buckets: seq<Bucket>, key: string) {
    exists i :: 0 <= i < |buckets| && buckets[i].key == key
  }

  /** One bucket for every key that a matching line had, whether it came early or not. */
  ghost predicate OnePerKey(p: Policy, lines: seq<string>, buckets: seq<Bucket>) {
    && (forall i, j :: 0 <= i < j < |buckets| ==> buckets[i].key != buckets[j].key)
    && (forall k :: Mine(p, lines, k) != [] <==> HasBucket(buckets, k))
  }

  lemma {:induction false} OpenedKeys(buckets: seq<Bucket>, key: string, k: string)
    ensures HasBucket(Opened(buckets, key), k) <==> HasBucket(buckets, k) || k == key
  {
    var all := Opened(buckets, key);
    if FindBucket(buckets, key).None? { assert all[|buckets|].key == key; }
    if HasBucket(buckets, k) {
      var i :| 0 <= i < |buckets| && buckets[i].key == k;
      assert all[i].key == k;
    }
  }

  lemma {:induction false} SameKeys(a: seq<Bucket>, b: seq<Bucket>, k: string)
    requires |a| == |b| && forall i :: 0 <= i < |a| ==> a[i].key == b[i].key
    ensures HasBucket(a, k) ==> HasBucket(b, k)
  {
    if HasBucket(a, k) {
      var i :| 0 <= i < |a| && a[i].key == k;
      assert b[i].key == k;
    }
  }

  /** The bucket a line is filed under, once filed. */
  function FiledOne(b: Bucket, line: string, p: Policy, totalKept: u32): Bucket {
    if totalKept >= p.totalCap then b
    else if |b.lines| < p.capPerKey then Bucket(b.key, b.lines + [line], b.overflow)
    else Bucket(b.key, b.lines, Bump(b.overflow))
  }

  /** What filing does, spelled out: the buckets with one opened for the key, `at` being the key's. */
  lemma {:induction false} FiledShape(p: Policy, tray: Tray, key: string, line: string) returns (buckets: seq<Bucket>, at: nat)
    ensures buckets == Opened(tray.buckets, key) && at < |buckets| && buckets[at].key == key
    ensures var b, after := buckets[at], Filed(tray, p.capPerKey, p.totalCap, key, line);
            && after.buckets == buckets[at := FiledOne(b, line, p, tray.totalKept)]
            && after.totalKept == (if tray.totalKept < p.totalCap && |b.lines| < p.capPerKey then tray.totalKept + 1 else tray.totalKept)
            && after.globalOverflow == (if tray.totalKept >= p.totalCap then Bump(tray.globalOverflow) else tray.globalOverflow)
  {
    OpenedKeys(tray.buckets, key, key);
    buckets := Opened(tray.buckets, key);
    at := FindBucket(buckets, key).value;
    assert buckets[at := buckets[at]] == buckets;
  }

  lemma {:induction false} FiledHas(p: Policy, tray: Tray, key: string, line: string, k: string)
    ensures HasBucket(Filed(tray, p.capPerKey, p.totalCap, key, line).buckets, k) <==> HasBucket(tray.buckets, k) || k == key
  {
    var buckets, at := FiledShape(p, tray, key, line);
    var after := Filed(tray, p.capPerKey, p.totalCap, key, line).buckets;
    OpenedKeys(tray.buckets, key, k);
    SameKeys(buckets, after, k);
    SameKeys(after, buckets, k);
  }

  lemma {:induction false} OpenedDiffer(buckets: seq<Bucket>, key: string, i: nat, j: nat)
    requires forall x, y :: 0 <= x < y < |buckets| ==> buckets[x].key != buckets[y].key
    requires i < j < |Opened(buckets, key)|
    ensures Opened(buckets, key)[i].key != Opened(buckets, key)[j].key
  {
  }

  lemma {:induction false} FiledKeys(p: Policy, lines: seq<string>, tray: Tray, line: string)
    requires OnePerKey(p, lines, tray.buckets) && Hits(p, line)
    ensures OnePerKey(p, lines + [line], Filed(tray, p.capPerKey, p.totalCap, Key(p, line), line).buckets)
  {
    var buckets, at := FiledShape(p, tray, Key(p, line), line);
    var after := Filed(tray, p.capPerKey, p.totalCap, Key(p, line), line).buckets;
    forall i, j | 0 <= i < j < |after| ensures after[i].key != after[j].key {
      OpenedDiffer(tray.buckets, Key(p, line), i, j);
    }
    forall k ensures Mine(p, lines + [line], k) != [] <==> HasBucket(after, k) {
      KeyLinesOneMore(p.lib, p.re, p.group, lines, line, k);
      FiledHas(p, tray, Key(p, line), line, k);
    }
  }

  lemma {:induction false} OpenedIsExact(p: Policy, lines: seq<string>, buckets: seq<Bucket>, key: string, i: nat)
    requires BucketsAreExact(p, lines, buckets) && OnePerKey(p, lines, buckets) && i < |Opened(buckets, key)|
    ensures BucketIsExact(p, lines, Opened(buckets, key)[i])
  {
    if i < |buckets| {
      assert BucketIsExact(p, lines, buckets[i]);
    } else {
      assert !HasBucket(buckets, key);
      KeyLinesGrow(p.lib, p.re, p.group, lines, UntilFull(p, lines), key);
      assert Early(p, lines, key) == [];
    }
  }

  lemma {:induction false} KeptIsExact(p: Policy, mine: seq<string>, line: string)
    ensures var cap := p.capPerKey;
            && (|mine| < cap ==> mine + [line] == if |mine + [line]| <= cap then mine + [line] else (mine + [line])[..cap])
            && (|mine| >= cap ==> (mine + [line])[..cap] == mine[..cap] && Bump(Wrap32(Excess(|mine|, cap))) == Wrap32(Excess(|mine| + 1, cap)))
  {
    if |mine| >= p.capPerKey {
      assert (mine + [line])[..p.capPerKey] == mine[..p.capPerKey];
      BumpWraps(Excess(|mine|, p.capPerKey));
    }
  }

  lemma {:induction false} FiledOneIsExact(p: Policy, lines: seq<string>, b: Bucket, line: string)
    requires BucketIsExact(p, lines, b) && Hits(p, line) && b.key == Key(p, line) && KeptOf(p, lines) < U32
    ensures BucketIsExact(p, lines + [line], FiledOne(b, line, p, KeptOf(p, lines)))
  {
    EarlyOneMore(p, lines, line, b.key);
    KeptIsExact(p, Early(p, lines, b.key), line);
  }

  lemma {:induction false} OtherIsExact(p: Policy, lines: seq<string>, b: Bucket, line: string)
    requires BucketIsExact(p, lines, b) && (Hits(p, line) ==> b.key != Key(p, line))
    ensures BucketIsExact(p, lines + [line], b)
  {
    EarlyOneMore(p, lines, line, b.key);
  }

  lemma {:induction false} FiledBuckets(p: Policy, lines: seq<string>, tray: Tray, line: string)
    requires BucketsAreExact(p, lines, tray.buckets) && OnePerKey(p, lines, tray.buckets) && Hits(p, line)
    requires tray.totalKept == KeptOf(p, lines)
    ensures BucketsAreExact(p, lines + [line], Filed(tray, p.capPerKey, p.totalCap, Key(p, line), line).buckets)
  {
    var buckets, at := FiledShape(p, tray, Key(p, line), line);
    var after := Filed(tray, p.capPerKey, p.totalCap, Key(p, line), line).buckets;
    forall i | 0 <= i < |after| ensures BucketIsExact(p, lines + [line], after[i]) {
      OpenedIsExact(p, lines, tray.buckets, Key(p, line), i);
      if i == at { FiledOneIsExact(p, lines, buckets[i], line); } else { OtherIsExact(p, lines, buckets[i], line); }
    }
  }

  // ---------- the sums ----------

  function SumKept(buckets: seq<Bucket>): nat {
    if buckets == [] then 0 else SumKept(buckets[..|buckets| - 1]) + |buckets[|buckets| - 1].lines|
  }

  function SumOverflow(buckets: seq<Bucket>): nat {
    if buckets == [] then 0 else SumOverflow(buckets[..|buckets| - 1]) + buckets[|buckets| - 1].overflow
  }

  /** Everything the rule counted. */
  function Accounted(tray: Tray): nat {
    SumKept(tray.buckets) + SumOverflow(tray.buckets) + tray.globalOverflow
  }

  lemma {:induction false} SumsAfterUpdate(buckets: seq<Bucket>, i: nat, b: Bucket)
    requires i < |buckets|
    ensures SumKept(buckets[i := b]) == SumKept(buckets) - |buckets[i].lines| + |b.lines|
    ensures SumOverflow(buckets[i := b]) == SumOverflow(buckets) - buckets[i].overflow + b.overflow
  {
    var n := |buckets| - 1;
    if i < n {
      SumsAfterUpdate(buckets[..n], i, b);
      assert buckets[i := b][..n] == buckets[..n][i := b];
    } else {
      assert buckets[i := b][..n] == buckets[..n];
    }
  }

  lemma {:induction false} SumsOpened(buckets: seq<Bucket>, key: string)
    ensures SumKept(Opened(buckets, key)) == SumKept(buckets) && SumOverflow(Opened(buckets, key)) == SumOverflow(buckets)
  {
    assert (buckets + [Bucket(key, [], 0)])[..|buckets|] == buckets;
  }

  /** What filing a line does to the sums, in terms of the bucket it is filed under. */
  lemma {:induction false} FiledSums(p: Policy, tray: Tray, key: string, line: string) returns (at: nat)
    ensures at < |Opened(tray.buckets, key)| && Opened(tray.buckets, key)[at].key == key
    ensures var b, after := Opened(tray.buckets, key)[at], Filed(tray, p.capPerKey, p.totalCap, key, line);
            && SumKept(after.buckets) == SumKept(tray.buckets) + |FiledOne(b, line, p, tray.totalKept).lines| - |b.lines|
            && SumOverflow(after.buckets) == SumOverflow(tray.buckets) + FiledOne(b, line, p, tray.totalKept).overflow - b.overflow
            && after.totalKept == (if tray.totalKept < p.totalCap && |b.lines| < p.capPerKey then tray.totalKept + 1 else tray.totalKept)
            && after.globalOverflow == (if tray.totalKept >= p.totalCap then Bump(tray.globalOverflow) else tray.globalOverflow)
  {
    var buckets;
    buckets, at := FiledShape(p, tray, key, line);
    SumsOpened(tray.buckets, key);
    SumsAfterUpdate(buckets, at, FiledOne(buckets[at], line, p, tray.totalKept));
  }

  // ---------- over a run ----------

  function TrayAfter(p: Policy, lines: seq<string>): Tray {
    if lines == [] then Tray([], 0, 0)
    else
      var tray, last := TrayAfter(p, lines[..|lines| - 1]), lines[|lines| - 1];
      if Hits(p, last) then Filed(tray, p.capPerKey, p.totalCap, Key(p, last), last) else tray
  }

  lemma {:induction false} GroupAfter(p: Policy, header: string, lines: seq<string>)
    ensures After(p.lib, CGroupByCapture(p.re, p.group, p.capPerKey, p.totalCap, header, Tray([], 0, 0)), lines) ==
            CGroupByCapture(p.re, p.group, p.capPerKey, p.totalCap, header, TrayAfter(p, lines))
  {
    AfterLast(p.lib, CGroupByCapture(p.re, p.group, p.capPerKey, p.totalCap, header, Tray([], 0, 0)), lines);
    if lines != [] { GroupAfter(p, header, lines[..|lines| - 1]); }
  }

  /** The caps, the buckets and the counters, against the lines. */
  ghost predicate TrayIsExact(p: Policy, lines: seq<string>, tray: Tray) {
    && OnePerKey(p, lines, tray.buckets)
    && BucketsAreExact(p, lines, tray.buckets)
    && tray.totalKept == KeptOf(p, lines) == SumKept(tray.buckets)
    && tray.globalOverflow == Wrap32(Late(p, lines))
  }

  lemma {:induction false} SkipIsSame(p: Policy, lines: seq<string>, line: string, tray: Tray)
    requires TrayIsExact(p, lines, tray) && !Hits(p, line)
    ensures TrayIsExact(p, lines + [line], tray)
  {
    SkipIsExact(p.lib, p.re, p.group, lines, line);
    OneMoreLine(p, lines, line);
    LateOneMore(p, lines, line);
    forall i | 0 <= i < |tray.buckets| ensures BucketIsExact(p, lines + [line], tray.buckets[i]) {
      OtherIsExact(p, lines, tray.buckets[i], line);
    }
    forall k ensures Mine(p, lines + [line], k) != [] <==> HasBucket(tray.buckets, k) {
      assert Mine(p, lines + [line], k) == Mine(p, lines, k);
    }
  }

  /** Until the total is full, a bucket is under its cap iff its key is. */
  lemma {:induction false} UnderCap(p: Policy, lines: seq<string>, b: Bucket)
    requires BucketIsExact(p, lines, b) && KeptOf(p, lines) < p.totalCap
    ensures |b.lines| < p.capPerKey <==> |Mine(p, lines, b.key)| < p.capPerKey
  {
    EarlyOneMore(p, lines, "", b.key);
  }

  lemma {:induction false} FiledKept(p: Policy, lines: seq<string>, tray: Tray, line: string)
    requires TrayIsExact(p, lines, tray) && Hits(p, line)
    ensures var after := Filed(tray, p.capPerKey, p.totalCap, Key(p, line), line);
            after.totalKept == KeptOf(p, lines + [line]) == SumKept(after.buckets)
  {
    var at := FiledSums(p, tray, Key(p, line), line);
    OneMoreLine(p, lines, line);
    OpenedIsExact(p, lines, tray.buckets, Key(p, line), at);
    if KeptOf(p, lines) < p.totalCap { UnderCap(p, lines, Opened(tray.buckets, Key(p, line))[at]); }
  }

  lemma {:induction false} CounterNext(shown: u32, n: nat, more: bool)
    requires shown == Wrap32(n)
    ensures (if more then Bump(shown) else shown) == Wrap32(n + if more then 1 else 0)
  {
    BumpWraps(n);
  }

  lemma {:induction false} FiledLate(p: Policy, lines: seq<string>, tray: Tray, line: string)
    requires tray.totalKept == KeptOf(p, lines) && tray.globalOverflow == Wrap32(Late(p, lines)) && Hits(p, line)
    ensures Filed(tray, p.capPerKey, p.totalCap, Key(p, line), line).globalOverflow == Wrap32(Late(p, lines + [line]))
  {
    var at := FiledSums(p, tray, Key(p, line), line);
    LateOneMore(p, lines, line);
    CounterNext(tray.globalOverflow, Late(p, lines), KeptOf(p, lines) >= p.totalCap);
  }

  lemma {:induction false} NoTray(p: Policy)
    ensures TrayIsExact(p, [], Tray([], 0, 0))
  {
  }

  lemma {:induction false} TrayStaysExact(p: Policy, lines: seq<string>)
    ensures TrayIsExact(p, lines, TrayAfter(p, lines))
  {
    if lines == [] {
      NoTray(p);
    } else {
      var init, last := lines[..|lines| - 1], lines[|lines| - 1];
      var tray := TrayAfter(p, init);
      TrayStaysExact(p, init);
      assert lines == init + [last];
      if Hits(p, last) {
        FiledKeys(p, init, tray, last);
        FiledBuckets(p, init, tray, last);
        FiledKept(p, init, tray, last);
        FiledLate(p, init, tray, last);
      } else {
        SkipIsSame(p, init, last, tray);
      }
    }
  }

  // ---------- conservation ----------

  /** No key had 2^32 early lines past its cap, and not so many lines came late. */
  ghost predicate NoCounterWraps(p: Policy, lines: seq<string>) {
    && (forall k :: Excess(|Early(p, lines, k)|, p.capPerKey) < U32)
    && Late(p, lines) < U32
  }

  /** Which counter the line is added to, if any: what it shows before, as a count that does not wrap. */
  function CounterHit(p: Policy, lines: seq<string>, line: string): Option<nat> {
    if KeptOf(p, lines) >= p.totalCap then Some(Late(p, lines))
    else if |Mine(p, lines, Key(p, line))| >= p.capPerKey then Some(Excess(|Early(p, lines, Key(p, line))|, p.capPerKey))
    else None
  }

  lemma {:induction false} NoCounterWrapsOneMore(p: Policy, lines: seq<string>, line: string)
    requires Hits(p, line)
    ensures NoCounterWraps(p, lines + [line]) <==>
            NoCounterWraps(p, lines) && match CounterHit(p, lines, line) case Some(n) => n + 1 < U32 case None => true
    ensures NoCounterWraps(p, lines) && CounterHit(p, lines, line).Some? ==> CounterHit(p, lines, line).value < U32
  {
    var key := Key(p, line);
    LateOneMore(p, lines, line);
    EarlyOneMore(p, lines, line, key);
    forall k ensures k != key ==> Early(p, lines + [line], k) == Early(p, lines, k) {
      EarlyOneMore(p, lines, line, k);
    }
    if NoCounterWraps(p, lines + [line]) {
      forall k ensures Excess(|Early(p, lines, k)|, p.capPerKey) < U32 {
        assert Excess(|Early(p, lines + [line], k)|, p.capPerKey) < U32;
      }
      assert Excess(|Early(p, lines + [line], key)|, p.capPerKey) < U32;
    }
    if NoCounterWraps(p, lines) && CounterHit(p, lines, line).Some? && CounterHit(p, lines, line).value + 1 < U32 {
      forall k ensures Excess(|Early(p, lines + [line], k)|, p.capPerKey) < U32 {
        assert Excess(|Early(p, lines, k)|, p.capPerKey) < U32;
      }
    }
  }

  /** One more matching line adds one to the account, unless its counter stands at the top and wraps to zero. */
  lemma {:induction false} FiledSum(p: Policy, lines: seq<string>, tray: Tray, line: string)
    requires TrayIsExact(p, lines, tray) && Hits(p, line)
    ensures Accounted(Filed(tray, p.capPerKey, p.totalCap, Key(p, line), line)) ==
            Accounted(tray) +
            match CounterHit(p, lines, line) case Some(n) => Bump(Wrap32(n)) - Wrap32(n) case None => 1
  {
    var at := FiledSums(p, tray, Key(p, line), line);
    EarlyOneMore(p, lines, line, Key(p, line));
    OpenedIsExact(p, lines, tray.buckets, Key(p, line), at);
  }

  /** Up to whole wraps all matching lines are accounted for, and exactly iff no counter wrapped. */
  ghost predicate Conserves(p: Policy, lines: seq<string>, tray: Tray) {
    && WrapsApart(Accounted(tray), Matched(p, lines))
    && (Accounted(tray) == Matched(p, lines) <==> NoCounterWraps(p, lines))
  }

  /** A counter that shows `n` modulo 2^32 goes up by one, or down to zero. */
  lemma {:induction false} CounterStep(n: nat)
    ensures var d := Bump(Wrap32(n)) - Wrap32(n);
            (d == 1 || d == 1 - U32) && (n < U32 ==> (d == 1 <==> n + 1 < U32))
  {
  }

  lemma {:induction false} AccountStep(before: nat, after: nat, matched: nat, exact: bool, still: bool)
    requires WrapsApart(before, matched) && (before == matched <==> exact)
    requires after == before + 1 || after + 0x1_0000_0000 == before + 1
    requires still <==> exact && after == before + 1
    ensures WrapsApart(after, matched + 1) && (after == matched + 1 <==> still)
  {
    WrapsApartStep(before, after, matched);
    WrapsApartAtMost(before, matched);
  }

  lemma {:induction false} FiledConserves(p: Policy, lines: seq<string>, tray: Tray, line: string)
    requires TrayIsExact(p, lines, tray) && Conserves(p, lines, tray) && Hits(p, line)
    ensures Conserves(p, lines + [line], Filed(tray, p.capPerKey, p.totalCap, Key(p, line), line))
  {
    var after := Filed(tray, p.capPerKey, p.totalCap, Key(p, line), line);
    FiledSum(p, lines, tray, line);
    NoCounterWrapsOneMore(p, lines, line);
    MatchedOneMore(p, lines, line);
    if CounterHit(p, lines, line).Some? { CounterStep(CounterHit(p, lines, line).value); }
    AccountStep(Accounted(tray), Accounted(after), Matched(p, lines), NoCounterWraps(p, lines), NoCounterWraps(p, lines + [line]));
  }

  lemma {:induction false} NoLines(p: Policy, none: seq<string>, key: string)
    requires none == []
    ensures Early(p, none, key) == [] && Late(p, none) == 0 && Matched(p, none) == 0
  {
    assert UntilFull(p, none) == 0 && none[..0] == none && none[0..] == none;
  }

  lemma {:induction false} NoCounterWrapsAtFirst(p: Policy, none: seq<string>)
    requires none == []
    ensures NoCounterWraps(p, none)
  {
    NoLines(p, none, "");
    forall k ensures Excess(|Early(p, none, k)|, p.capPerKey) < U32 {
      NoLines(p, none, k);
    }
  }

  lemma {:induction false} NoTrayConserves(p: Policy, none: seq<string>, tray: Tray)
    requires none == [] && tray == Tray([], 0, 0)
    ensures Conserves(p, none, tray)
  {
    NoLines(p, none, "");
    NoCounterWrapsAtFirst(p, none);
    WrapsApartZero();
    assert Accounted(tray) == 0;
  }

  lemma {:induction false} TrayConserves(p: Policy, lines: seq<string>)
    ensures Conserves(p, lines, TrayAfter(p, lines))
  {
    if lines == [] {
      NoTrayConserves(p, lines, TrayAfter(p, lines));
    } else {
      var init, last := lines[..|lines| - 1], lines[|lines| - 1];
      TrayConserves(p, init);
      TrayStaysExact(p, init);
      assert lines == init + [last];
      if Hits(p, last) {
        FiledConserves(p, init, TrayAfter(p, init), last);
      } else {
        SkipConserves(p, init, last);
        MatchedOneMore(p, init, last);
      }
    }
  }

  lemma {:induction false} SkipConserves(p: Policy, lines: seq<string>, line: string)
    requires !Hits(p, line)
    ensures NoCounterWraps(p, lines + [line]) <==> NoCounterWraps(p, lines)
  {
    LateOneMore(p, lines, line);
    forall k ensures Early(p, lines + [line], k) == Early(p, lines, k) {
      EarlyOneMore(p, lines, line, k);
    }
  }

  lemma {:induction false} KeptWithinCap(p: Policy, lines: seq<string>)
    ensures KeptOf(p, lines) <= p.totalCap
  {
    OneMoreLine(p, lines, "");
  }

  lemma {:induction false} GroupFromRule(p: Policy, header: string, lines: seq<string>)
    requires p.lib.valid(p.re)
    ensures After(p.lib, Compiled(p.lib, GroupByCapture(p.re, p.group, p.capPerKey, p.totalCap, header)), lines) ==
            CGroupByCapture(p.re, p.group, p.capPerKey, p.totalCap, header, TrayAfter(p, lines))
  {
    GroupAfter(p, header, lines);
  }

  /**
   Over every run: there is one bucket per key, holding the first lines of its key that come until the
   total is full, up to the cap, and its overflow counts the others of those; the global overflow counts
   the matching lines after that. Counters wrap at 2^32: kept lines and both overflows account for every
   matching line up to whole wraps, and exactly iff no counter had to count 2^32 lines.
   */
  lemma {:induction false} GroupLaw(p: Policy, header: string, lines: seq<string>)
    requires p.lib.valid(p.re)
    ensures var after := After(p.lib, Compiled(p.lib, GroupByCapture(p.re, p.group, p.capPerKey, p.totalCap, header)), lines);
            && after.CGroupByCapture?
            && TrayIsExact(p, lines, after.tray)
            && after.tray.totalKept <= p.totalCap
            && Conserves(p, lines, after.tray)
  {
    GroupFromRule(p, header, lines);
    TrayStaysExact(p, lines);
    KeptWithinCap(p, lines);
    TrayConserves(p, lines);
  }
}
