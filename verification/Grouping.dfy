/**
 Compact listings of query results: rows grouped by key in first-appearance order, and the path table
 that lets rows name a repeated path by a number.
 */
module Grouping {
  import Numerals
  import opened Wrappers

  // ---------- first appearances ----------

  /** The distinct values among the first `n`, in the order in which they first appear. */
  function FirstSeen<T(==)>(xs: seq<T>, n: nat): seq<T>
    requires n <= |xs|
  {
    if n == 0 then []
    else
      var earlier := FirstSeen(xs, n - 1);
      if xs[n - 1] in earlier then earlier else earlier + [xs[n - 1]]
  }

  ghost predicate NoRepeats<T>(xs: seq<T>) {
    forall i, j :: 0 <= i < j < |xs| ==> xs[i] != xs[j]
  }

  lemma {:induction false} FirstSeenCovers<T>(xs: seq<T>, n: nat, x: T)
    requires n <= |xs|
    ensures x in FirstSeen(xs, n) <==> x in xs[..n]
  {
    if n > 0 {
      FirstSeenCovers(xs, n - 1, x);
      FirstSeenCovers(xs, n - 1, xs[n - 1]);
      assert xs[..n] == xs[..n - 1] + [xs[n - 1]];
    }
  }

  lemma {:induction false} FirstSeenDiffer<T>(xs: seq<T>, n: nat)
    requires n <= |xs|
    ensures NoRepeats(FirstSeen(xs, n))
  {
    if n > 0 { FirstSeenDiffer(xs, n - 1); }
  }

  /** Value number `k` first appears at some position, before that of any later value. */
  lemma {:induction false} FirstSeenAt<T>(xs: seq<T>, n: nat, k: nat) returns (i: nat)
    requires n <= |xs| && k < |FirstSeen(xs, n)|
    ensures i < n && FirstSeen(xs, n)[k] == xs[i] && FirstSeen(xs, i) == FirstSeen(xs, n)[..k]
    ensures xs[i] !in xs[..i]
  {
    if k < |FirstSeen(xs, n - 1)| {
      i := FirstSeenAt(xs, n - 1, k);
      assert FirstSeen(xs, n)[..k] == FirstSeen(xs, n - 1)[..k];
    } else {
      i := n - 1;
      FirstSeenCovers(xs, i, xs[i]);
    }
  }

  // ---------- the path table ----------

  lemma {:induction false} CountDistinct<T>(xs: seq<T>)
    ensures |set x | x in xs| <= |xs|
    ensures |set x | x in xs| == |xs| <==> NoRepeats(xs)
  {
    if xs != [] {
      var n := |xs| - 1;
      CountDistinct(xs[..n]);
      assert xs == xs[..n] + [xs[n]];
      assert (set x | x in xs) == (set x | x in xs[..n]) + {xs[n]};
      if xs[n] in xs[..n] {
        var i :| 0 <= i < n && xs[..n][i] == xs[n];
        assert xs[i] == xs[n];
        assert (set x | x in xs) == (set x | x in xs[..n]);
      } else {
        assert NoRepeats(xs[..n]) ==> NoRepeats(xs);
      }
    }
  }

  function TableLine(id: nat, path: string): string {
    "  " + Numerals.Decimal(id) + " " + path + "\n"
  }

  /** The header and one line per path, numbered from one. */
  function PathTable(order: seq<string>, n: nat): string
    requires n <= |order|
  {
    if n == 0 then "@P\n" else PathTable(order, n - 1) + TableLine(n, order[n - 1])
  }

  /** Path number `k`, counted from zero, has id `k + 1`, and no other path has an id. */
  ghost predicate Numbers(idOf: map<string, nat>, order: seq<string>) {
    && NoRepeats(order)
    && (forall p :: p in idOf <==> p in order)
    && (forall k :: 0 <= k < |order| ==> order[k] in idOf && idOf[order[k]] == k + 1)
  }

  lemma {:induction false} PathTableGrows(order: seq<string>, p: string, n: nat)
    requires n <= |order|
    ensures PathTable(order + [p], n) == PathTable(order, n)
  {
    if n > 0 { PathTableGrows(order, p, n - 1); }
  }

  /** The table is its header and, for each path in order, a line with the path's number, digits first, and the path. */
  lemma {:induction false} PathStandsInTable(order: seq<string>, n: nat, k: nat)
    requires 1 <= k <= n <= |order|
    ensures PathTable(order, 0) == "@P\n"
    ensures var text, from, to := PathTable(order, n), |PathTable(order, k - 1)|, |PathTable(order, k)|;
            from <= to <= |text| && text[from..to] == "  " + Numerals.Decimal(k) + " " + order[k - 1] + "\n" && (k == n ==> to == |text|)
  {
    var text, from, to := PathTable(order, n), |PathTable(order, k - 1)|, |PathTable(order, k)|;
    if k < n {
      PathStandsInTable(order, n - 1, k);
      assert text[from..to] == PathTable(order, n - 1)[from..to];
    } else {
      assert text[from..to] == TableLine(k, order[k - 1]);
    }
  }

  /** One more row: a path that is new gets the next number and the next line, any other changes nothing. */
  lemma {:induction false} NextPath(paths: seq<string>, i: nat, idOf: map<string, nat>)
    requires i < |paths| && Numbers(idOf, FirstSeen(paths, i))
    ensures var order, next := FirstSeen(paths, i), FirstSeen(paths, i + 1);
            if paths[i] in idOf then next == order
            else
              && next == order + [paths[i]] && Numbers(idOf[paths[i] := |order| + 1], next)
              && PathTable(next, |next|) == PathTable(order, |order|) + TableLine(|order| + 1, paths[i])
  {
    var order := FirstSeen(paths, i);
    if paths[i] !in idOf { PathTableGrows(order, paths[i], |order|); }
  }

  /** `maybe_path_table` */
  method MaybePathTable(paths: seq<string>) returns (r: Option<(string, map<string, nat>)>)
    ensures r.Some? <==> |paths| >= 3 && !NoRepeats(paths)
    ensures r.Some? ==>
              var order := FirstSeen(paths, |paths|);
              r.value.0 == PathTable(order, |order|) && Numbers(r.value.1, order)
  {
    if |paths| < 3 {
      return None;
    }
    var unique := |set p | p in paths|;
    CountDistinct(paths);
    if unique == |paths| {
      return None;
    }
    var idOf: map<string, nat> := map[];
    var next := 1;
    var table := "@P\n";
    for i := 0 to |paths|
      invariant next == |FirstSeen(paths, i)| + 1
      invariant Numbers(idOf, FirstSeen(paths, i))
      invariant table == PathTable(FirstSeen(paths, i), |FirstSeen(paths, i)|)
    {
      NextPath(paths, i, idOf);
      if paths[i] !in idOf {
        idOf := idOf[paths[i] := next];
        table := table + TableLine(next, paths[i]);
        next := next + 1;
      }
    }
    return Some((table, idOf));
  }

  /** What the rows show: the id of each path. */
  function IdsOf(paths: seq<string>, idOf: map<string, nat>): seq<nat>
    requires forall i :: 0 <= i < |paths| ==> paths[i] in idOf
  {
    seq(|paths|, i requires 0 <= i < |paths| => idOf[paths[i]])
  }

  /** Reading the rows again: entry number `id` of the table. */
  function PathsAt(ids: seq<nat>, order: seq<string>): Option<seq<string>> {
    if forall i :: 0 <= i < |ids| ==> 1 <= ids[i] <= |order|
    then Some(seq(|ids|, i requires 0 <= i < |ids| => order[ids[i] - 1]))
    else None
  }

  lemma {:induction false} IdIsPlace(paths: seq<string>, idOf: map<string, nat>, i: nat)
    requires Numbers(idOf, FirstSeen(paths, |paths|)) && i < |paths|
    ensures var order := FirstSeen(paths, |paths|);
            paths[i] in idOf && 1 <= idOf[paths[i]] <= |order| && order[idOf[paths[i]] - 1] == paths[i]
  {
    var order := FirstSeen(paths, |paths|);
    assert paths[..|paths|] == paths;
    FirstSeenCovers(paths, |paths|, paths[i]);
    var k :| 0 <= k < |order| && order[k] == paths[i];
    assert idOf[order[k]] == k + 1;
  }

  /** Replacing ids by the paths of the table restores the rows. */
  lemma {:induction false} PathTableLosesNothing(paths: seq<string>, idOf: map<string, nat>)
    requires Numbers(idOf, FirstSeen(paths, |paths|))
    ensures forall i :: 0 <= i < |paths| ==> paths[i] in idOf
    ensures PathsAt(IdsOf(paths, idOf), FirstSeen(paths, |paths|)) == Some(paths)
  {
    var order := FirstSeen(paths, |paths|);
    forall i | 0 <= i < |paths|
      ensures paths[i] in idOf && 1 <= idOf[paths[i]] <= |order| && order[idOf[paths[i]] - 1] == paths[i]
    {
      IdIsPlace(paths, idOf, i);
    }
    var ids := IdsOf(paths, idOf);
    assert seq(|ids|, i requires 0 <= i < |ids| => order[ids[i] - 1]) == paths;
  }

  // ---------- callers, grouped ----------

  function KeysOf<K>(rows: seq<(K, int)>): (r: seq<K>)
    ensures |r| == |rows|
  {
    seq(|rows|, i requires 0 <= i < |rows| => rows[i].0)
  }

  /** The lines of the first `n` rows that have a given key, in row order. */
  function LinesFor<K(==)>(rows: seq<(K, int)>, n: nat, key: K): seq<int>
    requires n <= |rows|
  {
    if n == 0 then []
    else if rows[n - 1].0 == key then LinesFor(rows, n - 1, key) + [rows[n - 1].1]
    else LinesFor(rows, n - 1, key)
  }

  /** One entry per key, in first-appearance order, holding the lines of its rows. */
  ghost predicate Grouped<K(!new)>(rows: seq<(K, int)>, n: nat, order: seq<K>, linesOf: map<K, seq<int>>)
    requires n <= |rows|
  {
    && order == FirstSeen(KeysOf(rows), n)
    && (forall k :: k in linesOf <==> k in order)
    && (forall k :: k in linesOf ==> linesOf[k] == LinesFor(rows, n, k))
  }

  lemma {:induction false} NoLinesYet<K>(rows: seq<(K, int)>, n: nat, key: K)
    requires n <= |rows| && key !in FirstSeen(KeysOf(rows), n)
    ensures LinesFor(rows, n, key) == []
  {
    if n > 0 { NoLinesYet(rows, n - 1, key); }
  }

  /** The grouping loop of `try_callers_of`: one entry per caller, with all its call sites. */
  method GroupCallers<K(==, !new)>(rows: seq<(K, int)>) returns (order: seq<K>, linesOf: map<K, seq<int>>)
    ensures Grouped(rows, |rows|, order, linesOf)
  {
    order, linesOf := [], map[];
    for i := 0 to |rows|
      invariant Grouped(rows, i, order, linesOf)
    {
      var (key, line) := rows[i];
      if key !in linesOf {
        NoLinesYet(rows, i, key);
        order := order + [key];
        linesOf := linesOf[key := []];
      }
      linesOf := linesOf[key := linesOf[key] + [line]];
    }
  }

  /** How many lines a list of keys has among the first `n` rows. */
  function LinesAmong<K(==)>(rows: seq<(K, int)>, n: nat, keys: seq<K>): nat
    requires n <= |rows|
  {
    if keys == [] then 0 else |LinesFor(rows, n, keys[0])| + LinesAmong(rows, n, keys[1..])
  }

  lemma {:induction false} OneMoreLine<K>(rows: seq<(K, int)>, n: nat, keys: seq<K>)
    requires n < |rows| && NoRepeats(keys)
    ensures LinesAmong(rows, n + 1, keys) == LinesAmong(rows, n, keys) + if rows[n].0 in keys then 1 else 0
  {
    if keys != [] {
      assert NoRepeats(keys[1..]);
      OneMoreLine(rows, n, keys[1..]);
      assert rows[n].0 in keys <==> rows[n].0 == keys[0] || rows[n].0 in keys[1..];
      assert rows[n].0 == keys[0] ==> rows[n].0 !in keys[1..];
    }
  }

  lemma {:induction false} NoLines<K>(rows: seq<(K, int)>, keys: seq<K>)
    ensures LinesAmong(rows, 0, keys) == 0
  {
    if keys != [] { NoLines(rows, keys[1..]); }
  }

  lemma {:induction false} AllLines<K>(rows: seq<(K, int)>, n: nat, keys: seq<K>)
    requires n <= |rows| && NoRepeats(keys) && forall i :: 0 <= i < n ==> rows[i].0 in keys
    ensures LinesAmong(rows, n, keys) == n
  {
    if n == 0 {
      NoLines(rows, keys);
    } else {
      AllLines(rows, n - 1, keys);
      OneMoreLine(rows, n - 1, keys);
    }
  }

  /** A row's line stands in its group right behind those of the earlier rows with its key. */
  lemma {:induction false} LineStands<K>(rows: seq<(K, int)>, n: nat, i: nat)
    requires i < n <= |rows|
    ensures var place, all := |LinesFor(rows, i, rows[i].0)|, LinesFor(rows, n, rows[i].0);
            place < |all| && all[place] == rows[i].1
  {
    if i < n - 1 { LineStands(rows, n - 1, i); }
  }

  /** Grouping drops and invents no call site: the groups hold as many lines as there are rows, each in its place. */
  lemma {:induction false} GroupingConserves<K(!new)>(rows: seq<(K, int)>, order: seq<K>, linesOf: map<K, seq<int>>)
    requires Grouped(rows, |rows|, order, linesOf)
    ensures NoRepeats(order) && LinesAmong(rows, |rows|, order) == |rows|
    ensures forall i :: 0 <= i < |rows| ==> HasItsLine(rows, linesOf, i)
  {
    var keys := KeysOf(rows);
    FirstSeenDiffer(keys, |rows|);
    forall i | 0 <= i < |rows| ensures rows[i].0 in order && HasItsLine(rows, linesOf, i) {
      assert keys[..|rows|] == keys && keys[i] in keys;
      FirstSeenCovers(keys, |rows|, keys[i]);
      LineStands(rows, |rows|, i);
    }
    AllLines(rows, |rows|, order);
  }

  ghost predicate HasItsLine<K>(rows: seq<(K, int)>, linesOf: map<K, seq<int>>, i: nat)
    requires i < |rows|
  {
    && rows[i].0 in linesOf
    && var place := |LinesFor(rows, i, rows[i].0)|;
       place < |linesOf[rows[i].0]| && linesOf[rows[i].0][place] == rows[i].1
  }

  // ---------- callees, grouped by caller ----------

  /** A symbol and one of its calls, or none if it makes none. */
  datatype CalleeRow<K> = CalleeRow(kind: string, key: K, call: Option<(string, int)>)

  datatype Group = Group(kind: string, callees: seq<string>, lines: map<string, seq<int>>)

  function CallerKeys<K>(rows: seq<CalleeRow<K>>): (r: seq<K>)
    ensures |r| == |rows|
  {
    seq(|rows|, i requires 0 <= i < |rows| => rows[i].key)
  }

  /** The calls of one caller among the first `n` rows, in row order. */
  function CallsFor<K(==)>(rows: seq<CalleeRow<K>>, n: nat, key: K): seq<(string, int)>
    requires n <= |rows|
  {
    if n == 0 then []
    else if rows[n - 1].key == key && rows[n - 1].call.Some? then CallsFor(rows, n - 1, key) + [rows[n - 1].call.value]
    else CallsFor(rows, n - 1, key)
  }

  /** The kind of a caller is that of its first row. */
  function KindOf<K(==)>(rows: seq<CalleeRow<K>>, n: nat, key: K): Option<string>
    requires n <= |rows|
  {
    if n == 0 then None
    else if KindOf(rows, n - 1, key).Some? then KindOf(rows, n - 1, key)
    else if rows[n - 1].key == key then Some(rows[n - 1].kind)
    else None
  }

  ghost predicate GroupHolds<K>(rows: seq<CalleeRow<K>>, n: nat, key: K, group: Group)
    requires n <= |rows|
  {
    && KindOf(rows, n, key) == Some(group.kind)
    && Grouped(CallsFor(rows, n, key), |CallsFor(rows, n, key)|, group.callees, group.lines)
  }

  /** One group per caller in first-appearance order; within it, one entry per callee, likewise. */
  ghost predicate GroupedTwice<K(!new)>(rows: seq<CalleeRow<K>>, n: nat, groups: seq<K>, data: map<K, Group>)
    requires n <= |rows|
  {
    && groups == FirstSeen(CallerKeys(rows), n)
    && (forall k :: k in data <==> k in groups)
    && (forall k :: k in data ==> GroupHolds(rows, n, k, data[k]))
  }

  lemma {:induction false} NotYetSeen<K>(rows: seq<CalleeRow<K>>, n: nat, key: K)
    requires n <= |rows| && key !in FirstSeen(CallerKeys(rows), n)
    ensures CallsFor(rows, n, key) == [] && KindOf(rows, n, key) == None
  {
    if n > 0 { NotYetSeen(rows, n - 1, key); }
  }

  lemma {:induction false} FirstSeenPrefix<T>(xs: seq<T>, ys: seq<T>, n: nat)
    requires n <= |xs| <= |ys| && ys[..|xs|] == xs
    ensures FirstSeen(ys, n) == FirstSeen(xs, n)
  {
    if n > 0 {
      FirstSeenPrefix(xs, ys, n - 1);
      assert ys[n - 1] == ys[..|xs|][n - 1];
    }
  }

  lemma {:induction false} LinesForPrefix<K>(rows: seq<(K, int)>, last: (K, int), n: nat, key: K)
    requires n <= |rows|
    ensures LinesFor(rows + [last], n, key) == LinesFor(rows, n, key)
  {
    if n > 0 { LinesForPrefix(rows, last, n - 1, key); }
  }

  /** One more call: a new entry if the callee is new, and the line added to its entry. */
  lemma {:induction false} OneMoreCall(calls: seq<(string, int)>, call: (string, int), callees: seq<string>, lines: map<string, seq<int>>)
    requires Grouped(calls, |calls|, callees, lines)
    ensures Grouped(calls + [call], |calls| + 1, if call.0 in lines then callees else callees + [call.0],
                    lines[call.0 := (if call.0 in lines then lines[call.0] else []) + [call.1]])
  {
    var more := calls + [call];
    assert KeysOf(more)[..|calls|] == KeysOf(calls);
    FirstSeenPrefix(KeysOf(calls), KeysOf(more), |calls|);
    forall k ensures LinesFor(more, |calls|, k) == LinesFor(calls, |calls|, k) { LinesForPrefix(calls, call, |calls|, k); }
    if call.0 !in lines { NoLinesYet(calls, |calls|, call.0); }
  }

  method AddCall(group: Group, call: (string, int), ghost calls: seq<(string, int)>) returns (r: Group)
    requires Grouped(calls, |calls|, group.callees, group.lines)
    ensures r.kind == group.kind && Grouped(calls + [call], |calls| + 1, r.callees, r.lines)
  {
    var (callee, line) := call;
    var callees, lines := group.callees, group.lines;
    if callee !in lines {
      callees := callees + [callee];
    }
    lines := lines[callee := (if callee in lines then lines[callee] else []) + [line]];
    OneMoreCall(calls, call, group.callees, group.lines);
    return Group(group.kind, callees, lines);
  }

  lemma {:induction false} OtherGroup<K>(rows: seq<CalleeRow<K>>, n: nat, key: K, group: Group)
    requires n < |rows| && GroupHolds(rows, n, key, group) && (rows[n].key != key || rows[n].call.None?)
    ensures GroupHolds(rows, n + 1, key, group)
  {
  }

  /** The group of a row's caller once that row is in it. */
  method NextGroup<K(==, !new)>(rows: seq<CalleeRow<K>>, i: nat, group: Option<Group>) returns (r: Group)
    requires i < |rows|
    requires group.Some? ==> GroupHolds(rows, i, rows[i].key, group.value)
    requires group.None? ==> rows[i].key !in FirstSeen(CallerKeys(rows), i)
    ensures GroupHolds(rows, i + 1, rows[i].key, r)
  {
    if group.None? {
      NotYetSeen(rows, i, rows[i].key);
      r := Group(rows[i].kind, [], map[]);
    } else {
      r := group.value;
    }
    if rows[i].call.Some? {
      r := AddCall(r, rows[i].call.value, CallsFor(rows, i, rows[i].key));
    }
  }

  lemma {:induction false} NextGroups<K(!new)>(rows: seq<CalleeRow<K>>, i: nat, groups: seq<K>, data: map<K, Group>, entry: Group)
    requires i < |rows| && GroupedTwice(rows, i, groups, data) && GroupHolds(rows, i + 1, rows[i].key, entry)
    ensures var key := rows[i].key;
            GroupedTwice(rows, i + 1, if key in data then groups else groups + [key], data[key := entry])
  {
    forall k | k in data && k != rows[i].key ensures GroupHolds(rows, i + 1, k, data[k]) { OtherGroup(rows, i, k, data[k]); }
  }

  predicate AnyCall<K>(rows: seq<CalleeRow<K>>, n: nat)
    requires n <= |rows|
  {
    n > 0 && (rows[n - 1].call.Some? || AnyCall(rows, n - 1))
  }

  /** The grouping loop of `try_callees_of`. */
  method GroupCallees<K(==, !new)>(rows: seq<CalleeRow<K>>) returns (groups: seq<K>, data: map<K, Group>, anyCall: bool)
    ensures GroupedTwice(rows, |rows|, groups, data)
    ensures anyCall <==> AnyCall(rows, |rows|)
  {
    groups, data, anyCall := [], map[], false;
    for i := 0 to |rows|
      invariant GroupedTwice(rows, i, groups, data)
      invariant anyCall <==> AnyCall(rows, i)
    {
      var key := rows[i].key;
      var entry := NextGroup(rows, i, if key in data then Some(data[key]) else None);
      NextGroups(rows, i, groups, data, entry);
      if key !in data {
        groups := groups + [key];
      }
      anyCall := anyCall || rows[i].call.Some?;
      data := data[key := entry];
    }
  }
}
