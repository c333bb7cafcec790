/** What can happen to a queued receipt: whatever drains are in flight, it can still be drained. */
module Draining {
  import opened Receipts

  /** Some continuation of the run ends with the row in a committed drain. */
  ghost predicate CanBeDrained(parses: Receipt -> bool, steps: seq<Step>, id: int) {
    exists more :: Drains(parses, steps, more, id)
  }

  ghost predicate Drains(parses: Receipt -> bool, steps: seq<Step>, more: seq<Step>, id: int) {
    IsRun(parses, steps + more) && DrainedBy(After(parses, steps + more), id)
  }

  lemma {:induction false} StepOn(parses: Receipt -> bool, steps: seq<Step>, step: Step)
    requires IsRun(parses, steps) && Enabled(After(parses, steps), step)
    ensures IsRun(parses, steps + [step]) && After(parses, steps + [step]) == Next(parses, After(parses, steps), step)
  {
    assert (steps + [step])[..|steps|] == steps;
  }

  lemma {:induction false} StepFirst(parses: Receipt -> bool, steps: seq<Step>, step: Step, id: int)
    requires CanBeDrained(parses, steps + [step], id)
    ensures CanBeDrained(parses, steps, id)
  {
    var more :| Drains(parses, steps + [step], more, id);
    assert (steps + [step]) + more == steps + ([step] + more);
    assert Drains(parses, steps, [step] + more, id);
  }

  /** A drain that claimed the row can delete and commit. */
  lemma {:induction false} ClaimedCanBeDrained(parses: Receipt -> bool, steps: seq<Step>, d: nat, id: int)
    requires IsRun(parses, steps) && d in After(parses, steps).txns && id in After(parses, steps).txns[d].ids
    ensures CanBeDrained(parses, steps, id)
    decreases !After(parses, steps).txns[d].deleted
  {
    var s := After(parses, steps);
    if s.txns[d].deleted {
      var t := Next(parses, s, Commit(d));
      StepOn(parses, steps, Commit(d));
      assert t.log[|s.log|].ids == s.txns[d].ids;
      assert Drains(parses, steps, [Commit(d)], id);
    } else {
      StepOn(parses, steps, Delete(d));
      ClaimedCanBeDrained(parses, steps + [Delete(d)], d, id);
      StepFirst(parses, steps, Delete(d), id);
    }
  }

  // ---------- the oldest of some rows ----------

  lemma {:induction false} Smallest(ids: set<int>, x: int) returns (m: int)
    requires x in ids
    ensures m in ids && forall y :: y in ids ==> m <= y
  {
    var rest := ids - {x};
    assert forall y :: y in ids ==> y == x || y in rest;
    m := x;
    if y :| y in rest {
      var other := Smallest(rest, y);
      if other < x { m := other; }
    }
  }

  /** `first` are, in ascending order, the `n` smallest of `ids`, or all of them if there are fewer. */
  ghost predicate AreSmallest(first: seq<int>, ids: set<int>, n: nat) {
    && |first| <= n
    && (forall i, j :: 0 <= i < j < |first| ==> first[i] < first[j])
    && (forall i :: 0 <= i < |first| ==> first[i] in ids)
    && (forall x :: x in ids && x !in first ==> |first| == n && forall i :: 0 <= i < |first| ==> first[i] < x)
  }

  lemma {:induction false} SmallestOnes(ids: set<int>, n: nat) returns (first: seq<int>)
    ensures AreSmallest(first, ids, n)
  {
    first := [];
    if x :| n > 0 && x in ids {
      var m := Smallest(ids, x);
      var rest := SmallestOnes(ids - {m}, n - 1);
      first := [m] + rest;
      SmallestMore(ids, n, m, rest);
    }
  }

  lemma {:induction false} SmallestMore(ids: set<int>, n: nat, m: int, rest: seq<int>)
    requires n > 0 && m in ids && (forall x :: x in ids ==> m <= x) && AreSmallest(rest, ids - {m}, n - 1)
    ensures AreSmallest([m] + rest, ids, n)
  {
    var first := [m] + rest;
    forall x | x in ids && x !in first ensures |first| == n && forall i :: 0 <= i < |first| ==> first[i] < x {
      assert x != m by { assert first[0] == m; }
      assert forall k :: 0 <= k < |rest| ==> first[k + 1] == rest[k];
      assert x !in rest;
    }
  }

  lemma {:induction false} UnusedDrain(s: State) returns (d: nat)
    ensures d !in s.txns
  {
    d := Above(s.txns.Keys);
  }

  lemma {:induction false} Above(ids: set<nat>) returns (d: nat)
    ensures forall x :: x in ids ==> x < d
  {
    d := 0;
    if ids != {} {
      var x :| x in ids;
      var rest := ids - {x};
      assert forall y :: y in ids ==> y == x || y in rest;
      d := Above(rest);
      if d <= x { d := x + 1; }
    }
  }

  ghost function Unlocked(s: State): set<int> {
    set id | id in s.rows && !Locked(s, id)
  }

  /** A new drain can always claim. */
  lemma {:induction false} ClaimIsPossible(s: State) returns (d: nat, ids: seq<int>)
    ensures Enabled(s, Claim(d, ids))
  {
    d := UnusedDrain(s);
    ids := SmallestOnes(Unlocked(s), BATCH_SIZE);
  }

  /** What is left when a new drain has claimed, deleted and committed without anyone in between. */
  lemma {:induction false} DrainOnce(parses: Receipt -> bool, s: State, d: nat, ids: seq<int>)
    requires Enabled(s, Claim(d, ids)) && ids != []
    ensures var claimed := Next(parses, s, Claim(d, ids));
            var deleted := Next(parses, claimed, Delete(d));
            var t := Next(parses, deleted, Commit(d));
            && Enabled(claimed, Delete(d)) && Enabled(deleted, Commit(d))
            && t.txns == s.txns && t.rows == s.rows - (set id | id in ids) && |t.rows| < |s.rows|
  {
    var taken := set id | id in ids;
    assert ids[0] in taken && ids[0] in s.rows;
    assert s.txns[d := Txn(ids, false)][d := Txn(ids, true)] - {d} == s.txns;
    FewerRows(s.rows, s.rows - taken, ids[0]);
  }

  lemma {:induction false} FewerRows(rows: map<int, Receipt>, less: map<int, Receipt>, id: int)
    requires less.Keys <= rows.Keys && id in rows && id !in less
    ensures |less| < |rows|
  {
    assert |less| == |less.Keys| && |rows| == |rows.Keys|;
    assert rows.Keys == less.Keys + (rows.Keys - less.Keys);
    assert id in rows.Keys - less.Keys;
  }

  /** A row that nobody holds is reached by one drain after the other. */
  lemma {:induction false} UnlockedCanBeDrained(parses: Receipt -> bool, steps: seq<Step>, id: int)
    requires IsRun(parses, steps) && id in After(parses, steps).rows && !Locked(After(parses, steps), id)
    ensures CanBeDrained(parses, steps, id)
    decreases |After(parses, steps).rows|
  {
    var s := After(parses, steps);
    var d, ids := ClaimIsPossible(s);
    var claim := steps + [Claim(d, ids)];
    StepOn(parses, steps, Claim(d, ids));
    if id in ids {
      ClaimedCanBeDrained(parses, claim, d, id);
    } else {
      DrainOnce(parses, s, d, ids);
      StepOn(parses, claim, Delete(d));
      StepOn(parses, claim + [Delete(d)], Commit(d));
      UnlockedCanBeDrained(parses, (claim + [Delete(d)]) + [Commit(d)], id);
      StepFirst(parses, claim + [Delete(d)], Commit(d), id);
      StepFirst(parses, claim, Delete(d), id);
    }
    StepFirst(parses, steps, Claim(d, ids), id);
  }

  /** In every run, every queued receipt can still be drained, whoever holds it now. */
  lemma {:induction false} EveryReceiptCanBeDrained(parses: Receipt -> bool, steps: seq<Step>, id: int)
    requires IsRun(parses, steps) && id in After(parses, steps).rows
    ensures CanBeDrained(parses, steps, id)
  {
    var s := After(parses, steps);
    if Locked(s, id) {
      var d :| d in s.txns && id in s.txns[d].ids;
      ClaimedCanBeDrained(parses, steps, d, id);
    } else {
      UnlockedCanBeDrained(parses, steps, id);
    }
  }
}
