/**
 The audit queue of signed receipts: the bounded in-memory queue, and the Postgres queue that
 concurrent drainers claim from with row locks, delete and commit or roll back.
 */
module Receipts {
  import opened Seqs

  type Receipt = string

  // ---------- in memory ----------

  const QUEUE_CAP: nat := 10_000

  /** The last `n` elements, or all of them when there are fewer. */
  function Last<T>(s: seq<T>, n: nat): seq<T> {
    if |s| <= n then s else s[|s| - n..]
  }

  class ReceiptQueue {
    var queue: seq<Receipt>
    var dropped: nat

    constructor ()
      ensures queue == [] && dropped == 0
    {
      queue, dropped := [], 0;
    }

    /** `push_receipt`: append, then drop the oldest while over the cap. */
    method Push(r: Receipt)
      requires |queue| <= QUEUE_CAP
      modifies this
      ensures queue == Last(old(queue) + [r], QUEUE_CAP)
      ensures dropped + |queue| == old(dropped) + |old(queue)| + 1
    {
      queue := queue + [r];
      ghost var all := queue;
      while |queue| > QUEUE_CAP
        invariant |queue| <= |all| && queue == all[|all| - |queue|..]
        invariant |queue| >= QUEUE_CAP || queue == all
        invariant dropped + |queue| == old(dropped) + |all|
      {
        queue, dropped := queue[1..], dropped + 1;
      }
    }

    /** The drain handler without Postgres: take everything. */
    method Drain() returns (drained: seq<Receipt>)
      modifies this
      ensures drained == old(queue) && queue == [] && dropped == old(dropped)
    {
      drained, queue := queue, [];
    }
  }

  datatype QueueOp = PushOp(r: Receipt) | DrainOp

  datatype QueueState = QueueState(queue: seq<Receipt>, drained: seq<Receipt>, dropped: nat)

  /** `Push` and `Drain` as steps, with all drains so far put end to end. */
  function QueueStep(s: QueueState, op: QueueOp): QueueState {
    match op
    case PushOp(r) =>
      var queue := Last(s.queue + [r], QUEUE_CAP);
      QueueState(queue, s.drained, s.dropped + |s.queue| + 1 - |queue|)
    case DrainOp => QueueState([], s.drained + s.queue, s.dropped)
  }

  function QueueRun(ops: seq<QueueOp>): QueueState {
    if ops == [] then QueueState([], [], 0) else QueueStep(QueueRun(ops[..|ops| - 1]), ops[|ops| - 1])
  }

  function Pushed(ops: seq<QueueOp>): nat {
    if ops == [] then 0 else Pushed(ops[..|ops| - 1]) + if ops[|ops| - 1].PushOp? then 1 else 0
  }

  /** The receipts pushed since the last drain. */
  function SinceDrain(ops: seq<QueueOp>): seq<Receipt> {
    if ops == [] then []
    else match ops[|ops| - 1]
         case PushOp(r) => SinceDrain(ops[..|ops| - 1]) + [r]
         case DrainOp => []
  }

  lemma {:induction false} LastOfLast<T>(s: seq<T>, x: T, n: nat)
    requires n > 0
    ensures Last(Last(s, n) + [x], n) == Last(s + [x], n)
  {
  }

  /** Over every run: pushed = queued + drained + dropped, and the queue is the newest pushes since the last drain. */
  lemma {:induction false} QueueConserves(ops: seq<QueueOp>)
    ensures var s := QueueRun(ops);
            && Pushed(ops) == |s.queue| + |s.drained| + s.dropped
            && s.queue == Last(SinceDrain(ops), QUEUE_CAP)
  {
    if ops != [] {
      var init, last := ops[..|ops| - 1], ops[|ops| - 1];
      QueueConserves(init);
      if last.PushOp? { LastOfLast(SinceDrain(init), last.r, QUEUE_CAP); }
    }
  }

  // ---------- Postgres ----------

  const BATCH_SIZE: nat := 32

  /** A drain transaction in flight: the rows it has locked, and whether it ran its DELETE yet. */
  datatype Txn = Txn(ids: seq<int>, deleted: bool)

  /** A committed drain: the ids it removed and the receipts it answered with. */
  datatype Drained = Drained(ids: seq<int>, returned: seq<Receipt>)

  /** `inserted` remembers every row ever committed to the queue; nothing reads it. */
  datatype State = State(rows: map<int, Receipt>, txns: map<nat, Txn>, log: seq<Drained>, inserted: map<int, Receipt>)

  datatype Step =
    | Insert(id: int, r: Receipt)
    | Claim(d: nat, ids: seq<int>)
    | Delete(d: nat)
    | Commit(d: nat)
    | Rollback(d: nat)

  ghost predicate Locked(s: State, id: int) {
    exists d :: d in s.txns && id in s.txns[d].ids
  }

  /** `ORDER BY id ASC LIMIT 32 FOR UPDATE SKIP LOCKED`: the oldest rows that nobody holds. */
  ghost predicate OldestUnlocked(s: State, ids: seq<int>) {
    && |ids| <= BATCH_SIZE
    && (forall i, j :: 0 <= i < j < |ids| ==> ids[i] < ids[j])
    && (forall i :: 0 <= i < |ids| ==> ids[i] in s.rows && !Locked(s, ids[i]))
    && (forall id :: id in s.rows && !Locked(s, id) && id !in ids ==>
                       |ids| == BATCH_SIZE && forall i :: 0 <= i < |ids| ==> ids[i] < id)
  }

  ghost predicate Enabled(s: State, step: Step) {
    match step
    case Insert(id, _) => id !in s.inserted
    case Claim(d, ids) => d !in s.txns && OldestUnlocked(s, ids)
    case Delete(d) => d in s.txns && s.txns[d].ids != [] && !s.txns[d].deleted
    case Commit(d) => d in s.txns && (s.txns[d].ids == [] || s.txns[d].deleted)
    case Rollback(d) => d in s.txns
  }

  /** The rows among the first `n` claimed whose JSON still parses as a receipt. */
  function Readable(parses: Receipt -> bool, rows: map<int, Receipt>, ids: seq<int>, n: nat): seq<Receipt>
    requires n <= |ids|
  {
    if n == 0 then []
    else
      var earlier := Readable(parses, rows, ids, n - 1);
      if ids[n - 1] in rows && parses(rows[ids[n - 1]]) then earlier + [rows[ids[n - 1]]] else earlier
  }

  function Next(parses: Receipt -> bool, s: State, step: Step): State {
    match step
    case Insert(id, r) => s.(rows := s.rows[id := r], inserted := s.inserted[id := r])
    case Claim(d, ids) => s.(txns := s.txns[d := Txn(ids, false)])
    case Delete(d) => if d in s.txns then s.(txns := s.txns[d := Txn(s.txns[d].ids, true)]) else s
    case Commit(d) =>
      if d !in s.txns then s
      else
        var ids := s.txns[d].ids;
        State(s.rows - (set id | id in ids), s.txns - {d}, s.log + [Drained(ids, Readable(parses, s.rows, ids, |ids|))], s.inserted)
    case Rollback(d) => s.(txns := s.txns - {d})
  }

  const Empty: State := State(map[], map[], [], map[])

  /** Every interleaving: steps of any drainers and inserters, each enabled where it is taken. */
  ghost predicate IsRun(parses: Receipt -> bool, steps: seq<Step>) {
    steps == [] ||
    (IsRun(parses, steps[..|steps| - 1]) && Enabled(After(parses, steps[..|steps| - 1]), steps[|steps| - 1]))
  }

  function After(parses: Receipt -> bool, steps: seq<Step>): State {
    if steps == [] then Empty else Next(parses, After(parses, steps[..|steps| - 1]), steps[|steps| - 1])
  }

  // ---------- what every step keeps ----------

  ghost predicate Distinct(ids: seq<int>) {
    forall i, j :: 0 <= i < j < |ids| ==> ids[i] != ids[j]
  }

  /** Locked rows are in the table, and no row is locked twice. */
  ghost predicate LocksHold(s: State) {
    && (forall d :: d in s.txns ==> Distinct(s.txns[d].ids))
    && (forall d, id :: d in s.txns && id in s.txns[d].ids ==> id in s.rows)
    && (forall d, e, id :: d in s.txns && e in s.txns && id in s.txns[d].ids && id in s.txns[e].ids ==> d == e)
  }

  /** Rows still queued and rows drained are disjoint and make up everything ever inserted. */
  ghost predicate Accounted(s: State) {
    RowsWereInserted(s) && DrainsApart(s) && NothingMissing(s)
  }

  ghost predicate RowsWereInserted(s: State) {
    forall id :: id in s.rows ==> id in s.inserted && s.rows[id] == s.inserted[id]
  }

  ghost predicate DrainsApart(s: State) {
    && (forall i, id :: 0 <= i < |s.log| && id in s.log[i].ids ==> id in s.inserted && id !in s.rows)
    && (forall i, j, id :: 0 <= i < j < |s.log| && id in s.log[i].ids ==> id !in s.log[j].ids)
    && (forall i :: 0 <= i < |s.log| ==> Distinct(s.log[i].ids))
  }

  ghost predicate NothingMissing(s: State) {
    forall id :: id in s.inserted && id !in s.rows ==> DrainedBy(s, id)
  }

  ghost predicate DrainedBy(s: State, id: int) {
    exists i :: 0 <= i < |s.log| && id in s.log[i].ids
  }

  /** A drain answers with exactly the readable receipts among the rows it removed, in claim order. */
  ghost predicate AnswersAreExact(parses: Receipt -> bool, s: State) {
    forall i :: 0 <= i < |s.log| ==> s.log[i].returned == Readable(parses, s.inserted, s.log[i].ids, |s.log[i].ids|)
  }

  lemma {:induction false} LocksKept(parses: Receipt -> bool, s: State, step: Step)
    requires LocksHold(s) && Enabled(s, step)
    ensures LocksHold(Next(parses, s, step))
  {
    var t := Next(parses, s, step);
    match step {
      case Claim(d, ids) =>
        assert Distinct(ids);
        forall e, id | e in s.txns && id in s.txns[e].ids ensures id !in ids {
          assert Locked(s, id);
        }
      case _ =>
    }
  }

  lemma {:induction false} CommitKeepsApart(parses: Receipt -> bool, s: State, d: nat)
    requires LocksHold(s) && Accounted(s) && Enabled(s, Commit(d))
    ensures DrainsApart(Next(parses, s, Commit(d)))
  {
    var t, ids := Next(parses, s, Commit(d)), s.txns[d].ids;
    assert t.log[..|s.log|] == s.log && t.log[|s.log|].ids == ids;
    forall i, id | 0 <= i < |t.log| && id in t.log[i].ids ensures id in t.inserted && id !in t.rows {
      if i < |s.log| { assert t.log[i] == s.log[i]; }
    }
    forall i, j, id | 0 <= i < j < |t.log| && id in t.log[i].ids ensures id !in t.log[j].ids {
      assert t.log[i] == s.log[i];
      assert id !in s.rows;
      if j < |s.log| { assert t.log[j] == s.log[j]; } else { assert t.log[j].ids == s.txns[d].ids; }
    }
  }

  lemma {:induction false} CommitMissesNothing(parses: Receipt -> bool, s: State, d: nat)
    requires NothingMissing(s) && Enabled(s, Commit(d))
    ensures NothingMissing(Next(parses, s, Commit(d)))
  {
    var t, ids := Next(parses, s, Commit(d)), s.txns[d].ids;
    assert t.log[|s.log|].ids == ids;
    forall id | id in t.inserted && id !in t.rows ensures DrainedBy(t, id) {
      if id in ids {
        assert id in t.log[|s.log|].ids;
      } else {
        assert DrainedBy(s, id);
        var i :| 0 <= i < |s.log| && id in s.log[i].ids;
        assert id in t.log[i].ids;
      }
    }
  }

  lemma {:induction false} InsertAccounted(parses: Receipt -> bool, s: State, id: int, r: Receipt)
    requires Accounted(s) && Enabled(s, Insert(id, r))
    ensures Accounted(Next(parses, s, Insert(id, r)))
  {
    var t := Next(parses, s, Insert(id, r));
    forall x | x in t.inserted && x !in t.rows ensures DrainedBy(t, x) {
      assert DrainedBy(s, x);
    }
  }

  lemma {:induction false} AccountKept(parses: Receipt -> bool, s: State, step: Step)
    requires LocksHold(s) && Accounted(s) && Enabled(s, step)
    ensures Accounted(Next(parses, s, step))
  {
    match step {
      case Commit(d) =>
        CommitKeepsApart(parses, s, d);
        CommitMissesNothing(parses, s, d);
      case Insert(id, r) => InsertAccounted(parses, s, id, r);
      case _ =>
        var t := Next(parses, s, step);
        assert t.rows == s.rows && t.log == s.log && t.inserted == s.inserted;
        forall id | id in t.inserted && id !in t.rows ensures DrainedBy(t, id) {
          assert DrainedBy(s, id);
        }
    }
  }

  lemma {:induction false} ReadableSame(parses: Receipt -> bool, a: map<int, Receipt>, b: map<int, Receipt>, ids: seq<int>, n: nat)
    requires n <= |ids| && forall i :: 0 <= i < |ids| ==> ids[i] in a && ids[i] in b && a[ids[i]] == b[ids[i]]
    ensures Readable(parses, a, ids, n) == Readable(parses, b, ids, n)
  {
    if n > 0 { ReadableSame(parses, a, b, ids, n - 1); }
  }

  lemma {:induction false} AnswersKept(parses: Receipt -> bool, s: State, step: Step)
    requires LocksHold(s) && Accounted(s) && AnswersAreExact(parses, s) && Enabled(s, step)
    ensures AnswersAreExact(parses, Next(parses, s, step))
  {
    var t := Next(parses, s, step);
    forall i | 0 <= i < |t.log| ensures t.log[i].returned == Readable(parses, t.inserted, t.log[i].ids, |t.log[i].ids|) {
      if i < |s.log| {
        assert t.log[i] == s.log[i];
        ReadableSame(parses, s.inserted, t.inserted, s.log[i].ids, |s.log[i].ids|);
      } else {
        ReadableSame(parses, s.rows, s.inserted, t.log[i].ids, |t.log[i].ids|);
      }
    }
  }

  lemma {:induction false} RunsKeep(parses: Receipt -> bool, steps: seq<Step>)
    requires IsRun(parses, steps)
    ensures var s := After(parses, steps); LocksHold(s) && Accounted(s) && AnswersAreExact(parses, s)
  {
    if steps != [] {
      var init, last := steps[..|steps| - 1], steps[|steps| - 1];
      RunsKeep(parses, init);
      LocksKept(parses, After(parses, init), last);
      AccountKept(parses, After(parses, init), last);
      AnswersKept(parses, After(parses, init), last);
    }
  }

  // ---------- what a drain answers ----------

  /** The row at position `p` was inserted and parses. */
  predicate Reads(parses: Receipt -> bool, inserted: map<int, Receipt>, ids: seq<int>, p: nat) {
    p < |ids| && ids[p] in inserted && parses(inserted[ids[p]])
  }

  function Read(parses: Receipt -> bool, inserted: map<int, Receipt>, ids: seq<int>): nat -> bool {
    (p: nat) => Reads(parses, inserted, ids, p)
  }

  /** `places` are, in order, the positions in `ids` whose inserted row parses, and `returned` lists those rows. */
  ghost predicate Answers(parses: Receipt -> bool, inserted: map<int, Receipt>, ids: seq<int>, returned: seq<Receipt>, places: seq<nat>) {
    && Picks(places, |ids|, Read(parses, inserted, ids))
    && Lists(inserted, ids, returned, places)
  }

  ghost predicate Lists(inserted: map<int, Receipt>, ids: seq<int>, returned: seq<Receipt>, places: seq<nat>) {
    && |returned| == |places|
    && forall i :: 0 <= i < |places| ==> places[i] < |ids| && ids[places[i]] in inserted && returned[i] == inserted[ids[places[i]]]
  }

  lemma {:induction false} ListsMore(rows: map<int, Receipt>, ids: seq<int>, returned: seq<Receipt>, places: seq<nat>, n: nat)
    requires Lists(rows, ids, returned, places) && n < |ids| && ids[n] in rows
    ensures Lists(rows, ids, returned + [rows[ids[n]]], places + [n])
  {
  }

  lemma {:induction false} ReadableIn(parses: Receipt -> bool, rows: map<int, Receipt>, ids: seq<int>, n: nat)
    requires n <= |ids|
    ensures Lists(rows, ids, Readable(parses, rows, ids, n), Places(n, Read(parses, rows, ids)))
  {
    if n > 0 {
      ReadableIn(parses, rows, ids, n - 1);
      if Reads(parses, rows, ids, n - 1) {
        ListsMore(rows, ids, Readable(parses, rows, ids, n - 1), Places(n - 1, Read(parses, rows, ids)), n - 1);
      }
    }
  }

  lemma {:induction false} ReadableAnswers(parses: Receipt -> bool, rows: map<int, Receipt>, ids: seq<int>) returns (places: seq<nat>)
    ensures Answers(parses, rows, ids, Readable(parses, rows, ids, |ids|), places)
  {
    places := Places(|ids|, Read(parses, rows, ids));
    PlacesArePicked(|ids|, Read(parses, rows, ids));
    ReadableIn(parses, rows, ids, |ids|);
  }

  /** A drain answers with the rows it removed, in their order, short of exactly those that no longer parse. */
  ghost predicate AnswersInFull(parses: Receipt -> bool, inserted: map<int, Receipt>, drain: Drained) {
    exists places: seq<nat> :: Answers(parses, inserted, drain.ids, drain.returned, places)
  }

  /**
   Over every interleaving: no receipt is in two committed drains, none is lost (what was inserted is
   queued or in a committed drain, never both), and what a drain answers is the rows it removed, in
   their order, short of exactly those that no longer read as receipts.
   */
  lemma {:induction false} EachReceiptDrainedOnce(parses: Receipt -> bool, steps: seq<Step>, id: int)
    requires IsRun(parses, steps)
    ensures var s := After(parses, steps);
            && (id in s.inserted <==> (id in s.rows || DrainedBy(s, id)))
            && !(id in s.rows && DrainedBy(s, id))
            && (forall i, j :: 0 <= i < |s.log| && 0 <= j < |s.log| && id in s.log[i].ids && id in s.log[j].ids ==> i == j)
            && (forall i :: 0 <= i < |s.log| ==> AnswersInFull(parses, s.inserted, s.log[i]))
  {
    RunsKeep(parses, steps);
    var s := After(parses, steps);
    forall i | 0 <= i < |s.log| ensures AnswersInFull(parses, s.inserted, s.log[i]) {
      var places := ReadableAnswers(parses, s.inserted, s.log[i].ids);
    }
  }

  /** A readable receipt that left the queue is in the answer of exactly one committed drain, at one place. */
  lemma {:induction false} ReadableReceiptAnsweredOnce(parses: Receipt -> bool, steps: seq<Step>, id: int) returns (i: nat, places: seq<nat>, k: nat)
    requires IsRun(parses, steps)
    requires var s := After(parses, steps); id in s.inserted && parses(s.inserted[id]) && id !in s.rows
    ensures var s := After(parses, steps);
            && i < |s.log| && (forall j :: 0 <= j < |s.log| && id in s.log[j].ids ==> j == i)
            && Answers(parses, s.inserted, s.log[i].ids, s.log[i].returned, places)
            && k < |places| && s.log[i].ids[places[k]] == id && s.log[i].returned[k] == s.inserted[id]
            && (forall l :: 0 <= l < |places| && s.log[i].ids[places[l]] == id ==> l == k)
  {
    RunsKeep(parses, steps);
    i := DrainOf(After(parses, steps), id);
    var drain := After(parses, steps).log[i];
    places := ReadableAnswers(parses, After(parses, steps).inserted, drain.ids);
    k := PlaceOf(parses, After(parses, steps).inserted, drain.ids, drain.returned, places, id);
  }

  lemma {:induction false} DrainOf(s: State, id: int) returns (i: nat)
    requires DrainsApart(s) && NothingMissing(s) && id in s.inserted && id !in s.rows
    ensures i < |s.log| && id in s.log[i].ids && Distinct(s.log[i].ids)
    ensures forall j :: 0 <= j < |s.log| && id in s.log[j].ids ==> j == i
  {
    assert DrainedBy(s, id);
    i :| 0 <= i < |s.log| && id in s.log[i].ids;
  }

  lemma {:induction false} PlaceOf(parses: Receipt -> bool, inserted: map<int, Receipt>, ids: seq<int>, returned: seq<Receipt>, places: seq<nat>, id: int)
    returns (k: nat)
    requires Answers(parses, inserted, ids, returned, places) && Distinct(ids) && id in ids && id in inserted && parses(inserted[id])
    ensures k < |places| && places[k] < |ids| && ids[places[k]] == id && returned[k] == inserted[id]
    ensures forall l :: 0 <= l < |places| && places[l] < |ids| && ids[places[l]] == id ==> l == k
  {
    var p: nat :| p < |ids| && ids[p] == id;
    assert Read(parses, inserted, ids)(p);
    k :| 0 <= k < |places| && places[k] == p;
  }

  /** With no other drain in flight, a drain takes the oldest rows, as many as a batch holds. */
  lemma {:induction false} DrainTakesOldest(parses: Receipt -> bool, steps: seq<Step>, d: nat, ids: seq<int>)
    requires IsRun(parses, steps) && After(parses, steps).txns == map[] && ids != []
    requires Enabled(After(parses, steps), Claim(d, ids))
    ensures var s := After(parses, steps);
            var t := Next(parses, Next(parses, Next(parses, s, Claim(d, ids)), Delete(d)), Commit(d));
            && |ids| == (if |s.rows| <= BATCH_SIZE then |s.rows| else BATCH_SIZE)
            && |t.log| == |s.log| + 1 && t.log[|s.log|].ids == ids
            && t.txns == map[] && t.rows == s.rows - (set id | id in ids)
            && (forall first, id :: first in ids && id in t.rows ==> first < id)
  {
    var s := After(parses, steps);
    var taken := set id | id in ids;
    SizeOfDistinct(ids, taken);
    assert |s.rows| == |s.rows.Keys|;
    CountOfSubset(taken, s.rows.Keys);
    if |ids| < BATCH_SIZE {
      forall id | id in s.rows ensures id in taken {
        assert !Locked(s, id);
      }
      assert taken == s.rows.Keys;
    }
    assert s.txns[d := Txn(ids, false)][d := Txn(ids, true)] - {d} == s.txns;
  }

  lemma {:induction false} CountOfSubset(a: set<int>, b: set<int>)
    requires a <= b
    ensures |a| <= |b|
  {
    assert b == a + (b - a);
  }

  lemma {:induction false} SizeOfDistinct(ids: seq<int>, taken: set<int>)
    requires Distinct(ids) && taken == set id | id in ids
    ensures |taken| == |ids|
  {
    if ids != [] {
      var n := |ids| - 1;
      assert forall i :: 0 <= i < n ==> ids[..n][i] == ids[i];
      var before := set id | id in ids[..n];
      SizeOfDistinct(ids[..n], before);
      assert taken == before + {ids[n]};
    }
  }

  /** While a drain holds a row, nobody else can take it, so rolling the drain back gives it up intact. */
  lemma {:induction false} RollbackLosesNothing(parses: Receipt -> bool, steps: seq<Step>, d: nat)
    requires IsRun(parses, steps) && d in After(parses, steps).txns
    ensures var s, t := After(parses, steps), After(parses, steps + [Rollback(d)]);
            && IsRun(parses, steps + [Rollback(d)])
            && t.rows == s.rows && t.log == s.log
            && (forall id :: id in s.txns[d].ids ==> id in t.rows && !Locked(t, id))
  {
    RunsKeep(parses, steps);
    assert (steps + [Rollback(d)])[..|steps|] == steps;
  }

  /** A commit hands over every row it claimed exactly once and touches no other. */
  lemma {:induction false} CommitTakesItsClaim(parses: Receipt -> bool, steps: seq<Step>, d: nat, id: int)
    requires IsRun(parses, steps) && Enabled(After(parses, steps), Commit(d))
    ensures var s, t := After(parses, steps), After(parses, steps + [Commit(d)]);
            && |t.log| == |s.log| + 1
            && (id in t.rows <==> id in s.rows && id !in t.log[|s.log|].ids)
            && t.log[|s.log|].ids == s.txns[d].ids
            && (id in t.log[|s.log|].ids ==> id in s.rows)
  {
    RunsKeep(parses, steps);
    assert (steps + [Commit(d)])[..|steps|] == steps;
  }
}
