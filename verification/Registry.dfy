/**
 The gossip registry cache: newest signed announce per (publisher, name), stale entries swept lazily.
 Sweeping cannot be observed through `ingest` and `resolve`, accepted timestamps only go up, and at
 a fixed time the order in which announces arrive matters exactly when two tie for the newest.
 */
module Registry {
  import opened Wrappers

  type Address = string

  datatype Announce = Announce(
    name: string, version: string, manifestCid: string, publisher: Address, timestampMs: nat, signature: string)

  type Key = (Address, string)

  datatype AnnounceError = Unverified | Stale | Older

  function KeyOf(a: Announce): Key { (a.publisher, a.name) }

  /** `a.saturating_sub(b)` on unsigned integers. */
  function SatSub(a: nat, b: nat): nat { if a > b then a - b else 0 }

  /** The accepted age in milliseconds, and signature checking. */
  datatype Policy = Policy(cutoff: nat, verify: Announce -> bool)

  /** `max_age.as_millis() as u64`: the cast keeps the low 64 bits. */
  function CutoffOf(maxAgeMillis: nat): nat {
    maxAgeMillis % 0x1_0000_0000_0000_0000
  }

  const MAX_FUTURE_SKEW_MS: nat := 60000

  predicate Expired(p: Policy, a: Announce, now: nat) {
    SatSub(now, a.timestampMs) > p.cutoff
  }

  type Entries = map<Key, Announce>

  function Ingest(p: Policy, entries: Entries, a: Announce, now: nat): (Result<(), AnnounceError>, Entries) {
    if !p.verify(a) then (Err(Unverified), entries)
    else if Expired(p, a, now) || SatSub(a.timestampMs, now) > MAX_FUTURE_SKEW_MS then (Err(Stale), entries)
    else if KeyOf(a) in entries && entries[KeyOf(a)].timestampMs >= a.timestampMs then (Err(Older), entries)
    else (Ok(()), entries[KeyOf(a) := a])
  }

  /** Every publisher's unexpired claim for a name. The order of the answer is the hash map's. */
  function Resolve(p: Policy, entries: Entries, name: string, now: nat): set<Announce> {
    set k | k in entries && entries[k].name == name && !Expired(p, entries[k], now) :: entries[k]
  }

  function Sweep(p: Policy, entries: Entries, now: nat): Entries {
    map k | k in entries && !Expired(p, entries[k], now) :: entries[k]
  }

  class RegistryCache {
    const policy: Policy
    var entries: Entries

    constructor (maxAgeMillis: nat, verify: Announce -> bool)
      ensures policy == Policy(CutoffOf(maxAgeMillis), verify) && entries == map[]
    {
      policy, entries := Policy(CutoffOf(maxAgeMillis), verify), map[];
    }

    method IngestAnnounce(a: Announce, now: nat) returns (r: Result<(), AnnounceError>)
      modifies this
      ensures (r, entries) == Ingest(policy, old(entries), a, now)
    {
      if !policy.verify(a) {
        return Err(Unverified);
      }
      var age, futureSkew := SatSub(now, a.timestampMs), SatSub(a.timestampMs, now);
      if age > policy.cutoff || futureSkew > MAX_FUTURE_SKEW_MS {
        return Err(Stale);
      }
      var key := KeyOf(a);
      if key in entries {
        if entries[key].timestampMs >= a.timestampMs {
          return Err(Older);
        }
      }
      entries := entries[key := a];
      return Ok(());
    }

    method SweepStale(now: nat)
      modifies this
      ensures entries == Sweep(policy, old(entries), now)
    {
      entries := map k | k in entries && SatSub(now, entries[k].timestampMs) <= policy.cutoff :: entries[k];
    }
  }

  // ---------- one announce ----------

  /** Not older than the accepted age, and not further ahead of the clock than the skew. */
  predicate Timely(p: Policy, a: Announce, now: nat) {
    now - a.timestampMs <= p.cutoff && a.timestampMs - now <= 60000
  }

  /** An announce is accepted iff it is signed, timely and newer than what is there; the first of these that fails is the error. */
  lemma {:induction false} IngestVerdict(p: Policy, entries: Entries, a: Announce, now: nat)
    ensures var (r, after) := Ingest(p, entries, a, now);
            var key := (a.publisher, a.name);
            && (r == Ok(()) <==> p.verify(a) && Timely(p, a, now) && (key in entries ==> entries[key].timestampMs < a.timestampMs))
            && (r == Err(Unverified) <==> !p.verify(a))
            && (r == Err(Stale) <==> p.verify(a) && !Timely(p, a, now))
            && after == if r.Ok? then entries[key := a] else entries
  {
  }

  // ---------- runs ----------

  datatype Op = IngestOp(a: Announce, now: nat) | ResolveOp(name: string, now: nat) | SweepOp(now: nat)

  datatype Seen = Verdict(r: Result<(), AnnounceError>) | Claims(who: set<Announce>) | Nothing

  predicate ClockRuns(ops: seq<Op>) {
    forall i, j :: 0 <= i <= j < |ops| ==> ops[i].now <= ops[j].now
  }

  /** One operation; `sweeps` says whether sweeping does anything. */
  function Do(p: Policy, entries: Entries, op: Op, sweeps: bool): (Seen, Entries) {
    match op
    case IngestOp(a, now) => (Verdict(Ingest(p, entries, a, now).0), Ingest(p, entries, a, now).1)
    case ResolveOp(name, now) => (Claims(Resolve(p, entries, name, now)), entries)
    case SweepOp(now) => (Nothing, if sweeps then Sweep(p, entries, now) else entries)
  }

  /** What a client sees over a run that starts with an empty cache, and the cache at the end. */
  function Run(p: Policy, ops: seq<Op>, sweeps: bool): (r: (seq<Seen>, Entries))
    ensures |r.0| == |ops|
  {
    if ops == [] then ([], map[])
    else
      var (seen, entries) := Run(p, ops[..|ops| - 1], sweeps);
      var (answer, after) := Do(p, entries, ops[|ops| - 1], sweeps);
      (seen + [answer], after)
  }

  /** Entries stand under their own publisher and name. */
  ghost predicate Keyed(entries: Entries) {
    forall k :: k in entries ==> k == (entries[k].publisher, entries[k].name)
  }

  lemma {:induction false} RunsKeepKeyed(p: Policy, ops: seq<Op>, sweeps: bool)
    ensures Keyed(Run(p, ops, sweeps).1)
  {
    if ops != [] { RunsKeepKeyed(p, ops[..|ops| - 1], sweeps); }
  }

  /** A name resolves to the newest announce of every publisher whose claim is within the accepted age. */
  lemma {:induction false} ResolveAnswers(p: Policy, ops: seq<Op>, name: string, now: nat, a: Announce)
    ensures var entries := Run(p, ops, true).1;
            a in Resolve(p, entries, name, now) <==>
            a.name == name && (a.publisher, name) in entries && entries[(a.publisher, name)] == a && now - a.timestampMs <= p.cutoff
  {
    RunsKeepKeyed(p, ops, true);
    var entries := Run(p, ops, true).1;
    if a in Resolve(p, entries, name, now) {
      var k :| k in entries && entries[k] == a && entries[k].name == name && !Expired(p, entries[k], now);
      assert k == (a.publisher, a.name);
    }
  }

  /** After a sweep, no entry is older than the accepted age. */
  lemma {:induction false} SweepLeavesNoneExpired(p: Policy, ops: seq<Op>, now: nat, k: Key)
    requires k in Run(p, ops + [SweepOp(now)], true).1
    ensures now - Run(p, ops + [SweepOp(now)], true).1[k].timestampMs <= p.cutoff
  {
    assert (ops + [SweepOp(now)])[..|ops|] == ops;
  }

  /** The swept cache is the full one short of entries that had expired by `now`. */
  ghost predicate ExpiredApart(p: Policy, swept: Entries, full: Entries, now: nat) {
    && (forall k :: k in swept ==> k in full && swept[k] == full[k])
    && (forall k :: k in full && k !in swept ==> Expired(p, full[k], now))
  }

  lemma {:induction false} ApartStep(p: Policy, swept: Entries, full: Entries, before: nat, op: Op)
    requires ExpiredApart(p, swept, full, before) && before <= op.now
    ensures Do(p, swept, op, true).0 == Do(p, full, op, false).0
    ensures ExpiredApart(p, Do(p, swept, op, true).1, Do(p, full, op, false).1, op.now)
  {
    assert ExpiredApart(p, swept, full, op.now);
    match op {
      case IngestOp(a, now) =>
      case ResolveOp(name, now) =>
        assert Resolve(p, swept, name, now) == Resolve(p, full, name, now);
      case SweepOp(now) =>
    }
  }

  lemma {:induction false} RunsApart(p: Policy, ops: seq<Op>)
    requires ClockRuns(ops)
    ensures Run(p, ops, true).0 == Run(p, ops, false).0
    ensures ExpiredApart(p, Run(p, ops, true).1, Run(p, ops, false).1, if ops == [] then 0 else ops[|ops| - 1].now)
  {
    if ops != [] {
      var n := |ops| - 1;
      var init, last := ops[..n], ops[n];
      assert forall i :: 0 <= i < n ==> init[i] == ops[i];
      RunsApart(p, init);
      ApartStep(p, Run(p, init, true).1, Run(p, init, false).1, if init == [] then 0 else init[n - 1].now, last);
    }
  }

  /** On any run with a nondecreasing clock, a cache that sweeps and one that never does answer alike. */
  lemma {:induction false} SweepIsUnobservable(p: Policy, ops: seq<Op>)
    requires ClockRuns(ops)
    ensures Run(p, ops, true).0 == Run(p, ops, false).0
  {
    RunsApart(p, ops);
  }

  // ---------- timestamps ----------

  predicate AcceptedAt(p: Policy, ops: seq<Op>, i: nat, sweeps: bool)
    requires i < |ops|
  {
    ops[i].IngestOp? && Run(p, ops, sweeps).0[i] == Verdict(Ok(()))
  }

  lemma {:induction false} SeenAt(p: Policy, ops: seq<Op>, i: nat, sweeps: bool)
    requires i < |ops|
    ensures Run(p, ops, sweeps).0[i] == Do(p, Run(p, ops[..i], sweeps).1, ops[i], sweeps).0
    ensures Run(p, ops[..i + 1], sweeps).1 == Do(p, Run(p, ops[..i], sweeps).1, ops[i], sweeps).1
  {
    var n := |ops| - 1;
    assert ops[..i + 1][..i] == ops[..i];
    if i < n {
      SeenAt(p, ops[..n], i, sweeps);
      assert ops[..n][..i] == ops[..i] && ops[..n][..i + 1] == ops[..i + 1];
    } else {
      assert ops[..i + 1] == ops;
    }
  }

  /** Without sweeps, once a timestamp is accepted the entry never goes below it. */
  lemma {:induction false} EntryStays(p: Policy, ops: seq<Op>, i: nat, j: nat)
    requires i < j <= |ops| && AcceptedAt(p, ops, i, false)
    ensures var entries, k := Run(p, ops[..j], false).1, KeyOf(ops[i].a);
            k in entries && entries[k].timestampMs >= ops[i].a.timestampMs
  {
    SeenAt(p, ops, j - 1, false);
    var before := Run(p, ops[..j - 1], false).1;
    if i < j - 1 {
      EntryStays(p, ops, i, j - 1);
      EntryKept(p, before, ops[j - 1], KeyOf(ops[i].a));
    }
  }

  lemma {:induction false} EntryKept(p: Policy, entries: Entries, op: Op, k: Key)
    requires k in entries
    ensures var after := Do(p, entries, op, false).1; k in after && after[k].timestampMs >= entries[k].timestampMs
  {
  }

  /** Over a run with sweeps anywhere, the accepted timestamps of a (publisher, name) strictly increase. */
  lemma {:induction false} AcceptedTimestampsIncrease(p: Policy, ops: seq<Op>, i: nat, j: nat)
    requires ClockRuns(ops) && i < j < |ops|
    requires AcceptedAt(p, ops, i, true) && AcceptedAt(p, ops, j, true)
    requires KeyOf(ops[i].a) == KeyOf(ops[j].a)
    ensures ops[i].a.timestampMs < ops[j].a.timestampMs
  {
    SweepIsUnobservable(p, ops);
    EntryStays(p, ops, i, j);
    SeenAt(p, ops, j, false);
  }

  // ---------- order of arrival ----------

  function IngestAll(p: Policy, entries: Entries, announces: seq<Announce>, now: nat): Entries {
    if announces == [] then entries
    else Ingest(p, IngestAll(p, entries, announces[..|announces| - 1], now), announces[|announces| - 1], now).1
  }

  /** The announces `ingest` does not turn away for their signature or age. */
  predicate Admissible(p: Policy, a: Announce, now: nat) {
    p.verify(a) && !Expired(p, a, now) && SatSub(a.timestampMs, now) <= MAX_FUTURE_SKEW_MS
  }

  /** `a` competes for `k`: it was there before, or it is an admissible arrival. */
  ghost predicate Competes(p: Policy, entries: Entries, announces: seq<Announce>, now: nat, k: Key, a: Announce) {
    (k in entries && entries[k] == a) || (a in announces && Admissible(p, a, now) && KeyOf(a) == k)
  }

  /**
   The cache holds, for each key that anyone competes for, a competitor that none is newer than; and
   what was there before gives way to newer announces only.
   */
  ghost predicate HoldsNewest(p: Policy, entries: Entries, announces: seq<Announce>, now: nat, after: Entries) {
    && (forall k :: k in entries ==> k in after && (after[k] == entries[k] || after[k].timestampMs > entries[k].timestampMs))
    && (forall k :: k in after ==> Competes(p, entries, announces, now, k, after[k]))
    && (forall k, a :: Competes(p, entries, announces, now, k, a) ==> k in after && a.timestampMs <= after[k].timestampMs)
  }

  lemma {:induction false} CompetesOneMore(p: Policy, entries: Entries, init: seq<Announce>, last: Announce, now: nat, k: Key, a: Announce)
    ensures Competes(p, entries, init + [last], now, k, a) <==>
            Competes(p, entries, init, now, k, a) || (a == last && Admissible(p, a, now) && KeyOf(a) == k)
  {
    assert a in init + [last] <==> a in init || a == last;
  }

  lemma {:induction false} IngestKeepsNewest(p: Policy, entries: Entries, init: seq<Announce>, last: Announce, now: nat, before: Entries)
    requires HoldsNewest(p, entries, init, now, before)
    ensures HoldsNewest(p, entries, init + [last], now, Ingest(p, before, last, now).1)
  {
    var after := Ingest(p, before, last, now).1;
    forall k | k in after ensures Competes(p, entries, init + [last], now, k, after[k]) {
      CompetesOneMore(p, entries, init, last, now, k, after[k]);
    }
    forall k, a | Competes(p, entries, init + [last], now, k, a) ensures k in after && a.timestampMs <= after[k].timestampMs {
      CompetesOneMore(p, entries, init, last, now, k, a);
      if Competes(p, entries, init, now, k, a) { assert a.timestampMs <= before[k].timestampMs; }
    }
  }

  lemma {:induction false} IngestAllHoldsNewest(p: Policy, entries: Entries, announces: seq<Announce>, now: nat)
    ensures HoldsNewest(p, entries, announces, now, IngestAll(p, entries, announces, now))
  {
    if announces != [] {
      var init, last := announces[..|announces| - 1], announces[|announces| - 1];
      IngestAllHoldsNewest(p, entries, init, now);
      IngestKeepsNewest(p, entries, init, last, now, IngestAll(p, entries, init, now));
      assert announces == init + [last];
    }
  }

  /** An admissible arrival that is newer than what is there, and than which no other arrival for its key is newer. */
  ghost predicate Newest(p: Policy, entries: Entries, announces: seq<Announce>, now: nat, a: Announce) {
    && a in announces && Admissible(p, a, now)
    && (KeyOf(a) in entries ==> entries[KeyOf(a)].timestampMs < a.timestampMs)
    && forall b :: b in announces && Admissible(p, b, now) && KeyOf(b) == KeyOf(a) ==> b.timestampMs <= a.timestampMs
  }

  /** No two different announces are newest for one key. */
  ghost predicate NoTies(p: Policy, entries: Entries, announces: seq<Announce>, now: nat) {
    forall a, b :: Newest(p, entries, announces, now, a) && Newest(p, entries, announces, now, b) && KeyOf(a) == KeyOf(b) ==> a == b
  }

  lemma {:induction false} WinnerIsNewest(p: Policy, entries: Entries, announces: seq<Announce>, now: nat, k: Key)
    requires k in IngestAll(p, entries, announces, now)
    ensures var x := IngestAll(p, entries, announces, now)[k];
            (k in entries && x == entries[k]) || (KeyOf(x) == k && Newest(p, entries, announces, now, x))
  {
    IngestAllHoldsNewest(p, entries, announces, now);
    var x := IngestAll(p, entries, announces, now)[k];
    assert Competes(p, entries, announces, now, k, x);
    if !(k in entries && x == entries[k]) {
      forall b | b in announces && Admissible(p, b, now) && KeyOf(b) == k ensures b.timestampMs <= x.timestampMs {
        assert Competes(p, entries, announces, now, k, b);
      }
    }
  }

  /** What stays for a key when nothing that arrives for it is newer than what was there. */
  lemma {:induction false} NotBeaten(p: Policy, entries: Entries, announces: seq<Announce>, now: nat, k: Key)
    requires k in entries
    requires forall b :: b in announces && Admissible(p, b, now) && KeyOf(b) == k ==> b.timestampMs <= entries[k].timestampMs
    ensures k in IngestAll(p, entries, announces, now) && IngestAll(p, entries, announces, now)[k] == entries[k]
  {
    IngestAllHoldsNewest(p, entries, announces, now);
    assert k in IngestAll(p, entries, announces, now);
    WinnerIsNewest(p, entries, announces, now, k);
  }

  lemma {:induction false} SameWinner(p: Policy, entries: Entries, some: seq<Announce>, other: seq<Announce>, now: nat, k: Key)
    requires (forall a :: a in some <==> a in other) && NoTies(p, entries, some, now)
    requires k in IngestAll(p, entries, some, now)
    ensures k in IngestAll(p, entries, other, now) && IngestAll(p, entries, other, now)[k] == IngestAll(p, entries, some, now)[k]
  {
    IngestAllHoldsNewest(p, entries, some, now);
    IngestAllHoldsNewest(p, entries, other, now);
    var x := IngestAll(p, entries, some, now)[k];
    assert Competes(p, entries, some, now, k, x);
    assert Competes(p, entries, other, now, k, x);
    assert k in IngestAll(p, entries, other, now);
    var y := IngestAll(p, entries, other, now)[k];
    assert Competes(p, entries, other, now, k, y);
    assert Competes(p, entries, some, now, k, y);
    WinnerIsNewest(p, entries, some, now, k);
    WinnerIsNewest(p, entries, other, now, k);
    assert Newest(p, entries, other, now, y) ==> Newest(p, entries, some, now, y);
  }

  /** At a fixed time and without ties, announces lead to the same cache in any order and with any repetition. */
  lemma {:induction false} SameCacheWithoutTies(p: Policy, entries: Entries, some: seq<Announce>, other: seq<Announce>, now: nat)
    requires (forall a :: a in some <==> a in other) && NoTies(p, entries, some, now)
    ensures IngestAll(p, entries, some, now) == IngestAll(p, entries, other, now)
  {
    assert NoTies(p, entries, other, now) by {
      forall a ensures Newest(p, entries, other, now, a) <==> Newest(p, entries, some, now, a) {
      }
    }
    var x, y := IngestAll(p, entries, some, now), IngestAll(p, entries, other, now);
    forall k | k in x || k in y ensures k in x && k in y && x[k] == y[k] {
      if k in x { SameWinner(p, entries, some, other, now, k); } else { SameWinner(p, entries, other, some, now, k); }
    }
  }

  lemma {:induction false} IngestAllCons(p: Policy, entries: Entries, a: Announce, more: seq<Announce>, now: nat)
    ensures IngestAll(p, entries, [a] + more, now) == IngestAll(p, Ingest(p, entries, a, now).1, more, now)
  {
    var all := [a] + more;
    if more == [] {
      assert all[..0] == more && all[|all| - 1] == a;
    } else {
      IngestAllCons(p, entries, a, more[..|more| - 1], now);
      assert all[..|all| - 1] == [a] + more[..|more| - 1];
    }
  }

  /** The same announces with the one at `i` first. */
  function ToFront(announces: seq<Announce>, i: nat): seq<Announce>
    requires i < |announces|
  {
    [announces[i]] + (announces[..i] + announces[i + 1..])
  }

  lemma {:induction false} ToFrontSame(announces: seq<Announce>, i: nat)
    requires i < |announces|
    ensures multiset(ToFront(announces, i)) == multiset(announces)
    ensures forall a :: a in announces[..i] + announces[i + 1..] ==> a in announces
  {
    assert announces == announces[..i] + ([announces[i]] + announces[i + 1..]);
  }

  /** One of the newest that comes first is kept. */
  lemma {:induction false} FirstNewestWins(p: Policy, entries: Entries, announces: seq<Announce>, now: nat, i: nat)
    requires i < |announces| && Newest(p, entries, announces, now, announces[i])
    ensures var k := KeyOf(announces[i]);
            k in IngestAll(p, entries, ToFront(announces, i), now) && IngestAll(p, entries, ToFront(announces, i), now)[k] == announces[i]
  {
    var a, more := announces[i], announces[..i] + announces[i + 1..];
    ToFrontSame(announces, i);
    IngestAllCons(p, entries, a, more, now);
    assert Ingest(p, entries, a, now).1 == entries[KeyOf(a) := a];
    NotBeaten(p, entries[KeyOf(a) := a], more, now, KeyOf(a));
  }

  /** Two orders of arrival that lead to different caches, if two announces are newest for one key. */
  lemma {:induction false} TiesMatter(p: Policy, entries: Entries, announces: seq<Announce>, now: nat, i: nat, j: nat)
    requires i < |announces| && j < |announces| && announces[i] != announces[j] && KeyOf(announces[i]) == KeyOf(announces[j])
    requires Newest(p, entries, announces, now, announces[i]) && Newest(p, entries, announces, now, announces[j])
    ensures IngestAll(p, entries, ToFront(announces, i), now) != IngestAll(p, entries, ToFront(announces, j), now)
    ensures multiset(ToFront(announces, i)) == multiset(announces) == multiset(ToFront(announces, j))
  {
    FirstNewestWins(p, entries, announces, now, i);
    FirstNewestWins(p, entries, announces, now, j);
    ToFrontSame(announces, i);
    ToFrontSame(announces, j);
  }

  /** At a fixed time, announces lead to the same cache in every order iff no two are newest for one key. */
  lemma {:induction false} ArrivalOrderIrrelevant(p: Policy, entries: Entries, some: seq<Announce>, now: nat)
    ensures NoTies(p, entries, some, now) <==>
            forall other :: multiset(other) == multiset(some) ==> IngestAll(p, entries, other, now) == IngestAll(p, entries, some, now)
  {
    if NoTies(p, entries, some, now) {
      forall other | multiset(other) == multiset(some) ensures IngestAll(p, entries, other, now) == IngestAll(p, entries, some, now) {
        forall a ensures a in some <==> a in other {
          assert a in multiset(some) <==> a in multiset(other);
        }
        SameCacheWithoutTies(p, entries, some, other, now);
      }
    } else {
      var a, b :| Newest(p, entries, some, now, a) && Newest(p, entries, some, now, b) && KeyOf(a) == KeyOf(b) && a != b;
      var i :| 0 <= i < |some| && some[i] == a;
      var j :| 0 <= j < |some| && some[j] == b;
      TiesMatter(p, entries, some, now, i, j);
    }
  }

  /** With equal timestamps the first arrival wins: order matters for two announces iff they tie and both are news. */
  lemma {:induction false} EqualTimestampsFirstWins(p: Policy, entries: Entries, a: Announce, b: Announce, now: nat)
    requires a != b && KeyOf(a) == KeyOf(b)
    requires Admissible(p, a, now) && Admissible(p, b, now)
    ensures IngestAll(p, entries, [a, b], now) == IngestAll(p, entries, [b, a], now) <==>
            a.timestampMs != b.timestampMs || (KeyOf(a) in entries && entries[KeyOf(a)].timestampMs >= a.timestampMs)
  {
    TwoArrivals(p, entries, a, b, now);
    TwoArrivals(p, entries, b, a, now);
    var k := KeyOf(a);
    assert entries[k := a][k] == a && entries[k := b][k] == b;
    assert entries[k := a][k := b] == entries[k := b] && entries[k := b][k := a] == entries[k := a];
  }

  lemma {:induction false} TwoArrivals(p: Policy, entries: Entries, a: Announce, b: Announce, now: nat)
    ensures IngestAll(p, entries, [a, b], now) == Ingest(p, Ingest(p, entries, a, now).1, b, now).1
  {
    var none: seq<Announce> := [];
    assert [a, b][..1] == [a] && [a][..0] == none;
    assert IngestAll(p, entries, [a], now) == Ingest(p, IngestAll(p, entries, none, now), a, now).1;
  }
}
