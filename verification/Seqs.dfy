/** Sequences: bytes, regrouping, and filtering with its effect on membership and order. */
module Seqs {
  type Bytes = seq<bv8>

  lemma {:induction false} Associates<T>(a: seq<T>, b: seq<T>, c: seq<T>)
    ensures (a + b) + c == a + (b + c)
  {
  }

  function Filter<T>(s: seq<T>, keep: T -> bool): seq<T> {
    if s == [] then []
    else if keep(s[|s| - 1]) then Filter(s[..|s| - 1], keep) + [s[|s| - 1]]
    else Filter(s[..|s| - 1], keep)
  }

  lemma {:induction false} FilterAppend<T>(s: seq<T>, x: T, keep: T -> bool)
    ensures Filter(s + [x], keep) == if keep(x) then Filter(s, keep) + [x] else Filter(s, keep)
  {
    assert (s + [x])[..|s|] == s;
  }

  /** Where an element that was kept comes from. */
  lemma {:induction false} FilterFrom<T>(s: seq<T>, keep: T -> bool, i: nat) returns (k: nat)
    requires i < |Filter(s, keep)|
    ensures k < |s| && s[k] == Filter(s, keep)[i] && keep(s[k])
  {
    var n := |s| - 1;
    if i < |Filter(s[..n], keep)| { k := FilterFrom(s[..n], keep, i); } else { k := n; }
  }

  /** Where an element that passes ends up. */
  lemma {:induction false} FilterTo<T>(s: seq<T>, keep: T -> bool, k: nat) returns (i: nat)
    requires k < |s| && keep(s[k])
    ensures i < |Filter(s, keep)| && s[k] == Filter(s, keep)[i]
  {
    var n := |s| - 1;
    if k < n { i := FilterTo(s[..n], keep, k); } else { i := |Filter(s, keep)| - 1; }
  }

  /** Filtering by a weaker test first changes nothing. */
  lemma {:induction false} FilterAgain<T>(s: seq<T>, first: T -> bool, second: T -> bool)
    requires forall i :: 0 <= i < |s| && second(s[i]) ==> first(s[i])
    ensures Filter(Filter(s, first), second) == Filter(s, second)
  {
    if s != [] {
      var n := |s| - 1;
      assert forall i :: 0 <= i < n ==> s[..n][i] == s[i];
      FilterAgain(s[..n], first, second);
      if first(s[n]) {
        FilterAppend(Filter(s[..n], first), s[n], second);
      } else {
        assert Filter(s, first) == Filter(s[..n], first);
      }
    }
  }

  lemma {:induction false} FilterNone<T>(s: seq<T>, keep: T -> bool)
    requires forall i :: 0 <= i < |s| ==> !keep(s[i])
    ensures Filter(s, keep) == []
  {
    if s != [] {
      var n := |s| - 1;
      assert forall i :: 0 <= i < n ==> s[..n][i] == s[i];
      FilterNone(s[..n], keep);
    }
  }

  lemma {:induction false} FilterNestedNone<T>(s: seq<T>, first: T -> bool, second: T -> bool)
    requires forall i :: 0 <= i < |s| && second(s[i]) ==> !first(s[i])
    ensures Filter(Filter(s, first), second) == []
  {
    if s != [] {
      var n := |s| - 1;
      assert forall i :: 0 <= i < n ==> s[..n][i] == s[i];
      FilterNestedNone(s[..n], first, second);
      if first(s[n]) {
        FilterAppend(Filter(s[..n], first), s[n], second);
      } else {
        assert Filter(s, first) == Filter(s[..n], first);
      }
    }
  }

  ghost predicate Ascends<T>(s: seq<T>, key: T -> int) {
    forall i, j :: 0 <= i < j < |s| ==> key(s[i]) < key(s[j])
  }

  lemma {:induction false} KeysDiffer<T>(s: seq<T>, key: T -> int, i: nat, j: nat)
    requires Ascends(s, key) && i < |s| && j < |s|
    ensures key(s[i]) == key(s[j]) ==> i == j
  {
  }

  lemma {:induction false} FilterAscends<T>(s: seq<T>, keep: T -> bool, key: T -> int)
    requires Ascends(s, key)
    ensures Ascends(Filter(s, keep), key)
  {
    if s != [] {
      var n := |s| - 1;
      var kept := Filter(s[..n], keep);
      assert forall i, j :: 0 <= i < j < n ==> key(s[..n][i]) < key(s[..n][j]);
      FilterAscends(s[..n], keep, key);
      forall i | 0 <= i < |kept| ensures key(kept[i]) < key(s[n]) {
        var k := FilterFrom(s[..n], keep, i);
        assert key(s[k]) < key(s[n]);
      }
    }
  }

  lemma {:induction false} AppendAscends<T>(s: seq<T>, x: T, key: T -> int)
    requires Ascends(s, key) && (s != [] ==> key(s[|s| - 1]) < key(x))
    ensures Ascends(s + [x], key)
    ensures forall y :: y in s ==> key(y) < key(x)
  {
    forall i | 0 <= i < |s| ensures key(s[i]) < key(x) {
      if i < |s| - 1 { assert key(s[i]) < key(s[|s| - 1]); }
    }
  }

  /** `places` are, in ascending order, exactly the chosen positions below `n`. */
  ghost predicate Picks(places: seq<nat>, n: nat, chosen: nat -> bool) {
    && (forall i, j :: 0 <= i < j < |places| ==> places[i] < places[j])
    && (forall p: nat :: p in places <==> p < n && chosen(p))
  }

  /** Those positions. */
  function Places(n: nat, chosen: nat -> bool): seq<nat> {
    if n == 0 then [] else if chosen(n - 1) then Places(n - 1, chosen) + [n - 1] else Places(n - 1, chosen)
  }

  lemma {:induction false} PickOne(places: seq<nat>, n: nat, chosen: nat -> bool)
    requires Picks(places, n, chosen) && chosen(n)
    ensures Picks(places + [n], n + 1, chosen)
  {
    forall i | 0 <= i < |places| ensures places[i] < n {
      assert places[i] in places;
    }
    assert forall p: nat :: p in places + [n] <==> p in places || p == n;
  }

  lemma {:induction false} SkipOne(places: seq<nat>, n: nat, chosen: nat -> bool)
    requires Picks(places, n, chosen) && !chosen(n)
    ensures Picks(places, n + 1, chosen)
  {
  }

  lemma {:induction false} PlacesArePicked(n: nat, chosen: nat -> bool)
    ensures Picks(Places(n, chosen), n, chosen)
  {
    if n > 0 {
      PlacesArePicked(n - 1, chosen);
      if chosen(n - 1) { PickOne(Places(n - 1, chosen), n - 1, chosen); } else { SkipOne(Places(n - 1, chosen), n - 1, chosen); }
    }
  }
}
