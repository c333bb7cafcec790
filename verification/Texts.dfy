/** Texts (of characters or of bytes) put together with a separator, and where each part stands in the whole. */
module Texts {
  function Joined<T>(parts: seq<seq<T>>, separator: seq<T>): seq<T> {
    if parts == [] then []
    else if |parts| == 1 then parts[0]
    else Joined(parts[..|parts| - 1], separator) + separator + parts[|parts| - 1]
  }

  /** Where part `k` starts when parts are put together with separators of this length. */
  function Offset<T>(parts: seq<seq<T>>, width: nat, k: nat): nat
    requires k <= |parts|
  {
    if k == 0 then 0 else Offset(parts, width, k - 1) + |parts[k - 1]| + width
  }

  lemma {:induction false} OffsetOfPrefix<T>(parts: seq<seq<T>>, width: nat, n: nat, k: nat)
    requires k <= n <= |parts|
    ensures Offset(parts[..n], width, k) == Offset(parts, width, k)
  {
    if k > 0 { OffsetOfPrefix(parts, width, n, k - 1); }
  }

  lemma {:induction false} SliceOfSum<T>(a: seq<T>, b: seq<T>, from: nat, to: nat)
    requires from <= to <= |a|
    ensures (a + b)[from..to] == a[from..to]
  {
  }

  lemma {:induction false} JoinedLength<T>(parts: seq<seq<T>>, separator: seq<T>)
    ensures parts == [] ==> Joined(parts, separator) == []
    ensures parts != [] ==> |Joined(parts, separator)| + |separator| == Offset(parts, |separator|, |parts|)
  {
    var n := |parts| - 1;
    if n > 0 {
      JoinedLength(parts[..n], separator);
      OffsetOfPrefix(parts, |separator|, n, n);
    }
  }

  /** In a joined text, `part` stands at `at`, with a separator behind it or the end. */
  predicate StandsAt<T(==)>(text: seq<T>, separator: seq<T>, at: nat, part: seq<T>, last: bool) {
    && at + |part| <= |text| && text[at..at + |part|] == part
    && if last then at + |part| == |text|
       else at + |part| + |separator| <= |text| && text[at + |part|..at + |part| + |separator|] == separator
  }

  lemma {:induction false} StillStands<T>(front: seq<T>, separator: seq<T>, at: nat, part: seq<T>, last: bool, next: seq<T>)
    requires StandsAt(front, separator, at, part, last)
    ensures StandsAt(front + separator + next, separator, at, part, false)
    ensures StandsAt(front + separator + next, separator, |front| + |separator|, next, true)
  {
    var text := front + separator + next;
    JoinedFront(front, separator, next, at, at + |part|);
    if last {
      assert text[|front|..|front| + |separator|] == separator;
    } else {
      JoinedFront(front, separator, next, at + |part|, at + |part| + |separator|);
    }
    assert text == (front + separator) + next && text[|front + separator|..] == next;
    assert text[|front| + |separator|..|front| + |separator| + |next|] == text[|front + separator|..];
  }

  /** Joining puts every part at its offset, a separator after each but the last, and nothing else. */
  lemma {:induction false} JoinedAt<T>(parts: seq<seq<T>>, separator: seq<T>, k: nat)
    requires k < |parts|
    ensures StandsAt(Joined(parts, separator), separator, Offset(parts, |separator|, k), parts[k], k == |parts| - 1)
  {
    var n := |parts| - 1;
    if n > 0 {
      var m := if k < n then k else n - 1;
      OffsetOfPrefix(parts, |separator|, n, m);
      JoinedAt(parts[..n], separator, m);
      StillStands(Joined(parts[..n], separator), separator, Offset(parts, |separator|, m), parts[m], m == n - 1, parts[n]);
      JoinedLength(parts[..n], separator);
      OffsetOfPrefix(parts, |separator|, n, n);
    }
  }

  lemma {:induction false} JoinedFront<T>(front: seq<T>, separator: seq<T>, last: seq<T>, from: nat, to: nat)
    requires from <= to <= |front|
    ensures (front + separator + last)[from..to] == front[from..to]
  {
    SliceOfSum(front, separator, from, to);
    SliceOfSum(front + separator, last, from, to);
  }

  lemma {:induction false} JoinedSnoc<T>(parts: seq<seq<T>>, separator: seq<T>, last: seq<T>)
    requires parts != []
    ensures Joined(parts + [last], separator) == Joined(parts, separator) + separator + last
  {
    assert (parts + [last])[..|parts|] == parts;
  }
}
