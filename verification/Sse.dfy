/**
 Server-sent events as byte streams: cutting a stream into events at blank lines, and why the way the
 bytes were chunked cannot be seen afterwards.
 */
module Sse {
  import opened Wrappers
  import opened Seqs

  const NL: bv8 := 10

  /** `windows(2).position(|w| w == b"\n\n")` */
  function FindBlank(b: Bytes): (r: Option<nat>)
    ensures r.Some? ==> r.value + 2 <= |b|
  {
    if |b| < 2 then None
    else if b[0] == NL && b[1] == NL then Some(0)
    else match FindBlank(b[1..]) case Some(i) => Some(i + 1) case None => None
  }

  /** It is the first position where two newlines meet, if there is one. */
  lemma {:induction false} FindBlankIsFirst(b: Bytes)
    ensures var r := FindBlank(b);
            && (r.Some? ==> b[r.value] == NL && b[r.value + 1] == NL && forall i :: 0 <= i < r.value ==> !(b[i] == NL && b[i + 1] == NL))
            && (r.None? ==> forall i :: 0 <= i < |b| - 1 ==> !(b[i] == NL && b[i + 1] == NL))
  {
    if |b| >= 2 { FindBlankIsFirst(b[1..]); }
  }

  /** The complete events at the front of `b`, each with its terminator. */
  function Events(b: Bytes): seq<Bytes>
    decreases |b|
  {
    match FindBlank(b)
    case None => []
    case Some(i) => [b[..i + 2]] + Events(b[i + 2..])
  }

  /** What is left after them. */
  function Rest(b: Bytes): Bytes
    decreases |b|
  {
    match FindBlank(b)
    case None => b
    case Some(i) => Rest(b[i + 2..])
  }

  function Join(chunks: seq<Bytes>): Bytes {
    if chunks == [] then [] else Join(chunks[..|chunks| - 1]) + chunks[|chunks| - 1]
  }

  lemma {:induction false} JoinCons(chunk: Bytes, chunks: seq<Bytes>)
    ensures Join([chunk] + chunks) == chunk + Join(chunks)
  {
    var all := [chunk] + chunks;
    if chunks == [] {
      assert all[..0] == [];
    } else {
      var n := |chunks| - 1;
      assert all[..n + 1] == [chunk] + chunks[..n];
      JoinCons(chunk, chunks[..n]);
    }
  }

  lemma {:induction false} FindBlankAppend(a: Bytes, c: Bytes)
    requires FindBlank(a).Some?
    ensures FindBlank(a + c) == FindBlank(a)
  {
    if !(a[0] == NL && a[1] == NL) {
      FindBlankAppend(a[1..], c);
      assert (a + c)[1..] == a[1..] + c;
    }
  }

  lemma {:induction false} FirstEvent(b: Bytes, e: Bytes, more: Bytes)
    requires b == e + more && FindBlank(b).Some? && |e| == FindBlank(b).value + 2
    ensures Events(b) == [e] + Events(more) && Rest(b) == Rest(more)
  {
    assert b[..|e|] == e && b[|e|..] == more;
  }

  /** Cutting `a` first and then going on with `c` is cutting `a + c`. */
  lemma {:induction false} CutAppend(a: Bytes, c: Bytes)
    ensures Events(a + c) == Events(a) + Events(Rest(a) + c)
    ensures Rest(a + c) == Rest(Rest(a) + c)
    decreases |a|
  {
    match FindBlank(a) {
      case None =>
        assert Events(a) == [] && Rest(a) == a;
        assert [] + Events(a + c) == Events(a + c);
      case Some(i) =>
        var e, more := a[..i + 2], a[i + 2..];
        CutAppend(more, c);
        FindBlankAppend(a, c);
        assert a == e + more;
        Associates(e, more, c);
        FirstEvent(a, e, more);
        FirstEvent(a + c, e, more + c);
        Associates([e], Events(more), Events(Rest(more) + c));
    }
  }

  lemma {:induction false} RestHasNoEvent(b: Bytes)
    ensures FindBlank(Rest(b)).None? && Events(Rest(b)) == [] && Rest(Rest(b)) == Rest(b)
    decreases |b|
  {
    if FindBlank(b).Some? { RestHasNoEvent(b[FindBlank(b).value + 2..]); }
  }

  /** Cutting loses nothing. */
  lemma {:induction false} CutLosesNothing(b: Bytes)
    ensures Join(Events(b)) + Rest(b) == b
    decreases |b|
  {
    match FindBlank(b) {
      case None =>
        assert Events(b) == [] && Rest(b) == b;
        assert Join([]) + b == b;
      case Some(i) =>
        var e, more := b[..i + 2], b[i + 2..];
        assert b == e + more;
        FirstEvent(b, e, more);
        CutLosesNothing(more);
        JoinCons(e, Events(more));
        Associates(e, Join(Events(more)), Rest(more));
    }
  }

  /** An event: its only blank line is its terminator. */
  predicate IsEvent(e: Bytes) {
    |e| >= 2 && FindBlank(e) == Some(|e| - 2)
  }

  lemma {:induction false} EventsAreEvents(b: Bytes)
    ensures forall i :: 0 <= i < |Events(b)| ==> IsEvent(Events(b)[i])
    decreases |b|
  {
    match FindBlank(b) {
      case None =>
      case Some(i) =>
        EventsAreEvents(b[i + 2..]);
        FirstEventIsEvent(b, i);
    }
  }

  lemma {:induction false} FirstEventIsEvent(b: Bytes, i: nat)
    requires FindBlank(b) == Some(i)
    ensures IsEvent(b[..i + 2])
  {
    if i > 0 {
      FirstEventIsEvent(b[1..], i - 1);
      assert b[..i + 2][1..] == b[1..][..i + 1];
    }
  }

  /** Events put end to end, followed by something without a blank line, are cut back into themselves. */
  lemma {:induction false} CutBack(events: seq<Bytes>, rest: Bytes)
    requires forall i :: 0 <= i < |events| ==> IsEvent(events[i])
    requires FindBlank(rest).None?
    ensures Events(Join(events) + rest) == events && Rest(Join(events) + rest) == rest
  {
    if events == [] {
      assert Join(events) + rest == rest;
    } else {
      var e, more := events[0], Join(events[1..]) + rest;
      JoinCons(e, events[1..]);
      assert events == [e] + events[1..];
      assert Join(events) + rest == e + more;
      CutBack(events[1..], rest);
      FindBlankAppend(e, more);
      FirstEvent(e + more, e, more);
    }
  }

  /** A consumer that folds `step` over complete events and buffers the rest, fed chunk by chunk. */
  function Feed<S>(step: (S, Bytes) -> S, state: S, chunks: seq<Bytes>): (S, Bytes) {
    if chunks == [] then (state, [])
    else
      var (before, pending) := Feed(step, state, chunks[..|chunks| - 1]);
      var b := pending + chunks[|chunks| - 1];
      (Over(step, before, Events(b)), Rest(b))
  }

  function Over<S>(step: (S, Bytes) -> S, state: S, events: seq<Bytes>): S {
    if events == [] then state else Over(step, step(state, events[0]), events[1..])
  }

  lemma {:induction false} OverAppend<S>(step: (S, Bytes) -> S, state: S, a: seq<Bytes>, b: seq<Bytes>)
    ensures Over(step, state, a + b) == Over(step, Over(step, state, a), b)
  {
    if a == [] {
      assert a + b == b;
    } else {
      OverAppend(step, step(state, a[0]), a[1..], b);
      assert (a + b)[1..] == a[1..] + b;
    }
  }

  /** However the bytes were chunked, the consumer ends where one chunk holding them all would leave it. */
  lemma {:induction false} ChunkingIsInvisible<S>(step: (S, Bytes) -> S, state: S, chunks: seq<Bytes>)
    ensures Feed(step, state, chunks) == (Over(step, state, Events(Join(chunks))), Rest(Join(chunks)))
  {
    if chunks != [] {
      var n := |chunks| - 1;
      var before := Join(chunks[..n]);
      ChunkingIsInvisible(step, state, chunks[..n]);
      CutAppend(before, chunks[n]);
      OverAppend(step, state, Events(before), Events(Rest(before) + chunks[n]));
    }
  }
}
