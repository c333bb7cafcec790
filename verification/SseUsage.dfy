/**
 `SseUsageAccumulator`: token totals read off a stream of events as it passes. The totals do not
 depend on how the bytes were chunked, as long as the bytes pending never exceed 1 MiB.
 */
module SseUsage {
  import opened Wrappers
  import opened Seqs
  import opened Sse
  import opened Json
  import opened SseRewrite

  const MAX_PENDING: nat := 1048576

  const KEPT: nat := 65536

  datatype Totals = Totals(inputTokens: nat, outputTokens: nat, model: string)

  /** The stream library, and `str::trim` on the bytes of a string. */
  datatype UsageLib = UsageLib(stream: StreamLib, trim: Bytes -> Bytes)

  // ---------- one event ----------

  /** `data:` without its optional space. */
  const DATA_BARE: Bytes := [100, 97, 116, 97, 58]

  function SplitNl(b: Bytes): seq<Bytes>
    decreases |b|
  {
    match FindNl(b)
    case None => [b]
    case Some(i) => [b[..i]] + SplitNl(b[i + 1..])
  }

  function Payload(lib: UsageLib, line: Bytes): Option<Bytes> {
    if !lib.stream.utf8(line) then None
    else if DATA <= line then Some(line[6..])
    else if DATA_BARE <= line then Some(line[5..])
    else None
  }

  function WithPayload(data: Bytes, p: Bytes): Bytes {
    (if data == [] then [] else data + [NL]) + p
  }

  /** The payloads of the `data:` lines, joined by newlines. */
  function EventData(lib: UsageLib, lines: seq<Bytes>, data: Bytes): Bytes {
    if lines == [] then data
    else match Payload(lib, lines[0])
         case None => EventData(lib, lines[1..], data)
         case Some(p) => EventData(lib, lines[1..], WithPayload(data, p))
  }

  /** `as_u64() as u32`: the cast keeps the low 32 bits. */
  function Tokens(v: Option<Json>): Option<nat> {
    match v
    case Some(Number(_, Some(n))) => Some(n % 0x1_0000_0000)
    case _ => None
  }

  function Text(v: Option<Json>): Option<string> {
    match v case Some(Str(s)) => Some(s) case _ => None
  }

  function Or<T>(v: Option<T>, otherwise: T): T {
    match v case Some(x) => x case None => otherwise
  }

  /** The assignments of `process_event`, in source order: later ones win. */
  function Update(t: Totals, v: Json): Totals {
    var t1 := t.(inputTokens := Or(Tokens(Pointer(v, ["message", "usage", "input_tokens"])), t.inputTokens));
    var t2 := t1.(outputTokens := Or(Tokens(Pointer(v, ["message", "usage", "output_tokens"])), t1.outputTokens));
    var t3 := t2.(model := Or(Text(Pointer(v, ["message", "model"])), t2.model));
    var t4 := t3.(outputTokens := Or(Tokens(Pointer(v, ["usage", "output_tokens"])), t3.outputTokens));
    var t5 := t4.(inputTokens := Or(Tokens(Pointer(v, ["usage", "input_tokens"])), t4.inputTokens));
    var t6 := t5.(outputTokens := Or(Tokens(Pointer(v, ["usage", "completion_tokens"])), t5.outputTokens));
    var t7 := t6.(inputTokens := Or(Tokens(Pointer(v, ["usage", "prompt_tokens"])), t6.inputTokens));
    t7.(model := Or(Text(Pointer(v, ["model"])), t7.model))
  }

  function FirstOf<T>(options: seq<Option<T>>, otherwise: T): T {
    if options == [] then otherwise
    else match options[0] case Some(x) => x case None => FirstOf(options[1..], otherwise)
  }

  lemma {:induction false} FirstOfCons<T>(a: Option<T>, more: seq<Option<T>>, otherwise: T)
    ensures FirstOf([a] + more, otherwise) == Or(a, FirstOf(more, otherwise))
  {
    assert ([a] + more)[1..] == more;
  }

  lemma {:induction false} FirstOfTwo<T>(a: Option<T>, b: Option<T>, otherwise: T)
    ensures FirstOf([a, b], otherwise) == Or(a, Or(b, otherwise))
  {
    FirstOfCons(b, [], otherwise);
    FirstOfCons(a, [b], otherwise);
    assert [a] + [b] == [a, b] && [b] + [] == [b];
  }

  lemma {:induction false} FirstOfThree<T>(a: Option<T>, b: Option<T>, c: Option<T>, otherwise: T)
    ensures FirstOf([a, b, c], otherwise) == Or(a, Or(b, Or(c, otherwise)))
  {
    FirstOfTwo(b, c, otherwise);
    FirstOfCons(a, [b, c], otherwise);
    assert [a] + [b, c] == [a, b, c];
  }

  /** Where an event gives a count or a model twice: top-level `usage` beats the message's, OpenAI's names beat Anthropic's. */
  lemma {:induction false} UpdateMeans(t: Totals, v: Json)
    ensures Update(t, v).inputTokens == FirstOf([Tokens(Pointer(v, ["usage", "prompt_tokens"])),
                                                 Tokens(Pointer(v, ["usage", "input_tokens"])),
                                                 Tokens(Pointer(v, ["message", "usage", "input_tokens"]))], t.inputTokens)
    ensures Update(t, v).outputTokens == FirstOf([Tokens(Pointer(v, ["usage", "completion_tokens"])),
                                                  Tokens(Pointer(v, ["usage", "output_tokens"])),
                                                  Tokens(Pointer(v, ["message", "usage", "output_tokens"]))], t.outputTokens)
    ensures Update(t, v).model == FirstOf([Text(Pointer(v, ["model"])), Text(Pointer(v, ["message", "model"]))], t.model)
  {
    FirstOfThree(Tokens(Pointer(v, ["usage", "prompt_tokens"])), Tokens(Pointer(v, ["usage", "input_tokens"])),
                 Tokens(Pointer(v, ["message", "usage", "input_tokens"])), t.inputTokens);
    FirstOfThree(Tokens(Pointer(v, ["usage", "completion_tokens"])), Tokens(Pointer(v, ["usage", "output_tokens"])),
                 Tokens(Pointer(v, ["message", "usage", "output_tokens"])), t.outputTokens);
    FirstOfTwo(Text(Pointer(v, ["model"])), Text(Pointer(v, ["message", "model"])), t.model);
  }

  /** The data of an event: the payloads of its `data:` lines. */
  function DataOf(lib: UsageLib, event: Bytes): Bytes {
    EventData(lib, SplitNl(event), [])
  }

  function ProcessData(lib: UsageLib, t: Totals, data: Bytes): Totals {
    if data == [] || lib.trim(data) == DONE then t
    else match lib.stream.json.parse(data)
         case None => t
         case Some(v) => Update(t, v)
  }

  /** `process_event`: an event counts by its data alone. */
  function ProcessEvent(lib: UsageLib, t: Totals, event: Bytes): Totals {
    ProcessData(lib, t, DataOf(lib, event))
  }

  function Step(lib: UsageLib): (Totals, Bytes) -> Totals {
    (t, event) => ProcessEvent(lib, t, event)
  }

  // ---------- the stream ----------

  /** The guard against one huge unterminated event: past 1 MiB, only the last 64 KiB are kept. */
  function Guarded(buffer: Bytes): Bytes {
    if |buffer| > MAX_PENDING then buffer[|buffer| - KEPT..] else buffer
  }

  function FeedChunk(lib: UsageLib, t: Totals, pending: Bytes, chunk: Bytes): (Totals, Bytes) {
    Counted(lib, t, Guarded(pending + chunk))
  }

  /** Every complete event of the buffer processed, the rest kept. */
  function Counted(lib: UsageLib, t: Totals, buffer: Bytes): (Totals, Bytes) {
    (Over(Step(lib), t, Events(buffer)), Rest(buffer))
  }

  function FeedAll(lib: UsageLib, t: Totals, chunks: seq<Bytes>): (Totals, Bytes) {
    if chunks == [] then (t, [])
    else
      var (before, pending) := FeedAll(lib, t, chunks[..|chunks| - 1]);
      FeedChunk(lib, before, pending, chunks[|chunks| - 1])
  }

  /** The events that get processed, as they were when they were cut off, and what is pending at the end. */
  function EventsRead(chunks: seq<Bytes>): (seq<Bytes>, Bytes) {
    if chunks == [] then ([], [])
    else
      var (seen, pending) := EventsRead(chunks[..|chunks| - 1]);
      var buffer := Guarded(pending + chunks[|chunks| - 1]);
      (seen + Events(buffer), Rest(buffer))
  }

  /** The totals are those of the events read. */
  lemma {:induction false} TotalsOfEventsRead(lib: UsageLib, t: Totals, chunks: seq<Bytes>)
    ensures FeedAll(lib, t, chunks) == (Over(Step(lib), t, EventsRead(chunks).0), EventsRead(chunks).1)
  {
    if chunks != [] {
      var n := |chunks| - 1;
      TotalsOfEventsRead(lib, t, chunks[..n]);
      var (seen, pending) := EventsRead(chunks[..n]);
      OverAppend(Step(lib), t, seen, Events(Guarded(pending + chunks[n])));
    }
  }

  /** At chunk `i`, what is pending plus the chunk stays within 1 MiB. */
  ghost predicate WithinLimitAt(chunks: seq<Bytes>, i: nat)
    requires i < |chunks|
  {
    |Rest(Join(chunks[..i]))| + |chunks[i]| <= MAX_PENDING
  }

  ghost predicate WithinLimit(chunks: seq<Bytes>) {
    forall i :: 0 <= i < |chunks| ==> WithinLimitAt(chunks, i)
  }

  lemma {:induction false} LimitInPrefix(chunks: seq<Bytes>, n: nat, i: nat)
    requires i < n <= |chunks|
    ensures WithinLimitAt(chunks[..n], i) <==> WithinLimitAt(chunks, i)
  {
    assert chunks[..n][..i] == chunks[..i];
  }

  lemma {:induction false} WithinLimitSnoc(chunks: seq<Bytes>)
    requires chunks != []
    ensures var n := |chunks| - 1; WithinLimit(chunks) <==> WithinLimit(chunks[..n]) && WithinLimitAt(chunks, n)
  {
    var n := |chunks| - 1;
    forall i | 0 <= i < n ensures WithinLimitAt(chunks[..n], i) <==> WithinLimitAt(chunks, i) {
      LimitInPrefix(chunks, n, i);
    }
  }

  /** What was cut off and what is pending: never more bytes than came in, and as many iff the guard never fired. */
  lemma {:induction false} BytesRead(chunks: seq<Bytes>)
    ensures var (seen, pending) := EventsRead(chunks);
            && (WithinLimit(chunks) ==> seen == Events(Join(chunks)) && pending == Rest(Join(chunks)))
            && (!WithinLimit(chunks) ==> |Join(seen)| + |pending| < |Join(chunks)|)
  {
    if chunks != [] {
      var n := |chunks| - 1;
      BytesRead(chunks[..n]);
      WithinLimitSnoc(chunks);
      CutLosesNothing(Join(chunks[..n]));
      var (seen, pending) := EventsRead(chunks[..n]);
      var buffer := Guarded(pending + chunks[n]);
      JoinAppend(seen, Events(buffer));
      CutLosesNothing(buffer);
      CutAppend(Join(chunks[..n]), chunks[n]);
    }
  }

  /** Every event is read whole, and the unfinished tail kept, exactly while the limit is kept. */
  lemma {:induction false} ReadWholeIffWithinLimit(chunks: seq<Bytes>)
    ensures EventsRead(chunks) == (Events(Join(chunks)), Rest(Join(chunks))) <==> WithinLimit(chunks)
  {
    BytesRead(chunks);
    CutLosesNothing(Join(chunks));
  }

  /** Within the limit, the totals are those of the whole stream read event by event. */
  lemma {:induction false} TotalsIgnoreChunking(lib: UsageLib, t: Totals, chunks: seq<Bytes>)
    requires WithinLimit(chunks)
    ensures FeedAll(lib, t, chunks) == (Over(Step(lib), t, Events(Join(chunks))), Rest(Join(chunks)))
  {
    TotalsOfEventsRead(lib, t, chunks);
    ReadWholeIffWithinLimit(chunks);
  }

  // ---------- what the limit means for reads of 8 KiB ----------

  /** The length of the buffer that the proxy reads the upstream body into. */
  const READ: nat := 8192

  /** No event, and no unfinished tail, is longer than `n`. */
  ghost predicate FitsIn(b: Bytes, n: nat) {
    |Rest(b)| <= n && forall i :: 0 <= i < |Events(b)| ==> |Events(b)[i]| <= n
  }

  lemma {:induction false} FirstEventPassesRest(r: Bytes, more: Bytes)
    requires FindBlank(r).None? && FindBlank(r + more).Some?
    ensures FindBlank(r + more).value + 2 > |r|
  {
    FindBlankIsFirst(r + more);
    FindBlankIsFirst(r);
  }

  /** A pending piece is the start of an event, or of the tail. */
  lemma {:induction false} PendingFits(p: Bytes, more: Bytes, n: nat)
    requires FitsIn(p + more, n)
    ensures |Rest(p)| <= n
  {
    var b := Rest(p) + more;
    CutAppend(p, more);
    RestHasNoEvent(p);
    if FindBlank(b).Some? {
      FirstEventPassesRest(Rest(p), more);
      var e := b[..FindBlank(b).value + 2];
      assert Events(b) == [e] + Events(b[|e|..]);
      assert Events(p + more)[|Events(p)|] == e;
    }
  }

  lemma {:induction false} PendingAt(chunks: seq<Bytes>, i: nat, n: nat)
    requires i < |chunks| && FitsIn(Join(chunks), n)
    ensures |Rest(Join(chunks[..i]))| <= n
  {
    JoinAppend(chunks[..i], chunks[i..]);
    assert chunks == chunks[..i] + chunks[i..];
    PendingFits(Join(chunks[..i]), Join(chunks[i..]), n);
  }

  /** Streams whose events, and tail, are 8 KiB short of the limit are read whole. */
  lemma {:induction false} ShortEventsAreReadWhole(chunks: seq<Bytes>)
    requires forall i :: 0 <= i < |chunks| ==> |chunks[i]| <= READ
    requires FitsIn(Join(chunks), MAX_PENDING - READ)
    ensures EventsRead(chunks) == (Events(Join(chunks)), Rest(Join(chunks)))
  {
    forall i | 0 <= i < |chunks| ensures |Rest(Join(chunks[..i]))| <= MAX_PENDING - READ {
      PendingAt(chunks, i, MAX_PENDING - READ);
    }
    ReadWholeIffWithinLimit(chunks);
  }

  lemma {:induction false} CutFits(b: Bytes)
    ensures FitsIn(b, |b|)
    decreases |b|
  {
    if FindBlank(b).Some? {
      var n := FindBlank(b).value + 2;
      CutFits(b[n..]);
      assert Events(b) == [b[..n]] + Events(b[n..]);
    }
  }

  lemma {:induction false} WithinLimitFits(chunks: seq<Bytes>)
    requires WithinLimit(chunks)
    ensures FitsIn(Join(chunks), MAX_PENDING)
  {
    if chunks != [] {
      var n := |chunks| - 1;
      var p := Join(chunks[..n]);
      WithinLimitSnoc(chunks);
      WithinLimitFits(chunks[..n]);
      CutAppend(p, chunks[n]);
      CutFits(Rest(p) + chunks[n]);
    }
  }

  /** A stream with an event, or a tail, of more than 1 MiB is never read whole, however small the chunks are. */
  lemma {:induction false} LongEventIsNeverReadWhole(chunks: seq<Bytes>)
    requires !FitsIn(Join(chunks), MAX_PENDING)
    ensures EventsRead(chunks) != (Events(Join(chunks)), Rest(Join(chunks)))
  {
    ReadWholeIffWithinLimit(chunks);
    if WithinLimit(chunks) { WithinLimitFits(chunks); }
  }

  lemma {:induction false} OverFirst(lib: UsageLib, t: Totals, event: Bytes, more: seq<Bytes>)
    ensures Over(Step(lib), t, [event] + more) == Over(Step(lib), ProcessEvent(lib, t, event), more)
  {
    assert ([event] + more)[1..] == more;
  }

  lemma {:induction false} CountOne(lib: UsageLib, t: Totals, buffer: Bytes, n: nat)
    requires FindBlank(buffer) == Some(n)
    ensures Counted(lib, t, buffer) == Counted(lib, ProcessEvent(lib, t, buffer[..n + 2]), buffer[n + 2..])
  {
    OverFirst(lib, t, buffer[..n + 2], Events(buffer[n + 2..]));
  }

  lemma {:induction false} NoneLeft(lib: UsageLib, t: Totals, buffer: Bytes)
    requires FindBlank(buffer).None?
    ensures Counted(lib, t, buffer) == (t, buffer)
  {
  }

  class SseUsageAccumulator {
    const lib: UsageLib
    var buffer: Bytes
    var totals: Totals

    constructor (lib: UsageLib)
      ensures this.lib == lib && buffer == [] && totals == Totals(0, 0, "")
    {
      this.lib, buffer, totals := lib, [], Totals(0, 0, "");
    }

    /** `feed`: buffer, guard, then process every complete event. */
    method Feed(chunk: Bytes)
      modifies this
      ensures (totals, buffer) == FeedChunk(lib, old(totals), old(buffer), chunk)
    {
      buffer := buffer + chunk;
      if |buffer| > MAX_PENDING {
        var dropN := |buffer| - KEPT;
        buffer := buffer[dropN..];
      }
      Drain();
    }

    /** The loop over complete events. */
    method Drain()
      modifies this
      ensures (totals, buffer) == Counted(lib, old(totals), old(buffer))
    {
      ghost var counted := Counted(lib, totals, buffer);
      var end := FindBlank(buffer);
      while end.Some?
        invariant end == FindBlank(buffer) && Counted(lib, totals, buffer) == counted
        decreases |buffer|
      {
        CountOne(lib, totals, buffer, end.value);
        var event := buffer[..end.value + 2];
        buffer := buffer[end.value + 2..];
        totals := ProcessEvent(lib, totals, event);
        end := FindBlank(buffer);
      }
      NoneLeft(lib, totals, buffer);
    }
  }
}
