/**
 What the usage counter makes of events that outgrow its 1 MiB buffer: it processes a suffix of them,
 and no other event suffers. Whether that suffix is counted like the event, dropped, or counted as
 something else depends on where the event's `data:` lines stand.
 */
module SseLongEvents {
  import opened Wrappers
  import opened Seqs
  import opened Sse
  import opened SseRewrite
  import opened SseUsage

  // ---------- every stream, read in short chunks ----------

  predicate IsSuffix(part: Bytes, whole: Bytes) {
    |part| <= |whole| && part == whole[|whole| - |part|..]
  }

  /** An event is processed as a suffix of itself: all of it when it is short, less than all when it is long. */
  ghost predicate ReadAs(event: Bytes, read: Bytes) {
    && IsSuffix(read, event)
    && (|event| <= MAX_PENDING - READ ==> read == event)
    && (|event| > MAX_PENDING ==> read != event)
  }

  ghost predicate AllReadAs(events: seq<Bytes>, parts: seq<Bytes>) {
    |parts| == |events| && forall i :: 0 <= i < |events| ==> ReadAs(events[i], parts[i])
  }

  /** What is pending of the unfinished `rest`: all of it, or, once it is long, at least 64 KiB of its end. */
  ghost predicate PendingOf(rest: Bytes, pending: Bytes) {
    IsSuffix(pending, rest) && (pending == rest || (|pending| >= KEPT && |rest| > MAX_PENDING - READ))
  }

  lemma {:induction false} DropFront(b: Bytes, k: nat)
    requires k <= |b| && (FindBlank(b).Some? ==> k <= FindBlank(b).value)
    ensures FindBlank(b[k..]) == match FindBlank(b) case Some(i) => Some(i - k) case None => None
  {
    if k > 0 {
      DropFront(b[1..], k - 1);
      assert b[1..][k - 1..] == b[k..];
    } else {
      assert b[0..] == b;
    }
  }

  /** A chunk behind a suffix of `r` ends the same event as behind `r`. */
  lemma {:induction false} BlankBehind(r: Bytes, k: nat, c: Bytes)
    requires FindBlank(r).None? && k <= |r| && (k == 0 || k < |r|)
    ensures FindBlank(r[k..] + c) == match FindBlank(r + c) case Some(i) => (if k <= i then Some(i - k) else None) case None => None
    ensures FindBlank(r + c).Some? ==> FindBlank(r + c).value + 2 > |r| && k <= FindBlank(r + c).value
  {
    if FindBlank(r + c).Some? { FirstEventPassesRest(r, c); }
    DropFront(r + c, k);
    DropJoined(r, c, k);
  }

  lemma {:induction false} DropJoined(a: Bytes, b: Bytes, k: nat)
    requires k <= |a|
    ensures (a + b)[k..] == a[k..] + b
  {
  }

  lemma {:induction false} CutJoined(a: Bytes, b: Bytes, k: nat)
    requires k <= |b|
    ensures (a + b)[..|a| + k] == a + b[..k] && (a + b)[|a| + k..] == b[k..]
  {
  }

  lemma {:induction false} EventsBehind(r: Bytes, k: nat, c: Bytes) returns (e: Bytes, more: Bytes)
    requires FindBlank(r).None? && k <= |r| && (k == 0 || k < |r|) && FindBlank(r + c).Some?
    ensures k <= |e| && r + c == e + more && |r| < |e|
    ensures Events(r + c) == [e] + Events(more) && Rest(r + c) == Rest(more)
    ensures Events(r[k..] + c) == [e[k..]] + Events(more) && Rest(r[k..] + c) == Rest(more)
  {
    BlankBehind(r, k, c);
    var b, n := r + c, FindBlank(r + c).value + 2;
    e, more := b[..n], b[n..];
    assert b == e + more;
    DropJoined(r, c, k);
    DropJoined(e, more, k);
    FirstEvent(b, e, more);
    FirstEvent(r[k..] + c, e[k..], more);
  }

  /** The guard drops nothing, or bytes from the front of what is pending only. */
  lemma {:induction false} GuardDrops(rest: Bytes, pending: Bytes, c: Bytes) returns (k: nat)
    requires PendingOf(rest, pending) && |c| <= READ
    ensures k <= |rest| && Guarded(pending + c) == rest[k..] + c
    ensures k == 0 || (|rest| - k + |c| >= KEPT && |rest| > MAX_PENDING - READ)
    ensures |rest| + |c| > MAX_PENDING ==> k > 0
  {
    var dropped := |rest| - |pending|;
    if |pending + c| > MAX_PENDING {
      k := |rest| + |c| - KEPT;
      assert (pending + c)[|pending + c| - KEPT..] == rest[k..] + c;
    } else {
      k := dropped;
    }
  }

  lemma {:induction false} EndReadAs(rest: Bytes, k: nat, c: Bytes, e: Bytes)
    requires |rest| < |e| <= |rest| + |c| && k <= |rest| && |c| <= READ
    requires k == 0 || |rest| > MAX_PENDING - READ
    requires |rest| + |c| > MAX_PENDING ==> k > 0
    ensures AllReadAs([e], [e[k..]])
  {
    assert e[|e| - |e[k..]|..] == e[k..];
    if k == 0 { assert e[0..] == e; }
  }

  lemma {:induction false} EndingReadAs(rest: Bytes, k: nat, c: Bytes)
    requires FindBlank(rest).None? && k <= |rest| && |c| <= READ && FindBlank(rest + c).Some?
    requires k == 0 || (|rest| - k + |c| >= KEPT && |rest| > MAX_PENDING - READ)
    requires |rest| + |c| > MAX_PENDING ==> k > 0
    ensures AllReadAs(Events(rest + c), Events(rest[k..] + c)) && PendingOf(Rest(rest + c), Rest(rest[k..] + c))
  {
    var e, more := EventsBehind(rest, k, c);
    assert |more| <= |c|;
    CutEvents(more, |c|);
    EndReadAs(rest, k, c, e);
    AllReadAsAppend([e], [e[k..]], Events(more), Events(more));
  }

  lemma {:induction false} ChunkReadAs(rest: Bytes, pending: Bytes, c: Bytes)
    requires FindBlank(rest).None? && PendingOf(rest, pending) && |c| <= READ
    ensures var buffer := Guarded(pending + c);
            AllReadAs(Events(rest + c), Events(buffer)) && PendingOf(Rest(rest + c), Rest(buffer))
  {
    var k := GuardDrops(rest, pending, c);
    if FindBlank(rest + c).Some? {
      EndingReadAs(rest, k, c);
    } else {
      PendingReadAs(rest, k, c);
    }
  }

  lemma {:induction false} PendingReadAs(rest: Bytes, k: nat, c: Bytes)
    requires FindBlank(rest).None? && k <= |rest| && |c| <= READ && FindBlank(rest + c).None?
    requires k == 0 || (|rest| - k + |c| >= KEPT && |rest| > MAX_PENDING - READ)
    ensures AllReadAs(Events(rest + c), Events(rest[k..] + c)) && PendingOf(Rest(rest + c), Rest(rest[k..] + c))
  {
    BlankBehind(rest, k, c);
    var b, s := rest + c, rest[k..] + c;
    assert Rest(b) == b && Rest(s) == s && Events(b) == [] && Events(s) == [];
    assert s == b[|b| - |s|..];
    if k == 0 { assert rest[0..] == rest; }
  }

  /** Events that lie in a chunk are short, and read whole. */
  lemma {:induction false} CutEvents(b: Bytes, n: nat)
    requires |b| <= n <= READ
    ensures AllReadAs(Events(b), Events(b)) && PendingOf(Rest(b), Rest(b))
  {
    CutFits(b);
    forall i | 0 <= i < |Events(b)| ensures ReadAs(Events(b)[i], Events(b)[i]) {
      assert |Events(b)[i]| <= |b|;
    }
  }

  lemma {:induction false} AllReadAsAppend(a: seq<Bytes>, ra: seq<Bytes>, b: seq<Bytes>, rb: seq<Bytes>)
    requires AllReadAs(a, ra) && AllReadAs(b, rb)
    ensures AllReadAs(a + b, ra + rb)
  {
  }

  /**
   Over every stream read in chunks of at most 8 KiB: as many events are processed as the stream has, in
   order, each as a suffix of itself. Events that are 8 KiB short of the limit are processed whole, and
   events of more than 1 MiB never are.
   */
  lemma {:induction false} EventsAreReadAsSuffixes(chunks: seq<Bytes>)
    requires forall i :: 0 <= i < |chunks| ==> |chunks[i]| <= READ
    ensures AllReadAs(Events(Join(chunks)), EventsRead(chunks).0)
    ensures PendingOf(Rest(Join(chunks)), EventsRead(chunks).1)
  {
    if chunks != [] {
      var n := |chunks| - 1;
      EventsAreReadAsSuffixes(chunks[..n]);
      var p := Join(chunks[..n]);
      var (seen, pending) := EventsRead(chunks[..n]);
      RestHasNoEvent(p);
      ChunkReadAs(Rest(p), pending, chunks[n]);
      CutAppend(p, chunks[n]);
      AllReadAsAppend(Events(p), seen, Events(Rest(p) + chunks[n]), Events(Guarded(pending + chunks[n])));
    }
  }

  // ---------- one event, in any chunks ----------

  /** How much the guard has dropped of an event that came in these chunks. */
  function Cut(chunks: seq<Bytes>): (n: nat)
    ensures n <= |Join(chunks)|
  {
    if chunks == [] then 0
    else
      var before, came := Cut(chunks[..|chunks| - 1]), |Join(chunks)|;
      if came - before > MAX_PENDING then came - KEPT else before
  }

  lemma {:induction false} SuffixCut(event: Bytes, from: nat, to: nat)
    requires IsEvent(event) && from <= to <= |event| && (to == |event| ==> from + 2 <= |event|)
    ensures var b := event[from..to];
            if to < |event| then Events(b) == [] && Rest(b) == b
            else b == event[from..] && Events(b) == [b] && Rest(b) == []
  {
    var b := event[from..to];
    FindBlankIsFirst(event);
    FindBlankIsFirst(b);
    assert forall i :: 0 <= i < |b| ==> b[i] == event[from + i];
    if to == |event| {
      assert FindBlank(b) == Some(|b| - 2) by {
        assert b[|b| - 2] == NL && b[|b| - 1] == NL;
      }
      assert b[..|b|] == b && b[|b|..] == [];
      assert Events([]) == [] && Rest([]) == [];
    }
  }

  /** While an event comes in, what was not dropped is pending; once it is complete, it is processed. */
  ghost predicate Arriving(event: Bytes, chunks: seq<Bytes>) {
    var came, cut := |Join(chunks)|, Cut(chunks);
    && came <= |event| && Join(chunks) == event[..came]
    && (cut == 0 || (MAX_PENDING - KEPT < cut && cut + KEPT <= came))
    && (came > MAX_PENDING ==> cut > 0)
    && EventsRead(chunks) == if came < |event| then ([], event[cut..came]) else ([event[cut..]], [])
  }

  lemma {:induction false} ReadBehindCut(event: Bytes, before: nat, came: nat, to: nat, cut: nat)
    requires IsEvent(event) && |event| > MAX_PENDING && before <= came <= to <= |event| && came < |event|
    requires before == 0 || before + KEPT <= came
    requires cut == if to - before > MAX_PENDING then to - KEPT else before
    ensures var buffer := Guarded(event[before..came] + event[came..to]);
            (Events(buffer), Rest(buffer)) == if to < |event| then ([], event[cut..to]) else ([event[cut..]], [])
  {
    assert event[before..came] + event[came..to] == event[before..to];
    assert Guarded(event[before..to]) == event[cut..to];
    SuffixCut(event, cut, to);
  }

  lemma {:induction false} CutStep(event: Bytes, chunks: seq<Bytes>)
    requires chunks != [] && Join(chunks) <= event && Arriving(event, chunks[..|chunks| - 1])
    ensures var came, cut := |Join(chunks)|, Cut(chunks);
            && Join(chunks) == event[..came]
            && (cut == 0 || (MAX_PENDING - KEPT < cut && cut + KEPT <= came))
            && (came > MAX_PENDING ==> cut > 0)
            && chunks[|chunks| - 1] == event[|Join(chunks[..|chunks| - 1])|..came]
  {
  }

  lemma {:induction false} NextArrives(event: Bytes, chunks: seq<Bytes>)
    requires IsEvent(event) && |event| > MAX_PENDING && chunks != []
    requires Arriving(event, chunks[..|chunks| - 1]) && Join(chunks) <= event
    ensures Arriving(event, chunks)
  {
    var init, c := chunks[..|chunks| - 1], chunks[|chunks| - 1];
    var before, came, to := Cut(init), |Join(init)|, |Join(chunks)|;
    var (seen, pending) := EventsRead(init);
    var buffer := Guarded(pending + c);
    CutStep(event, chunks);
    assert EventsRead(chunks) == (seen + Events(buffer), Rest(buffer));
    if came == |event| {
      assert buffer == [] && Events(buffer) == [] && Rest(buffer) == [];
      assert seen + Events(buffer) == seen;
    } else {
      ReadBehindCut(event, before, came, to, Cut(chunks));
      assert seen == [] && seen + Events(buffer) == Events(buffer);
    }
  }

  lemma {:induction false} EventArrives(event: Bytes, chunks: seq<Bytes>)
    requires IsEvent(event) && |event| > MAX_PENDING && Join(chunks) <= event
    ensures Arriving(event, chunks)
  {
    if chunks != [] {
      EventArrives(event, chunks[..|chunks| - 1]);
      NextArrives(event, chunks);
    }
  }

  lemma {:induction false} OverOne(lib: UsageLib, t: Totals, event: Bytes)
    ensures Over(Step(lib), t, [event]) == ProcessEvent(lib, t, event)
  {
    assert [event][1..] == [];
  }

  /** However it is chunked, an event of more than 1 MiB is processed as what is left of it behind the cut. */
  lemma {:induction false} LongEventTotals(lib: UsageLib, t: Totals, event: Bytes, chunks: seq<Bytes>)
    requires IsEvent(event) && |event| > MAX_PENDING && Join(chunks) == event
    ensures MAX_PENDING - KEPT < Cut(chunks) <= |event| - KEPT
    ensures FeedAll(lib, t, chunks) == (ProcessEvent(lib, t, event[Cut(chunks)..]), [])
  {
    EventArrives(event, chunks);
    TotalsOfEventsRead(lib, t, chunks);
    OverOne(lib, t, event[Cut(chunks)..]);
  }

  // ---------- the data of a suffix ----------

  lemma {:induction false} FindNlAppend(a: Bytes, b: Bytes)
    ensures FindNl(a + b) == match FindNl(a)
                             case Some(i) => Some(i)
                             case None => (match FindNl(b) case Some(j) => Some(|a| + j) case None => None)
  {
    if a == [] {
      assert a + b == b;
    } else if a[0] != NL {
      FindNlAppend(a[1..], b);
      assert (a + b)[1..] == a[1..] + b;
    }
  }

  function Last(lines: seq<Bytes>): Bytes
    requires lines != []
  {
    lines[|lines| - 1]
  }

  function ButLast(lines: seq<Bytes>): seq<Bytes>
    requires lines != []
  {
    lines[..|lines| - 1]
  }

  /** The lines of `a` and those of `b`, where the last of the former and the first of the latter are one line. */
  function Spliced(a: seq<Bytes>, b: seq<Bytes>): seq<Bytes>
    requires a != [] && b != []
  {
    ButLast(a) + ([Last(a) + b[0]] + b[1..])
  }

  lemma {:induction false} SplicedCons(line: Bytes, a: seq<Bytes>, b: seq<Bytes>)
    requires a != [] && b != []
    ensures Spliced([line] + a, b) == [line] + Spliced(a, b)
  {
    assert ButLast([line] + a) == [line] + ButLast(a);
  }

  lemma {:induction false} SplitIsSome(b: Bytes)
    ensures SplitNl(b) != []
    decreases |b|
  {
  }

  lemma {:induction false} SplicedOne(a: Bytes, lines: seq<Bytes>, line: Bytes, more: seq<Bytes>)
    requires lines == [line] + more
    ensures Spliced([a], lines) == [a + line] + more
  {
    assert ButLast([a]) == [] && lines[1..] == more;
  }

  lemma {:induction false} SplitAtNl(b: Bytes, line: Bytes, more: Bytes)
    requires FindNl(b) == Some(|line|) && b[..|line|] == line && b[|line| + 1..] == more
    ensures SplitNl(b) == [line] + SplitNl(more)
  {
  }

  lemma {:induction false} SplitInLine(a: Bytes, b: Bytes, none: seq<Bytes>)
    requires FindNl(a).None? && SplitNl(b) != [] && none == []
    ensures SplitNl(a + b) == Spliced([a], SplitNl(b))
  {
    FindNlAppend(a, b);
    if FindNl(b).Some? {
      var j := FindNl(b).value;
      var line, more := b[..j], b[j + 1..];
      CutJoined(a, b, j);
      CutJoined(a, b, j + 1);
      SplitAtNl(b, line, more);
      SplitAtNl(a + b, a + line, more);
      SplicedOne(a, SplitNl(b), line, SplitNl(more));
    } else {
      assert SplitNl(b) == [b] + none && SplitNl(a + b) == [a + b] + none;
      SplicedOne(a, SplitNl(b), b, none);
    }
  }

  lemma {:induction false} SplitAppend(a: Bytes, b: Bytes)
    ensures SplitNl(a) != [] && SplitNl(b) != [] && SplitNl(a + b) == Spliced(SplitNl(a), SplitNl(b))
    decreases |a|
  {
    SplitIsSome(a);
    SplitIsSome(b);
    match FindNl(a) {
      case None => SplitInLine(a, b, []);
      case Some(i) =>
        var line, more := a[..i], a[i + 1..];
        SplitAppend(more, b);
        FindNlAppend(a, b);
        DropJoined(a, b, i + 1);
        assert (a + b)[..i] == line;
        SplitAtNl(a, line, more);
        SplitAtNl(a + b, line, more + b);
        SplicedCons(line, SplitNl(more), SplitNl(b));
    }
  }

  lemma {:induction false} DataAppend(lib: UsageLib, a: seq<Bytes>, b: seq<Bytes>, data: Bytes)
    ensures EventData(lib, a + b, data) == EventData(lib, b, EventData(lib, a, data))
  {
    if a == [] {
      assert a + b == b;
    } else {
      assert (a + b)[1..] == a[1..] + b;
      match Payload(lib, a[0]) {
        case None => DataAppend(lib, a[1..], b, data);
        case Some(p) => DataAppend(lib, a[1..], b, WithPayload(data, p));
      }
    }
  }

  lemma {:induction false} WithPayloadDiffers(x: Bytes, y: Bytes, p: Bytes)
    ensures WithPayload(x, p) == WithPayload(y, p) <==> x == y
  {
    var a, b := WithPayload(x, p), WithPayload(y, p);
    if x != [] && y != [] && a == b {
      assert |x| == |y|;
      assert a[..|x|] == x && b[..|y|] == y;
    }
  }

  /** The same lines behind different data give different data. */
  lemma {:induction false} DataDiffers(lib: UsageLib, lines: seq<Bytes>, x: Bytes, y: Bytes)
    ensures EventData(lib, lines, x) == EventData(lib, lines, y) <==> x == y
  {
    if lines != [] {
      match Payload(lib, lines[0]) {
        case None => DataDiffers(lib, lines[1..], x, y);
        case Some(p) =>
          WithPayloadDiffers(x, y, p);
          DataDiffers(lib, lines[1..], WithPayload(x, p), WithPayload(y, p));
      }
    }
  }

  /** The lines of an event that start before the cut; the cut goes through the last of them. */
  function LinesBefore(event: Bytes, cut: nat): seq<Bytes>
    requires cut <= |event|
  {
    SplitAppend(event[..cut], event[cut..]);
    ButLast(SplitNl(event[..cut])) + [Last(SplitNl(event[..cut])) + SplitNl(event[cut..])[0]]
  }

  /** What is left of the line that is cut. */
  function Fragment(event: Bytes, cut: nat): Bytes
    requires cut <= |event|
  {
    SplitAppend(event[..cut], event[cut..]);
    SplitNl(event[cut..])[0]
  }

  /** The lines that start behind the cut. */
  function LinesBehind(event: Bytes, cut: nat): seq<Bytes>
    requires cut <= |event|
  {
    SplitAppend(event[..cut], event[cut..]);
    SplitNl(event[cut..])[1..]
  }

  lemma {:induction false} LinesAtCut(event: Bytes, cut: nat)
    requires cut <= |event|
    ensures SplitNl(event) == LinesBefore(event, cut) + LinesBehind(event, cut)
    ensures SplitNl(event[cut..]) == [Fragment(event, cut)] + LinesBehind(event, cut)
  {
    var a, b := SplitNl(event[..cut]), SplitNl(event[cut..]);
    SplitAppend(event[..cut], event[cut..]);
    assert event == event[..cut] + event[cut..];
    Associates(ButLast(a), [Last(a) + b[0]], b[1..]);
  }

  /** What is left behind the cut has the data of the whole event iff the fragment has that of the lines before. */
  lemma {:induction false} CutKeepsData(lib: UsageLib, event: Bytes, cut: nat, none: Bytes)
    requires cut <= |event| && none == []
    ensures DataOf(lib, event[cut..]) == DataOf(lib, event) <==>
            EventData(lib, [Fragment(event, cut)], none) == EventData(lib, LinesBefore(event, cut), none)
  {
    LinesAtCut(event, cut);
    DataAppend(lib, LinesBefore(event, cut), LinesBehind(event, cut), none);
    DataAppend(lib, [Fragment(event, cut)], LinesBehind(event, cut), none);
    DataDiffers(lib, LinesBehind(event, cut), EventData(lib, [Fragment(event, cut)], none), EventData(lib, LinesBefore(event, cut), none));
  }

  ghost predicate NoData(lib: UsageLib, lines: seq<Bytes>) {
    forall i :: 0 <= i < |lines| ==> Payload(lib, lines[i]).None?
  }

  lemma {:induction false} NoDataAdded(lib: UsageLib, lines: seq<Bytes>, data: Bytes)
    requires NoData(lib, lines)
    ensures EventData(lib, lines, data) == data
  {
    if lines != [] { NoDataAdded(lib, lines[1..], data); }
  }

  /**
   An event of more than 1 MiB, in any chunks. It counts like the event read whole if what is left has
   the same data, which is so iff the fragment has the data of the lines that start before the cut; in
   particular if neither holds any. If no `data:` line is left, it does not count.
   */
  lemma {:induction false} LongEventLaw(lib: UsageLib, t: Totals, event: Bytes, chunks: seq<Bytes>, none: Bytes)
    requires IsEvent(event) && |event| > MAX_PENDING && Join(chunks) == event && none == []
    ensures var cut := Cut(chunks);
            && MAX_PENDING - KEPT < cut <= |event| - KEPT
            && FeedAll(lib, t, chunks) == (ProcessData(lib, t, DataOf(lib, event[cut..])), [])
            && (DataOf(lib, event[cut..]) == DataOf(lib, event) <==>
                EventData(lib, [Fragment(event, cut)], none) == EventData(lib, LinesBefore(event, cut), none))
            && (NoData(lib, LinesBefore(event, cut)) && Payload(lib, Fragment(event, cut)).None? ==>
                  FeedAll(lib, t, chunks) == (ProcessEvent(lib, t, event), []))
            && (NoData(lib, LinesBehind(event, cut)) && Payload(lib, Fragment(event, cut)).None? ==>
                  FeedAll(lib, t, chunks) == (t, []))
  {
    var cut := Cut(chunks);
    LongEventTotals(lib, t, event, chunks);
    CutKeepsData(lib, event, cut, none);
    LinesAtCut(event, cut);
    if NoData(lib, LinesBefore(event, cut)) && Payload(lib, Fragment(event, cut)).None? {
      NoDataAdded(lib, LinesBefore(event, cut), none);
      NoDataAdded(lib, [Fragment(event, cut)], none);
    }
    if NoData(lib, LinesBehind(event, cut)) && Payload(lib, Fragment(event, cut)).None? {
      NoDataAdded(lib, [Fragment(event, cut)] + LinesBehind(event, cut), none);
    }
  }

  // ---------- three long events ----------

  predicate NoNl(text: Bytes) {
    forall i :: 0 <= i < |text| ==> text[i] != NL
  }

  /** `data:` stands nowhere in the text. */
  ghost predicate NoDataIn(text: Bytes) {
    forall i :: 0 <= i <= |text| ==> !(DATA_BARE <= text[i..])
  }

  lemma {:induction false} FindNlOfText(text: Bytes, more: Bytes)
    requires NoNl(text)
    ensures FindNl(text).None?
    ensures more != [] && more[0] == NL ==> FindNl(text + more) == Some(|text|)
  {
    if text == [] {
      assert text + more == more;
    } else {
      FindNlOfText(text[1..], more);
      assert (text + more)[1..] == text[1..] + more;
    }
  }

  lemma {:induction false} SplitText(text: Bytes, none: Bytes)
    requires NoNl(text) && none == []
    ensures SplitNl(text + [NL, NL]) == [text, none, none]
  {
    var e := text + [NL, NL];
    FindNlOfText(text, [NL, NL]);
    assert e[..|text|] == text && e[|text| + 1..] == [NL];
    assert FindNl([NL]) == Some(0) && FindNl(none) == None;
    assert [NL][..0] == none && [NL][1..] == none;
    assert SplitNl(none) == [none];
    assert SplitNl([NL]) == [none, none];
  }

  /** The data of an event of one line. */
  lemma {:induction false} DataOfText(lib: UsageLib, text: Bytes, none: Bytes)
    requires NoNl(text) && none == []
    ensures DataOf(lib, text + [NL, NL]) == Or(Payload(lib, text), none)
  {
    SplitText(text, none);
    var lines := [text, none, none];
    assert lines[1..] == [none, none] && [none, none][1..] == [none] && [none][1..] == [];
    assert Payload(lib, none) == None;
    var data := Or(Payload(lib, text), none);
    assert EventData(lib, [none], data) == data;
    assert EventData(lib, [none, none], data) == data;
    if Payload(lib, text).Some? { assert none + Payload(lib, text).value == Payload(lib, text).value; }
  }

  lemma {:induction false} TextIsEvent(text: Bytes)
    requires NoNl(text)
    ensures IsEvent(text + [NL, NL])
  {
    FindBlankIsFirst(text + [NL, NL]);
    assert (text + [NL, NL])[|text|] == NL && (text + [NL, NL])[|text| + 1] == NL;
  }

  lemma {:induction false} EventAlone(e: Bytes)
    requires IsEvent(e)
    ensures Events(e) == [e]
  {
    assert e[..|e|] == e && e[|e|..] == [];
    assert Events([]) == [];
  }

  lemma {:induction false} DataLine(body: Bytes)
    requires NoNl(body)
    ensures NoNl(DATA + body) && DATA <= DATA + body && (DATA + body)[6..] == body
  {
    forall i | 0 <= i < |DATA + body| ensures (DATA + body)[i] != NL {
      if i >= |DATA| { assert (DATA + body)[i] == body[i - |DATA|]; } else { assert (DATA + body)[i] == DATA[i]; }
    }
  }

  /**
   Lost: the counts of an event of one `data: ` line, with no other `data:` in it, that outgrows the
   buffer are lost, however it is chunked. Read whole, it would have been an update.
   */
  lemma {:induction false} LongEventIsNotCounted(lib: UsageLib, t: Totals, body: Bytes, chunks: seq<Bytes>)
    requires NoNl(body) && NoDataIn(body) && |DATA + body| + 2 > MAX_PENDING
    requires Join(chunks) == DATA + body + [NL, NL]
    ensures FeedAll(lib, t, chunks) == (t, [])
    ensures Events(Join(chunks)) == [DATA + body + [NL, NL]]
    ensures lib.stream.utf8(DATA + body) && lib.trim(body) != DONE && lib.stream.json.parse(body).Some? ==>
              Over(Step(lib), t, Events(Join(chunks))) == Update(t, lib.stream.json.parse(body).value)
  {
    var text, cut := DATA + body, Cut(chunks);
    DataLine(body);
    TextIsEvent(text);
    EventAlone(text + [NL, NL]);
    LongEventTotals(lib, t, text + [NL, NL], chunks);
    var left := text[cut..];
    DropJoined(text, [NL, NL], cut);
    assert left == body[cut - |DATA|..];
    NotDataLine(lib, left);
    DataOfText(lib, left, []);
    OverOne(lib, t, text + [NL, NL]);
    DataOfText(lib, text, []);
  }

  lemma {:induction false} NotDataLine(lib: UsageLib, line: Bytes)
    requires !(DATA_BARE <= line)
    ensures Payload(lib, line).None?
  {
    assert DATA_BARE == DATA[..5];
  }

  /** The chunks of a body that is read 8 KiB at a time. */
  function Reads(b: Bytes): (r: seq<Bytes>)
    ensures forall i :: 0 <= i < |r| ==> |r[i]| <= READ
  {
    if |b| <= READ then [b] else [b[..READ]] + Reads(b[READ..])
  }

  lemma {:induction false} ReadsJoin(b: Bytes)
    ensures Join(Reads(b)) == b
  {
    if |b| <= READ {
      assert [b][..0] == [];
    } else {
      ReadsJoin(b[READ..]);
      JoinCons(b[..READ], Reads(b[READ..]));
      assert b == b[..READ] + b[READ..];
    }
  }

  /** In particular when it is read 8 KiB at a time. */
  lemma {:induction false} LongEventInShortReads(lib: UsageLib, t: Totals, body: Bytes)
    requires NoNl(body) && NoDataIn(body) && |DATA + body| + 2 > MAX_PENDING
    ensures FeedAll(lib, t, Reads(DATA + body + [NL, NL])) == (t, [])
  {
    ReadsJoin(DATA + body + [NL, NL]);
    LongEventIsNotCounted(lib, t, body, Reads(DATA + body + [NL, NL]));
  }

  /** Counted right: a long line without `data:`, a comment say, in front of everything that counts. */
  lemma {:induction false} LongCommentIsHarmless(lib: UsageLib, t: Totals, comment: Bytes, more: Bytes, chunks: seq<Bytes>)
    requires NoNl(comment) && NoDataIn(comment) && |more| < KEPT
    requires IsEvent(comment + ([NL] + more)) && |comment + ([NL] + more)| > MAX_PENDING
    requires Join(chunks) == comment + ([NL] + more)
    ensures FeedAll(lib, t, chunks) == (ProcessEvent(lib, t, Join(chunks)), [])
  {
    var event, cut := comment + ([NL] + more), Cut(chunks);
    LongEventLaw(lib, t, event, chunks, []);
    FirstLineCut(comment, [NL] + more, cut);
    NotDataLine(lib, comment[cut..]);
    assert comment[0..] == comment;
    NotDataLine(lib, comment);
  }

  lemma {:induction false} FirstLineCut(line: Bytes, more: Bytes, cut: nat)
    requires NoNl(line) && cut <= |line| && more != [] && more[0] == NL
    ensures LinesBefore(line + more, cut) == [line] && Fragment(line + more, cut) == line[cut..]
  {
    var event := line + more;
    assert event[..cut] == line[..cut] && event[cut..] == line[cut..] + more;
    FindNlOfText(line[..cut], []);
    FindNlOfText(line[cut..], more);
    assert (line[cut..] + more)[..|line[cut..]|] == line[cut..];
    assert SplitNl(line[..cut]) == [line[..cut]];
    assert line[..cut] + line[cut..] == line;
    SplitAppend(event[..cut], event[cut..]);
  }

  lemma {:induction false} NotCutYet(chunks: seq<Bytes>)
    requires |Join(chunks)| <= MAX_PENDING
    ensures Cut(chunks) == 0
  {
    if chunks != [] { NotCutYet(chunks[..|chunks| - 1]); }
  }

  /** All reads but the last fill the buffer, and the last one is not empty. */
  lemma {:induction false} ReadsFill(b: Bytes) returns (full: nat)
    requires b != []
    ensures var r := Reads(b); r != [] && |Join(r[..|r| - 1])| == READ * full < |b|
  {
    var r := Reads(b);
    if |b| <= READ {
      full := 0;
      assert r[..0] == [];
    } else {
      var first, more := b[..READ], Reads(b[READ..]);
      full := ReadsFill(b[READ..]);
      assert r == [first] + more;
      assert r[..|r| - 1] == [first] + more[..|more| - 1];
      JoinCons(first, more[..|more| - 1]);
      full := full + 1;
    }
  }

  /** An event that passes the limit with its last read is cut down to 64 KiB. */
  lemma {:induction false} CutByLastRead(b: Bytes)
    requires MAX_PENDING < |b| <= MAX_PENDING + READ
    ensures Join(Reads(b)) == b && Cut(Reads(b)) == |b| - KEPT
  {
    var full := ReadsFill(b);
    ReadsJoin(b);
    NotCutYet(Reads(b)[..|Reads(b)| - 1]);
  }

  /**
   Counted wrong: if exactly the last 64 KiB of a long line look like a `data: ` line, they are counted,
   although the line read whole is something else. Reads are 8 KiB long.
   */
  lemma {:induction false} LongEventIsMiscounted(lib: UsageLib, t: Totals, junk: Bytes, json: Bytes)
    requires NoNl(junk) && NoNl(json) && |DATA + json| + 2 == KEPT
    requires var event := DATA + junk + (DATA + json) + [NL, NL]; MAX_PENDING < |event| <= MAX_PENDING + READ
    requires lib.stream.utf8(DATA + json) && lib.stream.utf8(DATA + (junk + (DATA + json)))
    ensures var event := DATA + junk + (DATA + json) + [NL, NL];
            && FeedAll(lib, t, Reads(event)) == (ProcessData(lib, t, json), [])
            && Over(Step(lib), t, Events(event)) == ProcessData(lib, t, junk + (DATA + json))
  {
    var part, body := DATA + json, junk + (DATA + json);
    var event := DATA + junk + part + [NL, NL];
    DataLine(json);
    assert NoNl(body) by {
      forall i | 0 <= i < |body| ensures body[i] != NL {
        if i >= |junk| { assert body[i] == part[i - |junk|]; }
      }
    }
    DataLine(body);
    Associates(DATA, junk, part);
    TextIsEvent(DATA + body);
    EventAlone(event);
    CutByLastRead(event);
    LongEventTotals(lib, t, event, Reads(event));
    DropJoined(DATA + junk + part, [NL, NL], |event| - KEPT);
    assert (DATA + junk + part)[|DATA + junk|..] == part;
    DataOfText(lib, part, []);
    DataOfText(lib, DATA + body, []);
    OverOne(lib, t, event);
  }
}
