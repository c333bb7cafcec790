/**
 `SseRewriter`: rewrite each complete event of a stream, line by line, and forward it. Only the JSON
 of `data: ` lines is touched, and the rewritten stream has the events of the original, rewritten.
 */
module SseRewrite {
  import opened Wrappers
  import opened Seqs
  import opened Sse
  import opened Json
  import opened Redaction
  import opened BodyScrub

  /** UTF-8 checking, and serde_json on the payload of one line. */
  datatype StreamLib = StreamLib(utf8: Bytes -> bool, json: JsonLib)

  /** Compact printing never puts a newline in its output. */
  ghost predicate PrintsOneLine(lib: StreamLib) {
    forall v: Json, i: nat :: i < |lib.json.render(v)| ==> lib.json.render(v)[i] != NL
  }

  /** `data: ` */
  const DATA: Bytes := [100, 97, 116, 97, 58, 32]

  /** `[DONE]` */
  const DONE: Bytes := [91, 68, 79, 78, 69, 93]

  // ---------- the delta slots ----------

  /** The string at `/outer/inner`, if there is one. */
  function SlotText(v: Json, outer: string, inner: string): Option<string> {
    match Get(v, outer)
    case None => None
    case Some(w) => (match Get(w, inner) case Some(Str(s)) => Some(s) case _ => None)
  }

  function PutSlot(v: Json, outer: string, inner: string, s: string): Json
    requires SlotText(v, outer, inner).Some?
  {
    Put(v, outer, Put(Get(v, outer).value, inner, Str(s)))
  }

  function ScrubSlot(rules: seq<Rule>, v: Json, outer: string, inner: string): Json
    requires Lawful(rules)
  {
    match SlotText(v, outer, inner)
    case Some(s) => PutSlot(v, outer, inner, Scrub(rules, s))
    case None => v
  }

  function ScrubDeltas(rules: seq<Rule>, choices: seq<Json>): (r: seq<Json>)
    requires Lawful(rules)
    ensures |r| == |choices| && forall i :: 0 <= i < |choices| ==> r[i] == ScrubSlot(rules, choices[i], "delta", "content")
  {
    seq(|choices|, i requires 0 <= i < |choices| => ScrubSlot(rules, choices[i], "delta", "content"))
  }

  /** `scrub_sse_delta`: `/delta/text`, then `/delta/content` of every choice. */
  function ScrubDelta(rules: seq<Rule>, v: Json): Json
    requires Lawful(rules)
  {
    var w := ScrubSlot(rules, v, "delta", "text");
    match Get(w, "choices")
    case Some(Array(choices)) => Put(w, "choices", Array(ScrubDeltas(rules, choices)))
    case _ => w
  }

  ghost predicate SlotClean(rules: seq<Rule>, v: Json, outer: string, inner: string) {
    Get(v, outer).Some? ==> match Get(Get(v, outer).value, inner) case Some(Str(s)) => AllClean(rules, s) case _ => true
  }

  ghost predicate DeltaClean(rules: seq<Rule>, v: Json) {
    && SlotClean(rules, v, "delta", "text")
    && match Get(v, "choices")
       case Some(Array(choices)) => forall i :: 0 <= i < |choices| ==> SlotClean(rules, choices[i], "delta", "content")
       case _ => true
  }

  /** The value with the string at `/outer/inner`, if there is one, emptied, and all else as it is. */
  function SlotFrame(v: Json, outer: string, inner: string): Json {
    if SlotText(v, outer, inner).Some? then PutSlot(v, outer, inner, "") else v
  }

  function ChoiceDeltaFrame(choice: Json): Json {
    SlotFrame(choice, "delta", "content")
  }

  /** A delta with the strings of both formats' slots emptied, and all else as it is. */
  function DeltaFrame(v: Json): Json {
    ArrayFrame(SlotFrame(v, "delta", "text"), "choices", ChoiceDeltaFrame)
  }

  lemma {:induction false} SlotAfterPut(v: Json, outer: string, inner: string, s: string)
    requires SlotText(v, outer, inner).Some?
    ensures SlotText(PutSlot(v, outer, inner, s), outer, inner) == Some(s)
    ensures PutSlot(v, outer, inner, s) == v <==> SlotText(v, outer, inner) == Some(s)
  {
    var w := Get(v, outer).value;
    GetAfterPut(v, outer, Put(w, inner, Str(s)), outer);
    GetAfterPut(w, inner, Str(s), inner);
    PutChanges(v, outer, Put(w, inner, Str(s)));
    PutChanges(w, inner, Str(s));
  }

  lemma {:induction false} PutSlotTwice(v: Json, outer: string, inner: string, s: string, t: string)
    requires SlotText(v, outer, inner).Some? && SlotText(PutSlot(v, outer, inner, s), outer, inner).Some?
    ensures PutSlot(PutSlot(v, outer, inner, s), outer, inner, t) == PutSlot(v, outer, inner, t)
  {
    var w := Get(v, outer).value;
    GetAfterPut(v, outer, Put(w, inner, Str(s)), outer);
    PutTwice(w, inner, Str(s), Str(t));
    PutTwice(v, outer, Put(w, inner, Str(s)), Put(w, inner, Str(t)));
  }

  /** One slot: clean afterwards, changed iff it was not, nothing outside its string touched. */
  lemma {:induction false} SlotScrubbed(rules: seq<Rule>, v: Json, outer: string, inner: string)
    requires Lawful(rules) && Separated(rules)
    ensures SlotClean(rules, ScrubSlot(rules, v, outer, inner), outer, inner)
    ensures ScrubSlot(rules, v, outer, inner) == v <==> SlotClean(rules, v, outer, inner)
    ensures SlotFrame(ScrubSlot(rules, v, outer, inner), outer, inner) == SlotFrame(v, outer, inner)
  {
    if SlotText(v, outer, inner).Some? {
      var s := SlotText(v, outer, inner).value;
      ScrubLeavesNothing(rules, s);
      ScrubFixesExactlyClean(rules, s);
      SlotAfterPut(v, outer, inner, Scrub(rules, s));
      PutSlotTwice(v, outer, inner, Scrub(rules, s), "");
    }
  }

  lemma {:induction false} DeltasScrubbed(rules: seq<Rule>, choices: seq<Json>)
    requires Lawful(rules) && Separated(rules)
    ensures forall i :: 0 <= i < |choices| ==> SlotClean(rules, ScrubDeltas(rules, choices)[i], "delta", "content")
    ensures ScrubDeltas(rules, choices) == choices <==> forall i :: 0 <= i < |choices| ==> SlotClean(rules, choices[i], "delta", "content")
    ensures Frames(ScrubDeltas(rules, choices), ChoiceDeltaFrame) == Frames(choices, ChoiceDeltaFrame)
  {
    var after := ScrubDeltas(rules, choices);
    forall i | 0 <= i < |choices|
      ensures SlotClean(rules, after[i], "delta", "content") && ChoiceDeltaFrame(after[i]) == ChoiceDeltaFrame(choices[i])
      ensures after[i] == choices[i] <==> SlotClean(rules, choices[i], "delta", "content")
    {
      SlotScrubbed(rules, choices[i], "delta", "content");
    }
  }

  /** Putting something under another key leaves the slot alone, and the other way round. */
  lemma {:induction false} SlotApart(v: Json, outer: string, inner: string, key: string, w: Json)
    requires key != outer
    ensures SlotText(Put(v, key, w), outer, inner) == SlotText(v, outer, inner)
    ensures SlotFrame(Put(v, key, w), outer, inner) == Put(SlotFrame(v, outer, inner), key, w)
    ensures Get(SlotFrame(v, outer, inner), key) == Get(v, key)
  {
    GetAfterPut(v, key, w, outer);
    if SlotText(v, outer, inner).Some? {
      var slot := Put(Get(v, outer).value, inner, Str(""));
      PutSwap(v, key, w, outer, slot);
      GetAfterPut(v, outer, slot, key);
    }
  }

  lemma {:induction false} SlotOnly(rules: seq<Rule>, v: Json, outer: string, inner: string, key: string)
    requires Lawful(rules) && key != outer
    ensures Get(ScrubSlot(rules, v, outer, inner), key) == Get(v, key)
  {
    if SlotText(v, outer, inner).Some? {
      GetAfterPut(v, outer, Put(Get(v, outer).value, inner, Str(Scrub(rules, SlotText(v, outer, inner).value))), key);
    }
  }

  lemma {:induction false} DeltaKept(rules: seq<Rule>, v: Json)
    requires Lawful(rules) && Separated(rules)
    ensures DeltaFrame(ScrubDelta(rules, v)) == DeltaFrame(v)
  {
    var w, frame := ScrubSlot(rules, v, "delta", "text"), SlotFrame(v, "delta", "text");
    SlotScrubbed(rules, v, "delta", "text");
    SlotOnly(rules, v, "delta", "text", "choices");
    SlotApart(v, "delta", "text", "choices", Null);
    match Get(v, "choices") {
      case Some(Array(choices)) =>
        var after := ScrubDeltas(rules, choices);
        DeltasScrubbed(rules, choices);
        SlotApart(w, "delta", "text", "choices", Array(after));
        ArrayKept(frame, "choices", choices, after, ChoiceDeltaFrame);
      case _ =>
    }
  }

  /** The delta slots come out clean, no-ops are exact, and only the strings in the slots change. */
  lemma {:induction false} DeltaScrubbed(rules: seq<Rule>, v: Json)
    requires Lawful(rules) && Separated(rules)
    ensures DeltaClean(rules, ScrubDelta(rules, v))
    ensures ScrubDelta(rules, v) == v <==> DeltaClean(rules, v)
    ensures DeltaFrame(ScrubDelta(rules, v)) == DeltaFrame(v)
  {
    DeltaKept(rules, v);
    SlotScrubbed(rules, v, "delta", "text");
    SlotOnly(rules, v, "delta", "text", "choices");
    match Get(v, "choices") {
      case Some(Array(choices)) =>
        var w, after := ScrubSlot(rules, v, "delta", "text"), Array(ScrubDeltas(rules, choices));
        DeltasScrubbed(rules, choices);
        PutChanges(w, "choices", after);
        GetAfterPut(w, "choices", after, "choices");
        SlotApart(w, "delta", "text", "choices", after);
      case _ =>
    }
  }

  // ---------- lines ----------

  /** Position of the first newline. */
  function FindNl(b: Bytes): (r: Option<nat>)
    ensures r.Some? ==> r.value < |b|
  {
    if b == [] then None
    else if b[0] == NL then Some(0)
    else match FindNl(b[1..]) case Some(i) => Some(i + 1) case None => None
  }

  /** `split_inclusive('\n')` */
  function Lines(b: Bytes): seq<Bytes>
    decreases |b|
  {
    if b == [] then []
    else match FindNl(b)
         case None => [b]
         case Some(i) => [b[..i + 1]] + Lines(b[i + 1..])
  }

  /** A line with its newline, and no other. */
  predicate IsLine(l: Bytes) {
    |l| >= 1 && FindNl(l) == Some(|l| - 1)
  }

  /** The JSON of a `data: ` line, if it is one and is not the `[DONE]` sentinel. */
  function LineJson(lib: StreamLib, line: Bytes): Option<Json> {
    if !IsLine(line) then None
    else
      var body := line[..|line| - 1];
      if !(DATA <= body) || body[6..] == DONE then None else lib.json.parse(body[6..])
  }

  /** What one line becomes. Lines other than JSON `data: ` lines are forwarded verbatim. */
  function RewriteLine(lib: StreamLib, rules: seq<Rule>, line: Bytes): Bytes
    requires Lawful(rules)
  {
    match LineJson(lib, line)
    case None => line
    case Some(v) => DATA + lib.json.render(ScrubDelta(rules, v)) + [NL]
  }

  function RewriteLines(lib: StreamLib, rules: seq<Rule>, lines: seq<Bytes>): (r: seq<Bytes>)
    requires Lawful(rules)
    ensures |r| == |lines| && forall i :: 0 <= i < |lines| ==> r[i] == RewriteLine(lib, rules, lines[i])
  {
    seq(|lines|, i requires 0 <= i < |lines| => RewriteLine(lib, rules, lines[i]))
  }

  /** `rewrite_sse_event` */
  function RewriteEvent(lib: StreamLib, rules: seq<Rule>, event: Bytes): Bytes
    requires Lawful(rules)
  {
    if !lib.utf8(event) then event else Join(RewriteLines(lib, rules, Lines(event)))
  }

  // ---------- framing ----------

  /** Lines as an event has them: each ends in a newline, only the last is blank, except that the first may be. */
  predicate EventLines(lines: seq<Bytes>) {
    && |lines| >= 2
    && (forall i :: 0 <= i < |lines| ==> IsLine(lines[i]))
    && lines[|lines| - 1] == [NL]
    && (forall i :: 1 <= i < |lines| - 1 ==> lines[i] != [NL])
  }

  lemma {:induction false} LineTail(l: Bytes)
    requires IsLine(l) && |l| > 1
    ensures l[0] != NL && IsLine(l[1..])
  {
  }

  /** Two newlines meet exactly at the end of a first line that is followed by a blank one. */
  lemma {:induction false} BlankAfterLine(l: Bytes, more: Bytes)
    requires IsLine(l) && |more| >= 1
    ensures FindBlank(l + more) ==
            if more[0] == NL then Some(|l| - 1)
            else match FindBlank(more) case Some(i) => Some(i + |l|) case None => None
    decreases |l|
  {
    var b := l + more;
    if |l| == 1 {
      assert b[1..] == more;
    } else {
      LineTail(l);
      BlankAfterLine(l[1..], more);
      assert b[1..] == l[1..] + more;
    }
  }

  lemma {:induction false} LineEndsInNl(l: Bytes)
    requires IsLine(l)
    ensures l[|l| - 1] == NL
    decreases |l|
  {
    if |l| > 1 {
      LineTail(l);
      LineEndsInNl(l[1..]);
    }
  }

  lemma {:induction false} LineHasNoBlank(l: Bytes)
    requires IsLine(l)
    ensures FindBlank(l).None?
    decreases |l|
  {
    if |l| > 1 {
      LineTail(l);
      LineHasNoBlank(l[1..]);
    }
  }

  lemma {:induction false} NlAfterLine(l: Bytes, more: Bytes)
    requires IsLine(l)
    ensures FindNl(l + more) == Some(|l| - 1)
    decreases |l|
  {
    if |l| > 1 {
      LineTail(l);
      NlAfterLine(l[1..], more);
      assert (l + more)[1..] == l[1..] + more;
    }
  }

  lemma {:induction false} TextIsLine(s: Bytes)
    requires forall i :: 0 <= i < |s| ==> s[i] != NL
    ensures IsLine(s + [NL])
  {
    if s != [] {
      TextIsLine(s[1..]);
      assert (s + [NL])[1..] == s[1..] + [NL];
    }
  }

  lemma {:induction false} EventLinesJoin(lines: seq<Bytes>)
    requires EventLines(lines)
    ensures IsEvent(Join(lines))
  {
    var l, tail := lines[0], lines[1..];
    assert lines == [l] + tail;
    JoinCons(l, tail);
    JoinStarts(tail);
    if |lines| == 2 {
      assert tail == [[NL]];
      assert Join(tail) == [NL] by { assert tail[..0] == []; }
    } else {
      assert EventLines(tail);
      EventLinesJoin(tail);
      FirstByte(tail[0]);
    }
    BlankAfterLine(l, Join(tail));
  }

  lemma {:induction false} FirstByte(l: Bytes)
    requires IsLine(l) && l != [NL]
    ensures l[0] != NL
  {
  }

  lemma {:induction false} JoinStarts(lines: seq<Bytes>)
    requires lines != [] && lines[0] != []
    ensures |Join(lines)| >= 1 && Join(lines)[0] == lines[0][0]
  {
    assert lines == [lines[0]] + lines[1..];
    JoinCons(lines[0], lines[1..]);
  }

  lemma {:induction false} LinesCons(l: Bytes, more: Bytes)
    requires IsLine(l)
    ensures Lines(l + more) == [l] + Lines(more)
  {
    NlAfterLine(l, more);
    assert (l + more)[..|l|] == l && (l + more)[|l|..] == more;
  }

  lemma {:induction false} EventHasNl(e: Bytes)
    requires FindBlank(e).Some?
    ensures FindNl(e).Some?
  {
    if e[0] != NL { EventHasNl(e[1..]); }
  }

  lemma {:induction false} EventLinesCons(l: Bytes, rest: seq<Bytes>)
    requires IsLine(l) && (rest == [[NL]] || (EventLines(rest) && rest[0] != [NL]))
    ensures EventLines([l] + rest)
  {
  }

  /** The first line of an event, and what follows it: the blank line, or an event that does not start with one. */
  lemma {:induction false} EventHead(e: Bytes) returns (l: Bytes, more: Bytes)
    requires IsEvent(e)
    ensures e == l + more && IsLine(l) && more != []
    ensures more == [NL] || (more[0] != NL && IsEvent(more))
  {
    EventHasNl(e);
    var i := FindNl(e).value;
    l, more := e[..i + 1], e[i + 1..];
    FirstLineIsLine(e, i);
    assert e == l + more;
    if more == [] {
      assert e == l;
      LineHasNoBlank(l);
    } else {
      BlankAfterLine(l, more);
      if more[0] == NL { assert more == [NL]; }
    }
  }

  /** An event splits into such lines. */
  lemma {:induction false} LinesOfEvent(e: Bytes)
    requires IsEvent(e)
    ensures EventLines(Lines(e)) && Join(Lines(e)) == e
    decreases |e|
  {
    var l, more := EventHead(e);
    LinesCons(l, more);
    JoinCons(l, Lines(more));
    if more == [NL] {
      assert more == [NL] + [];
      LinesCons([NL], []);
      JoinOne([NL]);
    } else {
      LinesOfEvent(more);
      JoinStarts(Lines(more));
    }
    EventLinesCons(l, Lines(more));
  }

  lemma {:induction false} JoinOne(b: Bytes)
    ensures Join([b]) == b
  {
    assert [b][..0] == [];
  }

  lemma {:induction false} FirstLineIsLine(b: Bytes, i: nat)
    requires FindNl(b) == Some(i)
    ensures IsLine(b[..i + 1])
  {
    if i > 0 {
      FirstLineIsLine(b[1..], i - 1);
      assert b[..i + 1][1..] == b[1..][..i];
    }
  }

  /** Rewriting turns a line into a line, and only the blank line into a blank line. */
  lemma {:induction false} RewrittenLine(lib: StreamLib, rules: seq<Rule>, line: Bytes)
    requires Lawful(rules) && PrintsOneLine(lib) && IsLine(line)
    ensures IsLine(RewriteLine(lib, rules, line))
    ensures RewriteLine(lib, rules, line) == [NL] <==> line == [NL]
  {
    var after := RewriteLine(lib, rules, line);
    if after != line {
      var v := lib.json.parse(line[..|line| - 1][6..]).value;
      var printed := lib.json.render(ScrubDelta(rules, v));
      assert after == DATA + printed + [NL];
      var text := DATA + printed;
      forall i | 0 <= i < |text| ensures text[i] != NL {
        if i >= 6 { assert text[i] == printed[i - 6]; } else { assert text[i] == DATA[i]; }
      }
      TextIsLine(text);
      assert DATA <= line[..|line| - 1];
    }
  }

  /** A rewritten event is an event, and its lines are the rewritten lines. */
  lemma {:induction false} RewrittenEvent(lib: StreamLib, rules: seq<Rule>, e: Bytes)
    requires Lawful(rules) && PrintsOneLine(lib) && IsEvent(e)
    ensures IsEvent(RewriteEvent(lib, rules, e))
    ensures lib.utf8(e) ==> Lines(RewriteEvent(lib, rules, e)) == RewriteLines(lib, rules, Lines(e))
  {
    LinesOfEvent(e);
    var lines := Lines(e);
    var after := RewriteLines(lib, rules, lines);
    forall i | 0 <= i < |lines| ensures IsLine(after[i]) && (after[i] == [NL] <==> lines[i] == [NL]) {
      RewrittenLine(lib, rules, lines[i]);
    }
    assert EventLines(after);
    EventLinesJoin(after);
    LinesOfJoin(after);
  }

  lemma {:induction false} LinesOfJoin(lines: seq<Bytes>)
    requires forall i :: 0 <= i < |lines| ==> IsLine(lines[i])
    ensures Lines(Join(lines)) == lines
  {
    if lines != [] {
      var l, more := lines[0], Join(lines[1..]);
      assert lines == [l] + lines[1..];
      JoinCons(l, lines[1..]);
      LinesOfJoin(lines[1..]);
      LinesCons(l, more);
    }
  }

  function RewriteEvents(lib: StreamLib, rules: seq<Rule>, events: seq<Bytes>): (r: seq<Bytes>)
    requires Lawful(rules)
    ensures |r| == |events| && forall i :: 0 <= i < |events| ==> r[i] == RewriteEvent(lib, rules, events[i])
  {
    seq(|events|, i requires 0 <= i < |events| => RewriteEvent(lib, rules, events[i]))
  }

  /** The whole stream rewritten in one go, the unfinished tail forwarded raw. */
  function RewriteStream(lib: StreamLib, rules: seq<Rule>, b: Bytes): Bytes
    requires Lawful(rules)
  {
    Join(RewriteEvents(lib, rules, Events(b))) + Rest(b)
  }

  /** Framing is preserved: the rewritten stream has exactly the rewritten events, in order, and the same tail. */
  lemma {:induction false} FramingPreserved(lib: StreamLib, rules: seq<Rule>, b: Bytes)
    requires Lawful(rules) && PrintsOneLine(lib)
    ensures Events(RewriteStream(lib, rules, b)) == RewriteEvents(lib, rules, Events(b))
    ensures Rest(RewriteStream(lib, rules, b)) == Rest(b)
  {
    EventsAreEvents(b);
    var after := RewriteEvents(lib, rules, Events(b));
    forall i | 0 <= i < |after| ensures IsEvent(after[i]) {
      RewrittenEvent(lib, rules, Events(b)[i]);
    }
    RestHasNoEvent(b);
    CutBack(after, Rest(b));
  }

  /** A `data: ` line whose JSON has no match in its deltas and prints back to the bytes it was parsed from. */
  ghost predicate LineUntouched(lib: StreamLib, rules: seq<Rule>, line: Bytes) {
    IsLine(line) && DATA <= line[..|line| - 1] ==>
      match lib.json.parse(line[..|line| - 1][6..])
      case None => true
      case Some(v) => DeltaClean(rules, v) && lib.json.render(v) == line[..|line| - 1][6..]
  }

  lemma {:induction false} UntouchedLineKept(lib: StreamLib, rules: seq<Rule>, line: Bytes)
    requires Lawful(rules) && Separated(rules) && LineUntouched(lib, rules, line)
    ensures RewriteLine(lib, rules, line) == line
  {
    if IsLine(line) && DATA <= line[..|line| - 1] {
      var body := line[..|line| - 1];
      var parsed := lib.json.parse(body[6..]);
      if parsed.Some? {
        DeltaScrubbed(rules, parsed.value);
        LineEndsInNl(line);
        assert |DATA| == 6 && body == DATA + body[6..] && line == body + [NL];
      }
    }
  }

  /** With nothing to redact and an identical JSON round trip, the stream is unchanged. */
  lemma {:induction false} NothingToRedact(lib: StreamLib, rules: seq<Rule>, b: Bytes)
    requires Lawful(rules) && Separated(rules)
    requires forall i, j :: 0 <= i < |Events(b)| && 0 <= j < |Lines(Events(b)[i])| ==> LineUntouched(lib, rules, Lines(Events(b)[i])[j])
    ensures RewriteStream(lib, rules, b) == b
  {
    EventsAreEvents(b);
    forall i | 0 <= i < |Events(b)| ensures RewriteEvent(lib, rules, Events(b)[i]) == Events(b)[i] {
      var lines := Lines(Events(b)[i]);
      forall j | 0 <= j < |lines| ensures RewriteLine(lib, rules, lines[j]) == lines[j] {
        UntouchedLineKept(lib, rules, lines[j]);
      }
      assert RewriteLines(lib, rules, lines) == lines;
      LinesOfEvent(Events(b)[i]);
    }
    assert RewriteEvents(lib, rules, Events(b)) == Events(b);
    CutLosesNothing(b);
  }

  // ---------- hits ----------

  function FiredSlot(rules: seq<Rule>, v: Json, outer: string, inner: string, name: string): nat
    requires Lawful(rules)
  {
    match SlotText(v, outer, inner) case Some(s) => Fired(rules, s, name) case None => 0
  }

  function FiredDeltas(rules: seq<Rule>, choices: seq<Json>, n: nat, name: string): nat
    requires Lawful(rules) && n <= |choices|
  {
    if n == 0 then 0 else FiredDeltas(rules, choices, n - 1, name) + FiredSlot(rules, choices[n - 1], "delta", "content", name)
  }

  /** How many times a rule called `name` fires over the slots of a delta. */
  function FiredDelta(rules: seq<Rule>, v: Json, name: string): nat
    requires Lawful(rules)
  {
    FiredSlot(rules, v, "delta", "text", name) +
    match Get(v, "choices")
    case Some(Array(choices)) => FiredDeltas(rules, choices, |choices|, name)
    case _ => 0
  }

  function FiredLine(lib: StreamLib, rules: seq<Rule>, line: Bytes, name: string): nat
    requires Lawful(rules)
  {
    match LineJson(lib, line) case Some(v) => FiredDelta(rules, v, name) case None => 0
  }

  function FiredLines(lib: StreamLib, rules: seq<Rule>, lines: seq<Bytes>, n: nat, name: string): nat
    requires Lawful(rules) && n <= |lines|
  {
    if n == 0 then 0 else FiredLines(lib, rules, lines, n - 1, name) + FiredLine(lib, rules, lines[n - 1], name)
  }

  function FiredEvent(lib: StreamLib, rules: seq<Rule>, event: Bytes, name: string): nat
    requires Lawful(rules)
  {
    if lib.utf8(event) then FiredLines(lib, rules, Lines(event), |Lines(event)|, name) else 0
  }

  /** How many times a rule called `name` fires over the events of a stream. */
  function FiredEvents(lib: StreamLib, rules: seq<Rule>, events: seq<Bytes>, name: string): nat
    requires Lawful(rules)
  {
    if events == [] then 0
    else FiredEvents(lib, rules, events[..|events| - 1], name) + FiredEvent(lib, rules, events[|events| - 1], name)
  }

  lemma {:induction false} FiredAppend(lib: StreamLib, rules: seq<Rule>, a: seq<Bytes>, b: seq<Bytes>, name: string)
    requires Lawful(rules)
    ensures FiredEvents(lib, rules, a + b, name) == FiredEvents(lib, rules, a, name) + FiredEvents(lib, rules, b, name)
  {
    if b == [] {
      assert a + b == a;
    } else {
      var n := |b| - 1;
      FiredAppend(lib, rules, a, b[..n], name);
      assert (a + b)[..|a| + n] == a + b[..n];
    }
  }

  // ---------- the streaming form ----------

  method ScrubSlotOf(engine: RedactionEngine, v: Json, outer: string, inner: string) returns (w: Json)
    requires Lawful(engine.rules)
    modifies engine
    ensures w == ScrubSlot(engine.rules, v, outer, inner)
    ensures forall name :: Count(engine.counters, name) == Count(old(engine.counters), name) + FiredSlot(engine.rules, v, outer, inner, name)
  {
    w := v;
    var text := SlotText(v, outer, inner);
    if text.Some? {
      var scrubbed := engine.ScrubText(text.value);
      w := PutSlot(v, outer, inner, scrubbed);
    }
  }

  /** `scrub_sse_delta` */
  method ScrubSseDelta(engine: RedactionEngine, v: Json) returns (w: Json)
    requires Lawful(engine.rules)
    modifies engine
    ensures w == ScrubDelta(engine.rules, v)
    ensures forall name :: Count(engine.counters, name) == Count(old(engine.counters), name) + FiredDelta(engine.rules, v, name)
  {
    w := ScrubSlotOf(engine, v, "delta", "text");
    SlotOnly(engine.rules, v, "delta", "text", "choices");
    var choices := Get(w, "choices");
    if choices.Some? && choices.value.Array? {
      var after := ScrubDeltasOf(engine, choices.value.items);
      w := Put(w, "choices", Array(after));
    }
  }

  method ScrubDeltasOf(engine: RedactionEngine, items: seq<Json>) returns (after: seq<Json>)
    requires Lawful(engine.rules)
    modifies engine
    ensures after == ScrubDeltas(engine.rules, items)
    ensures forall name :: Count(engine.counters, name) == Count(old(engine.counters), name) + FiredDeltas(engine.rules, items, |items|, name)
  {
    after := [];
    for i := 0 to |items|
      invariant |after| == i && forall k :: 0 <= k < i ==> after[k] == ScrubSlot(engine.rules, items[k], "delta", "content")
      invariant forall name :: Count(engine.counters, name) == Count(old(engine.counters), name) + FiredDeltas(engine.rules, items, i, name)
    {
      var item := ScrubSlotOf(engine, items[i], "delta", "content");
      after := after + [item];
    }
    assert after == ScrubDeltas(engine.rules, items);
  }

  method RewriteOneLine(engine: RedactionEngine, lib: StreamLib, line: Bytes) returns (out: Bytes)
    requires Lawful(engine.rules)
    modifies engine
    ensures out == RewriteLine(lib, engine.rules, line)
    ensures forall name :: Count(engine.counters, name) == Count(old(engine.counters), name) + FiredLine(lib, engine.rules, line, name)
  {
    out := line;
    var v := LineJson(lib, line);
    if v.Some? {
      var scrubbed := ScrubSseDelta(engine, v.value);
      out := DATA + lib.json.render(scrubbed) + [NL];
    }
  }

  /** `rewrite_sse_event`: line by line, appending to the output. */
  method RewriteSseEvent(engine: RedactionEngine, lib: StreamLib, event: Bytes) returns (out: Bytes)
    requires Lawful(engine.rules)
    modifies engine
    ensures out == RewriteEvent(lib, engine.rules, event)
    ensures forall name :: Count(engine.counters, name) == Count(old(engine.counters), name) + FiredEvent(lib, engine.rules, event, name)
  {
    if !lib.utf8(event) {
      return event;
    }
    var lines := Lines(event);
    out := [];
    for i := 0 to |lines|
      invariant out == Join(RewriteLines(lib, engine.rules, lines[..i]))
      invariant forall name :: Count(engine.counters, name) == Count(old(engine.counters), name) + FiredLines(lib, engine.rules, lines, i, name)
    {
      var line := RewriteOneLine(engine, lib, lines[i]);
      LinesSnoc(lib, engine.rules, lines, i);
      out := out + line;
    }
    assert lines[..|lines|] == lines;
  }

  lemma {:induction false} LinesSnoc(lib: StreamLib, rules: seq<Rule>, lines: seq<Bytes>, i: nat)
    requires Lawful(rules) && i < |lines|
    ensures Join(RewriteLines(lib, rules, lines[..i + 1])) == Join(RewriteLines(lib, rules, lines[..i])) + RewriteLine(lib, rules, lines[i])
  {
    var before := RewriteLines(lib, rules, lines[..i]);
    JoinSnoc(before, RewriteLine(lib, rules, lines[i]));
    assert RewriteLines(lib, rules, lines[..i + 1]) == before + [RewriteLine(lib, rules, lines[i])];
  }

  /** Part way through draining `all`: `done` was cut off and emitted rewritten, `pending` is to come. */
  ghost predicate Drained(lib: StreamLib, rules: seq<Rule>, all: Bytes, done: seq<Bytes>, pending: Bytes, out: Bytes)
    requires Lawful(rules)
  {
    && Events(all) == done + Events(pending) && Rest(all) == Rest(pending)
    && out == Join(RewriteEvents(lib, rules, done))
  }

  lemma {:induction false} DrainOne(lib: StreamLib, rules: seq<Rule>, all: Bytes, done: seq<Bytes>, pending: Bytes, out: Bytes, event: Bytes)
    requires Lawful(rules) && Drained(lib, rules, all, done, pending, out)
    requires FindBlank(pending).Some? && event == pending[..FindBlank(pending).value + 2]
    ensures Drained(lib, rules, all, done + [event], pending[|event|..], out + RewriteEvent(lib, rules, event))
    ensures forall name :: FiredEvents(lib, rules, done + [event], name) ==
                           FiredEvents(lib, rules, done, name) + FiredEvent(lib, rules, event, name)
  {
    assert pending == event + pending[|event|..];
    FirstEvent(pending, event, pending[|event|..]);
    Associates(done, [event], Events(pending[|event|..]));
    JoinSnoc(RewriteEvents(lib, rules, done), RewriteEvent(lib, rules, event));
    assert RewriteEvents(lib, rules, done + [event]) == RewriteEvents(lib, rules, done) + [RewriteEvent(lib, rules, event)];
    assert (done + [event])[..|done|] == done;
  }

  class SseRewriter {
    var pending: Bytes

    constructor ()
      ensures pending == []
    {
      pending := [];
    }

    /** `process`: buffer the chunk, then cut off, rewrite and emit every complete event. */
    method Process(engine: RedactionEngine, lib: StreamLib, chunk: Bytes) returns (out: Bytes)
      requires Lawful(engine.rules)
      modifies this, engine
      ensures pending == Rest(old(pending) + chunk)
      ensures out == Join(RewriteEvents(lib, engine.rules, Events(old(pending) + chunk)))
      ensures forall name :: Count(engine.counters, name) ==
                             Count(old(engine.counters), name) + FiredEvents(lib, engine.rules, Events(old(pending) + chunk), name)
    {
      pending := pending + chunk;
      ghost var all := pending;
      ghost var done: seq<Bytes> := [];
      out := [];
      var end := FindBlank(pending);
      while end.Some?
        invariant end == FindBlank(pending)
        invariant Drained(lib, engine.rules, all, done, pending, out)
        invariant forall name :: Count(engine.counters, name) == Count(old(engine.counters), name) + FiredEvents(lib, engine.rules, done, name)
        decreases |pending|
      {
        var event := pending[..end.value + 2];
        DrainOne(lib, engine.rules, all, done, pending, out, event);
        pending := pending[end.value + 2..];
        var rewritten := RewriteSseEvent(engine, lib, event);
        done, out := done + [event], out + rewritten;
        end := FindBlank(pending);
      }
      assert done + [] == done;
    }

    /** `flush`: whatever is still pending, as it came. */
    method Flush() returns (out: Bytes)
      modifies this
      ensures out == old(pending) && pending == []
    {
      out, pending := pending, [];
    }
  }

  lemma {:induction false} JoinSnoc(chunks: seq<Bytes>, chunk: Bytes)
    ensures Join(chunks + [chunk]) == Join(chunks) + chunk
  {
    assert (chunks + [chunk])[..|chunks|] == chunks;
  }

  lemma {:induction false} JoinAppend(a: seq<Bytes>, b: seq<Bytes>)
    ensures Join(a + b) == Join(a) + Join(b)
  {
    if b == [] {
      assert a + b == a;
    } else {
      var n := |b| - 1;
      JoinAppend(a, b[..n]);
      JoinSnoc(a + b[..n], b[n]);
      assert a + b == (a + b[..n]) + [b[n]];
    }
  }

  /** A whole session: a rewriter fed the chunks in order, then flushed. Neither the bytes nor the hits depend on the chunks. */
  method RewriteSession(engine: RedactionEngine, lib: StreamLib, chunks: seq<Bytes>) returns (out: Bytes)
    requires Lawful(engine.rules)
    modifies engine
    ensures out == RewriteStream(lib, engine.rules, Join(chunks))
    ensures forall name :: Count(engine.counters, name) ==
                           Count(old(engine.counters), name) + FiredEvents(lib, engine.rules, Events(Join(chunks)), name)
  {
    var rewriter := new SseRewriter();
    out := [];
    for i := 0 to |chunks|
      invariant Rewritten(lib, engine.rules, Join(chunks[..i]), rewriter.pending, out)
      invariant forall name :: Count(engine.counters, name) ==
                               Count(old(engine.counters), name) + FiredEvents(lib, engine.rules, Events(Join(chunks[..i])), name)
    {
      ghost var before := rewriter.pending;
      var part := rewriter.Process(engine, lib, chunks[i]);
      assert chunks[..i + 1] == chunks[..i] + [chunks[i]];
      JoinSnoc(chunks[..i], chunks[i]);
      StreamOneMore(lib, engine.rules, Join(chunks[..i]), before, out, chunks[i]);
      forall name ensures FiredEvents(lib, engine.rules, Events(Join(chunks[..i + 1])), name) ==
                          FiredEvents(lib, engine.rules, Events(Join(chunks[..i])), name) +
                          FiredEvents(lib, engine.rules, Events(before + chunks[i]), name) {
        HitsOneMore(lib, engine.rules, Join(chunks[..i]), chunks[i], name);
      }
      out := out + part;
    }
    assert chunks[..|chunks|] == chunks;
    var tail := rewriter.Flush();
    out := out + tail;
  }

  ghost predicate Rewritten(lib: StreamLib, rules: seq<Rule>, came: Bytes, pending: Bytes, out: Bytes)
    requires Lawful(rules)
  {
    pending == Rest(came) && out == Join(RewriteEvents(lib, rules, Events(came)))
  }

  lemma {:induction false} RewriteAppend(lib: StreamLib, rules: seq<Rule>, a: seq<Bytes>, b: seq<Bytes>)
    requires Lawful(rules)
    ensures Join(RewriteEvents(lib, rules, a + b)) == Join(RewriteEvents(lib, rules, a)) + Join(RewriteEvents(lib, rules, b))
  {
    assert RewriteEvents(lib, rules, a + b) == RewriteEvents(lib, rules, a) + RewriteEvents(lib, rules, b);
    JoinAppend(RewriteEvents(lib, rules, a), RewriteEvents(lib, rules, b));
  }

  lemma {:induction false} StreamOneMore(lib: StreamLib, rules: seq<Rule>, came: Bytes, pending: Bytes, out: Bytes, chunk: Bytes)
    requires Lawful(rules) && Rewritten(lib, rules, came, pending, out)
    ensures Rewritten(lib, rules, came + chunk, Rest(pending + chunk), out + Join(RewriteEvents(lib, rules, Events(pending + chunk))))
  {
    CutAppend(came, chunk);
    RewriteAppend(lib, rules, Events(came), Events(pending + chunk));
  }

  lemma {:induction false} HitsOneMore(lib: StreamLib, rules: seq<Rule>, came: Bytes, chunk: Bytes, name: string)
    requires Lawful(rules)
    ensures FiredEvents(lib, rules, Events(came + chunk), name) ==
            FiredEvents(lib, rules, Events(came), name) + FiredEvents(lib, rules, Events(Rest(came) + chunk), name)
  {
    CutAppend(came, chunk);
    FiredAppend(lib, rules, Events(came), Events(Rest(came) + chunk), name);
  }
}
