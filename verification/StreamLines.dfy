/**
 What rewriting makes of each line of a stream, on its bytes: the payload of a JSON `data: ` line is
 scrubbed in its delta slots and printed back; every other line, `[DONE]` included, leaves as it came.
 */
module StreamLines {
  import opened Wrappers
  import opened Seqs
  import opened Sse
  import opened Json
  import opened Redaction
  import opened SseRewrite

  // ---------- deltas ----------

  /** `v` with the string at `/outer/inner`, if there is one, redacted. */
  ghost predicate SlotRedacted(rules: seq<Rule>, v: Json, w: Json, outer: string, inner: string) {
    match SlotText(v, outer, inner)
    case Some(s) => exists t :: Redacted(rules, s, t) && w == Put(v, outer, Put(Get(v, outer).value, inner, Str(t)))
    case None => w == v
  }

  ghost predicate DeltasRedacted(rules: seq<Rule>, choices: seq<Json>, after: seq<Json>) {
    |after| == |choices| && forall i :: 0 <= i < |choices| ==> SlotRedacted(rules, choices[i], after[i], "delta", "content")
  }

  ghost predicate ChoicesRedacted(rules: seq<Rule>, v: Json, w: Json) {
    match Get(v, "choices")
    case Some(Array(choices)) => exists after :: DeltasRedacted(rules, choices, after) && w == Put(v, "choices", Array(after))
    case _ => w == v
  }

  /** A delta with the strings of both formats' slots redacted, and all else as it is. */
  ghost predicate DeltaRedacted(rules: seq<Rule>, v: Json, w: Json) {
    exists mid :: SlotRedacted(rules, v, mid, "delta", "text") && ChoicesRedacted(rules, mid, w)
  }

  lemma {:induction false} SlotKeepsTheRest(rules: seq<Rule>, v: Json, outer: string, inner: string)
    requires Lawful(rules)
    ensures SlotRedacted(rules, v, ScrubSlot(rules, v, outer, inner), outer, inner)
  {
    if SlotText(v, outer, inner).Some? { ScrubKeepsTheRest(rules, SlotText(v, outer, inner).value); }
  }

  lemma {:induction false} ChoicesKeepTheRest(rules: seq<Rule>, v: Json, w: Json)
    requires Lawful(rules)
    requires w == match Get(v, "choices")
                  case Some(Array(choices)) => Put(v, "choices", Array(ScrubDeltas(rules, choices)))
                  case _ => v
    ensures ChoicesRedacted(rules, v, w)
  {
    match Get(v, "choices") {
      case Some(Array(choices)) =>
        forall i | 0 <= i < |choices| ensures SlotRedacted(rules, choices[i], ScrubDeltas(rules, choices)[i], "delta", "content") {
          SlotKeepsTheRest(rules, choices[i], "delta", "content");
        }
        assert DeltasRedacted(rules, choices, ScrubDeltas(rules, choices));
      case _ =>
    }
  }

  lemma {:induction false} DeltaKeepsTheRest(rules: seq<Rule>, v: Json)
    requires Lawful(rules)
    ensures DeltaRedacted(rules, v, ScrubDelta(rules, v))
  {
    SlotKeepsTheRest(rules, v, "delta", "text");
    ChoicesKeepTheRest(rules, ScrubSlot(rules, v, "delta", "text"), ScrubDelta(rules, v));
  }

  // ---------- one line ----------

  /** What a `data: ` line with this payload must become: its JSON, if any, redacted and free of matches. */
  ghost predicate PayloadRewritten(lib: StreamLib, rules: seq<Rule>, payload: Bytes, line: Bytes, after: Bytes) {
    if payload == DONE || lib.json.parse(payload).None? then after == line
    else
      var v := lib.json.parse(payload).value;
      exists w :: DeltaRewritten(rules, v, w) && after == DATA + lib.json.render(w) + [NL]
  }

  ghost predicate DeltaRewritten(rules: seq<Rule>, v: Json, w: Json) {
    DeltaRedacted(rules, v, w) && DeltaClean(rules, w) && DeltaFrame(w) == DeltaFrame(v)
  }

  lemma {:induction false} PayloadOf(lib: StreamLib, line: Bytes, payload: Bytes)
    requires IsLine(line) && line == (DATA + payload) + [NL]
    ensures LineJson(lib, line) == if payload == DONE then None else lib.json.parse(payload)
  {
    assert line[..|line| - 1] == DATA + payload;
    assert (DATA + payload)[6..] == payload;
  }

  /** A line that starts with `data: `: verbatim if it is `[DONE]` or not JSON, and otherwise scrubbed JSON. */
  lemma {:induction false} DataLineRewritten(lib: StreamLib, rules: seq<Rule>, line: Bytes, payload: Bytes)
    requires Lawful(rules) && Separated(rules) && IsLine(line) && line == (DATA + payload) + [NL]
    ensures PayloadRewritten(lib, rules, payload, line, RewriteLine(lib, rules, line))
  {
    PayloadOf(lib, line, payload);
    if payload != DONE && lib.json.parse(payload).Some? {
      var v := lib.json.parse(payload).value;
      DeltaKeepsTheRest(rules, v);
      DeltaScrubbed(rules, v);
      assert DeltaRewritten(rules, v, ScrubDelta(rules, v));
    }
  }

  /** Every other line is forwarded verbatim. */
  lemma {:induction false} OtherLineKept(lib: StreamLib, rules: seq<Rule>, line: Bytes)
    requires Lawful(rules) && !(DATA <= line)
    ensures RewriteLine(lib, rules, line) == line
  {
    assert IsLine(line) && DATA <= line[..|line| - 1] ==> DATA <= line;
  }

  /** A line that starts with `data: ` is that, a payload and its newline. */
  lemma {:induction false} DataLineSplits(line: Bytes) returns (payload: Bytes)
    requires IsLine(line) && DATA <= line
    ensures line == (DATA + payload) + [NL]
  {
    LineEndsInNl(line);
    payload := line[6..|line| - 1];
  }

  /** What a line becomes, on its bytes. */
  ghost predicate LineRewritten(lib: StreamLib, rules: seq<Rule>, line: Bytes, after: Bytes) {
    && (!(DATA <= line) ==> after == line)
    && forall payload :: line == (DATA + payload) + [NL] ==> PayloadRewritten(lib, rules, payload, line, after)
  }

  // ---------- a whole stream ----------

  /** What a scrubbed delta is printed as is parsed back into it. */
  ghost predicate PrintsBack(lib: StreamLib, rules: seq<Rule>)
    requires Lawful(rules)
  {
    forall p: Bytes :: lib.json.parse(p).Some? ==>
                         var v := ScrubDelta(rules, lib.json.parse(p).value); lib.json.parse(lib.json.render(v)) == Some(v)
  }

  /** A line that holds JSON other than the sentinel is free of matches in its delta slots. */
  ghost predicate LineClean(lib: StreamLib, rules: seq<Rule>, line: Bytes) {
    forall payload :: line == (DATA + payload) + [NL] && payload != DONE && lib.json.parse(payload).Some? ==>
                        DeltaClean(rules, lib.json.parse(payload).value)
  }

  lemma {:induction false} SamePayload(a: Bytes, b: Bytes)
    requires (DATA + a) + [NL] == (DATA + b) + [NL]
    ensures a == b
  {
    var x, y := (DATA + a) + [NL], (DATA + b) + [NL];
    assert x[6..|x| - 1] == a && y[6..|y| - 1] == b;
  }

  lemma {:induction false} RewrittenLineClean(lib: StreamLib, rules: seq<Rule>, line: Bytes)
    requires Lawful(rules) && Separated(rules) && PrintsBack(lib, rules) && IsLine(line)
    ensures LineClean(lib, rules, RewriteLine(lib, rules, line))
  {
    var after := RewriteLine(lib, rules, line);
    if DATA <= line {
      var was := DataLineSplits(line);
      PayloadOf(lib, line, was);
      forall payload | after == (DATA + payload) + [NL] && payload != DONE && lib.json.parse(payload).Some?
        ensures DeltaClean(rules, lib.json.parse(payload).value)
      {
        if was != DONE && lib.json.parse(was).Some? {
          DeltaScrubbed(rules, lib.json.parse(was).value);
          SamePayload(payload, lib.json.render(ScrubDelta(rules, lib.json.parse(was).value)));
        } else {
          SamePayload(payload, was);
        }
      }
    } else {
      OtherLineKept(lib, rules, line);
      NoPayload(line);
    }
  }

  lemma {:induction false} NoPayload(line: Bytes)
    requires !(DATA <= line)
    ensures forall payload :: line != (DATA + payload) + [NL]
  {
    forall payload ensures line != (DATA + payload) + [NL] {
      assert DATA <= (DATA + payload) + [NL];
    }
  }

  lemma {:induction false} LineIsRewritten(lib: StreamLib, rules: seq<Rule>, line: Bytes)
    requires Lawful(rules) && Separated(rules) && IsLine(line)
    ensures LineRewritten(lib, rules, line, RewriteLine(lib, rules, line))
  {
    if !(DATA <= line) { OtherLineKept(lib, rules, line); }
    forall payload | line == (DATA + payload) + [NL]
      ensures PayloadRewritten(lib, rules, payload, line, RewriteLine(lib, rules, line))
    {
      DataLineRewritten(lib, rules, line, payload);
    }
  }

  /**
   What leaves in a rewritten stream: events that are not UTF-8, and the unfinished tail, leave as they
   came. Of every other event each line becomes what its bytes call for, and no line that holds JSON is
   left with a match in its delta slots.
   */
  lemma {:induction false} StreamScrubbed(lib: StreamLib, rules: seq<Rule>, b: Bytes, i: nat)
    requires Lawful(rules) && Separated(rules) && PrintsOneLine(lib) && PrintsBack(lib, rules)
    requires i < |Events(b)|
    ensures |Events(RewriteStream(lib, rules, b))| == |Events(b)| && Rest(RewriteStream(lib, rules, b)) == Rest(b)
    ensures var before, after := Events(b)[i], Events(RewriteStream(lib, rules, b))[i];
            if !lib.utf8(before) then after == before
            else
              && |Lines(after)| == |Lines(before)|
              && forall j :: 0 <= j < |Lines(after)| ==>
                               LineRewritten(lib, rules, Lines(before)[j], Lines(after)[j]) && LineClean(lib, rules, Lines(after)[j])
  {
    FramingPreserved(lib, rules, b);
    EventsAreEvents(b);
    var before := Events(b)[i];
    if lib.utf8(before) {
      RewrittenEvent(lib, rules, before);
      LinesOfEvent(before);
      forall j | 0 <= j < |Lines(before)|
        ensures var after := RewriteLine(lib, rules, Lines(before)[j]); LineRewritten(lib, rules, Lines(before)[j], after) && LineClean(lib, rules, after)
      {
        LineIsRewritten(lib, rules, Lines(before)[j]);
        RewrittenLineClean(lib, rules, Lines(before)[j]);
      }
    }
  }
}
