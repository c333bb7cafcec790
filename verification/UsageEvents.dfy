/**
 What the usage counter reads in one event, on the event's bytes: which lines carry data, what they
 amount to together, and what that does to the totals.
 */
module UsageEvents {
  import opened Texts
  import opened Wrappers
  import opened Seqs
  import opened Sse
  import opened Json
  import opened SseRewrite
  import opened SseUsage

  // ---------- lines ----------

  ghost predicate NoNl(b: Bytes) {
    forall i :: 0 <= i < |b| ==> b[i] != NL
  }

  lemma {:induction false} FirstNl(b: Bytes)
    ensures match FindNl(b) case Some(i) => NoNl(b[..i]) && b[i] == NL case None => NoNl(b)
  {
    if b != [] && b[0] != NL {
      FirstNl(b[1..]);
      if FindNl(b).Some? {
        var i := FindNl(b).value;
        assert b[..i] == [b[0]] + b[1..][..i - 1];
      }
    }
  }

  lemma {:induction false} JoinedCons(first: Bytes, parts: seq<Bytes>)
    requires parts != []
    ensures Joined([first] + parts, [NL]) == first + [NL] + Joined(parts, [NL])
    decreases |parts|
  {
    var all, n := [first] + parts, |parts| - 1;
    assert all[..|all| - 1] == [first] + parts[..n];
    if n == 0 {
      assert all[..1] == [first];
    } else {
      JoinedCons(first, parts[..n]);
      Associates(first + [NL], Joined(parts[..n], [NL]), [NL]);
      Associates(first + [NL], Joined(parts[..n], [NL]) + [NL], parts[n]);
    }
  }

  ghost predicate NoNls(parts: seq<Bytes>) {
    forall i :: 0 <= i < |parts| ==> NoNl(parts[i])
  }

  lemma {:induction false} OneMorePart(b: Bytes, first: Bytes, more: Bytes, parts: seq<Bytes>)
    requires b == first + [NL] + more && NoNl(first) && NoNls(parts) && parts != [] && Joined(parts, [NL]) == more
    ensures Joined([first] + parts, [NL]) == b && NoNls([first] + parts)
  {
    JoinedCons(first, parts);
  }

  /** Splitting at newlines gives pieces without any, which joined by newlines are the bytes again. */
  lemma {:induction false} SplitJoins(b: Bytes)
    ensures SplitNl(b) != [] && Joined(SplitNl(b), [NL]) == b && NoNls(SplitNl(b))
    decreases |b|
  {
    FirstNl(b);
    match FindNl(b) {
      case None =>
        assert SplitNl(b) == [b];
      case Some(i) =>
        var first, more := b[..i], b[i + 1..];
        SplitJoins(more);
        assert b == first + [NL] + more;
        OneMorePart(b, first, more, SplitNl(more));
    }
  }

  // ---------- the data of an event ----------

  /** The line is `data:`, at most one of the blanks behind it, and the payload. */
  ghost predicate Carries(lib: UsageLib, line: Bytes, payload: Bytes) {
    lib.stream.utf8(line) && (line == DATA + payload || (line == DATA_BARE + payload && !(DATA <= line)))
  }

  function HasPayload(lib: UsageLib, lines: seq<Bytes>): nat -> bool {
    (i: nat) => i < |lines| && Payload(lib, lines[i]).Some?
  }

  lemma {:induction false} PayloadIs(lib: UsageLib, line: Bytes)
    ensures Payload(lib, line).Some? ==> Carries(lib, line, Payload(lib, line).value)
    ensures forall payload :: Carries(lib, line, payload) ==> Payload(lib, line) == Some(payload)
  {
    forall payload | Carries(lib, line, payload) ensures Payload(lib, line) == Some(payload) {
      if line == DATA + payload { assert line[6..] == payload; } else { assert line[5..] == payload; }
    }
  }

  function PayloadsIn(lib: UsageLib, lines: seq<Bytes>, n: nat): seq<Bytes>
    requires n <= |lines|
  {
    if n == 0 then []
    else match Payload(lib, lines[n - 1])
         case Some(p) => PayloadsIn(lib, lines, n - 1) + [p]
         case None => PayloadsIn(lib, lines, n - 1)
  }

  /** The payloads from the first on that is not empty. */
  function FromFirstFull(payloads: seq<Bytes>): seq<Bytes> {
    if payloads == [] then []
    else if FromFirstFull(payloads[..|payloads| - 1]) == [] && payloads[|payloads| - 1] == [] then []
    else FromFirstFull(payloads[..|payloads| - 1]) + [payloads[|payloads| - 1]]
  }

  lemma {:induction false} FullStartsFull(payloads: seq<Bytes>)
    ensures FromFirstFull(payloads) != [] ==> FromFirstFull(payloads)[0] != []
    ensures FromFirstFull(payloads) == [] <==> Joined(FromFirstFull(payloads), [NL]) == []
  {
    var full := FromFirstFull(payloads);
    if payloads != [] {
      FullStartsFull(payloads[..|payloads| - 1]);
    }
    if full != [] {
      JoinedAt(full, [NL], 0);
    }
  }

  lemma {:induction false} OneMorePayload(payloads: seq<Bytes>, p: Bytes)
    ensures WithPayload(Joined(FromFirstFull(payloads), [NL]), p) == Joined(FromFirstFull(payloads + [p]), [NL])
  {
    FullStartsFull(payloads);
    assert (payloads + [p])[..|payloads|] == payloads;
    var full := FromFirstFull(payloads);
    if full != [] { JoinedSnoc(full, [NL], p); }
  }

  lemma {:induction false} DataFrom(lib: UsageLib, lines: seq<Bytes>, n: nat)
    requires n <= |lines|
    ensures EventData(lib, lines[n..], Joined(FromFirstFull(PayloadsIn(lib, lines, n)), [NL])) ==
            Joined(FromFirstFull(PayloadsIn(lib, lines, |lines|)), [NL])
    decreases |lines| - n
  {
    if n < |lines| {
      assert lines[n..][0] == lines[n] && lines[n..][1..] == lines[n + 1..];
      if Payload(lib, lines[n]).Some? { OneMorePayload(PayloadsIn(lib, lines, n), Payload(lib, lines[n]).value); }
      DataFrom(lib, lines, n + 1);
    }
  }

  /** The payloads that these lines carry. */
  ghost predicate AllCarry(lib: UsageLib, lines: seq<Bytes>, places: seq<nat>, payloads: seq<Bytes>) {
    |payloads| == |places| && forall i :: 0 <= i < |places| ==> places[i] < |lines| && Carries(lib, lines[places[i]], payloads[i])
  }

  lemma {:induction false} OneMoreCarries(lib: UsageLib, lines: seq<Bytes>, places: seq<nat>, payloads: seq<Bytes>, n: nat, p: Bytes)
    requires AllCarry(lib, lines, places, payloads) && n < |lines| && Carries(lib, lines[n], p)
    ensures AllCarry(lib, lines, places + [n], payloads + [p])
  {
  }

  lemma {:induction false} PayloadsAt(lib: UsageLib, lines: seq<Bytes>, n: nat)
    requires n <= |lines|
    ensures AllCarry(lib, lines, Places(n, HasPayload(lib, lines)), PayloadsIn(lib, lines, n))
  {
    if n > 0 {
      PayloadsAt(lib, lines, n - 1);
      if Payload(lib, lines[n - 1]).Some? {
        PayloadIs(lib, lines[n - 1]);
        OneMoreCarries(lib, lines, Places(n - 1, HasPayload(lib, lines)), PayloadsIn(lib, lines, n - 1), n - 1, Payload(lib, lines[n - 1]).value);
      }
    }
  }

  lemma {:induction false} FullIsTail(payloads: seq<Bytes>) returns (k: nat)
    ensures k <= |payloads| && FromFirstFull(payloads) == payloads[k..]
    ensures (forall i :: 0 <= i < k ==> payloads[i] == []) && (k < |payloads| ==> payloads[k] != [])
  {
    k := 0;
    if payloads != [] {
      var n := |payloads| - 1;
      k := FullIsTail(payloads[..n]);
      assert forall i :: 0 <= i < n ==> payloads[..n][i] == payloads[i];
      if k == n && payloads[n] == [] {
        k := n + 1;
      } else {
        assert payloads[k..] == payloads[..n][k..] + [payloads[n]];
      }
    }
  }

  /**
   The data of an event: its lines, the payloads of exactly those that carry one, in order, and of these
   the ones from the first that is not empty on, with a newline between them.
   */
  lemma {:induction false} DataOfLaw(lib: UsageLib, event: Bytes) returns (lines: seq<Bytes>, places: seq<nat>, payloads: seq<Bytes>, k: nat)
    ensures event == Joined(lines, [NL]) && forall i :: 0 <= i < |lines| ==> NoNl(lines[i])
    ensures AllCarry(lib, lines, places, payloads)
    ensures forall i, j :: 0 <= i < j < |places| ==> places[i] < places[j]
    ensures forall i: nat, p :: i < |lines| && Carries(lib, lines[i], p) ==> i in places
    ensures k <= |payloads| && (forall i :: 0 <= i < k ==> payloads[i] == []) && (k < |payloads| ==> payloads[k] != [])
    ensures DataOf(lib, event) == Joined(payloads[k..], [NL])
  {
    lines := SplitNl(event);
    places, payloads := Places(|lines|, HasPayload(lib, lines)), PayloadsIn(lib, lines, |lines|);
    SplitJoins(event);
    PayloadsAt(lib, lines, |lines|);
    PlacesArePicked(|lines|, HasPayload(lib, lines));
    forall i: nat, p | i < |lines| && Carries(lib, lines[i], p) ensures i in places {
      PayloadIs(lib, lines[i]);
      assert HasPayload(lib, lines)(i);
    }
    k := FullIsTail(payloads);
    DataFrom(lib, lines, 0);
    assert lines[0..] == lines;
  }

  // ---------- what it counts ----------

  /** `path` leads from `v` through these values. */
  ghost predicate LeadsThrough(v: Json, path: seq<string>, values: seq<Json>) {
    && |values| == |path| + 1 && values[0] == v
    && forall i :: 0 <= i < |path| ==> Get(values[i], path[i]) == Some(values[i + 1])
  }

  lemma {:induction false} PointerLeads(v: Json, path: seq<string>, values: seq<Json>)
    requires LeadsThrough(v, path, values)
    ensures Pointer(v, path) == Some(values[|path|])
  {
    if path != [] { PointerLeads(values[1], path[1..], values[1..]); }
  }

  lemma {:induction false} PointerFound(v: Json, path: seq<string>) returns (values: seq<Json>)
    requires Pointer(v, path).Some?
    ensures LeadsThrough(v, path, values)
  {
    values := [v];
    if path != [] {
      var more := PointerFound(Get(v, path[0]).value, path[1..]);
      values := [v] + more;
    }
  }

  /** `path` leads from `v` to `w`. */
  ghost predicate LeadsTo(v: Json, path: seq<string>, w: Json) {
    exists values: seq<Json> :: LeadsThrough(v, path, values) && values[|path|] == w
  }

  lemma {:induction false} PointerIs(v: Json, path: seq<string>, w: Json)
    ensures Pointer(v, path) == Some(w) <==> LeadsTo(v, path, w)
  {
    if Pointer(v, path) == Some(w) {
      var values := PointerFound(v, path);
      PointerLeads(v, path, values);
    }
    if LeadsTo(v, path, w) {
      var values: seq<Json> :| LeadsThrough(v, path, values) && values[|path|] == w;
      PointerLeads(v, path, values);
    }
  }

  /** At the end of the path stands an unsigned integer with these low 32 bits. */
  ghost predicate CountAt(v: Json, path: seq<string>, count: nat) {
    exists text: string, n: nat :: LeadsTo(v, path, Number(text, Some(n))) && count == n % 0x1_0000_0000
  }

  ghost predicate ModelAt(v: Json, path: seq<string>, model: string) {
    LeadsTo(v, path, Str(model))
  }

  lemma {:induction false} TokensIs(v: Json, path: seq<string>, count: nat)
    ensures Tokens(Pointer(v, path)) == Some(count) <==> CountAt(v, path, count)
  {
    if Tokens(Pointer(v, path)) == Some(count) {
      var w := Pointer(v, path).value;
      PointerIs(v, path, w);
      assert LeadsTo(v, path, Number(w.text, Some(w.u64.value)));
    }
    if CountAt(v, path, count) {
      var text: string, n: nat :| LeadsTo(v, path, Number(text, Some(n))) && count == n % 0x1_0000_0000;
      PointerIs(v, path, Number(text, Some(n)));
    }
  }

  lemma {:induction false} TextIs(v: Json, path: seq<string>, model: string)
    ensures Text(Pointer(v, path)) == Some(model) <==> ModelAt(v, path, model)
  {
    PointerIs(v, path, Str(model));
  }

  /** The count at the first of the paths that ends in one, or else what there was. */
  ghost predicate CountsFirst(v: Json, paths: seq<seq<string>>, before: nat, after: nat) {
    if paths == [] then after == before
    else CountAt(v, paths[0], after) || ((forall count: nat :: !CountAt(v, paths[0], count)) && CountsFirst(v, paths[1..], before, after))
  }

  ghost predicate ModelFirst(v: Json, paths: seq<seq<string>>, before: string, after: string) {
    if paths == [] then after == before
    else ModelAt(v, paths[0], after) || ((forall model: string :: !ModelAt(v, paths[0], model)) && ModelFirst(v, paths[1..], before, after))
  }

  function TokensOf(v: Json, paths: seq<seq<string>>): (r: seq<Option<nat>>)
    ensures |r| == |paths| && forall i :: 0 <= i < |paths| ==> r[i] == Tokens(Pointer(v, paths[i]))
  {
    seq(|paths|, i requires 0 <= i < |paths| => Tokens(Pointer(v, paths[i])))
  }

  function TextsOf(v: Json, paths: seq<seq<string>>): (r: seq<Option<string>>)
    ensures |r| == |paths| && forall i :: 0 <= i < |paths| ==> r[i] == Text(Pointer(v, paths[i]))
  {
    seq(|paths|, i requires 0 <= i < |paths| => Text(Pointer(v, paths[i])))
  }

  lemma {:induction false} FirstIsCounted(v: Json, paths: seq<seq<string>>, before: nat)
    ensures CountsFirst(v, paths, before, FirstOf(TokensOf(v, paths), before))
  {
    if paths != [] {
      FirstIsCounted(v, paths[1..], before);
      assert TokensOf(v, paths)[1..] == TokensOf(v, paths[1..]);
      forall count: nat ensures Tokens(Pointer(v, paths[0])) == Some(count) <==> CountAt(v, paths[0], count) {
        TokensIs(v, paths[0], count);
      }
    }
  }

  lemma {:induction false} FirstIsModel(v: Json, paths: seq<seq<string>>, before: string)
    ensures ModelFirst(v, paths, before, FirstOf(TextsOf(v, paths), before))
  {
    if paths != [] {
      FirstIsModel(v, paths[1..], before);
      assert TextsOf(v, paths)[1..] == TextsOf(v, paths[1..]);
      forall model: string ensures Text(Pointer(v, paths[0])) == Some(model) <==> ModelAt(v, paths[0], model) {
        TextIs(v, paths[0], model);
      }
    }
  }

  /** What the JSON of an event does to the totals. */
  ghost predicate CountsAs(v: Json, before: Totals, after: Totals) {
    && CountsFirst(v, [["usage", "prompt_tokens"], ["usage", "input_tokens"], ["message", "usage", "input_tokens"]],
                   before.inputTokens, after.inputTokens)
    && CountsFirst(v, [["usage", "completion_tokens"], ["usage", "output_tokens"], ["message", "usage", "output_tokens"]],
                   before.outputTokens, after.outputTokens)
    && ModelFirst(v, [["model"], ["message", "model"]], before.model, after.model)
  }

  /**
   An event counts nothing if it has no data, if its data is the sentinel, or is not JSON. Any other
   event sets each total to what stands at the first of its places, top level before message and
   OpenAI's names before Anthropic's, and leaves it if nothing does. Counts keep their low 32 bits.
   */
  lemma {:induction false} EventLaw(lib: UsageLib, t: Totals, event: Bytes)
    ensures var data, after := DataOf(lib, event), ProcessEvent(lib, t, event);
            if data == [] || lib.trim(data) == DONE || lib.stream.json.parse(data).None? then after == t
            else CountsAs(lib.stream.json.parse(data).value, t, after)
  {
    var data := DataOf(lib, event);
    if data != [] && lib.trim(data) != DONE && lib.stream.json.parse(data).Some? {
      UpdateCounts(t, lib.stream.json.parse(data).value);
    }
  }

  lemma {:induction false} FirstOfThreeCounts(v: Json, a: seq<string>, b: seq<string>, c: seq<string>, before: nat)
    ensures CountsFirst(v, [a, b, c], before, FirstOf([Tokens(Pointer(v, a)), Tokens(Pointer(v, b)), Tokens(Pointer(v, c))], before))
  {
    FirstIsCounted(v, [a, b, c], before);
    assert TokensOf(v, [a, b, c]) == [Tokens(Pointer(v, a)), Tokens(Pointer(v, b)), Tokens(Pointer(v, c))];
  }

  lemma {:induction false} FirstOfTwoModels(v: Json, a: seq<string>, b: seq<string>, before: string)
    ensures ModelFirst(v, [a, b], before, FirstOf([Text(Pointer(v, a)), Text(Pointer(v, b))], before))
  {
    FirstIsModel(v, [a, b], before);
    assert TextsOf(v, [a, b]) == [Text(Pointer(v, a)), Text(Pointer(v, b))];
  }

  lemma {:induction false} UpdateCounts(t: Totals, v: Json)
    ensures CountsAs(v, t, Update(t, v))
  {
    UpdateMeans(t, v);
    FirstOfThreeCounts(v, ["usage", "prompt_tokens"], ["usage", "input_tokens"], ["message", "usage", "input_tokens"], t.inputTokens);
    FirstOfThreeCounts(v, ["usage", "completion_tokens"], ["usage", "output_tokens"], ["message", "usage", "output_tokens"], t.outputTokens);
    FirstOfTwoModels(v, ["model"], ["message", "model"], t.model);
  }
}
