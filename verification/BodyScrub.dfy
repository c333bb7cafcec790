/**
 Scrubbing whole request and response bodies: every string under a content slot is scrubbed, and
 nothing else in the tree changes. A body with nothing to scrub is forwarded byte for byte.
 */
module BodyScrub {
  import opened Wrappers
  import opened Seqs
  import opened Json
  import opened Redaction

  /** serde_json: parsing, and compact printing, which contains no newline. */
  datatype JsonLib = JsonLib(parse: Bytes -> Option<Json>, render: Json -> Bytes)

  // ---------- a value and everything below it ----------

  function ScrubJson(rules: seq<Rule>, v: Json): Json
    requires Lawful(rules)
  {
    match v
    case Str(s) => Str(Scrub(rules, s))
    case Array(items) => Array(ScrubItems(rules, items))
    case Object(fields) => Object(ScrubFields(rules, fields))
    case _ => v
  }

  function ScrubItems(rules: seq<Rule>, items: seq<Json>): (r: seq<Json>)
    requires Lawful(rules)
    ensures |r| == |items|
  {
    if items == [] then [] else [ScrubJson(rules, items[0])] + ScrubItems(rules, items[1..])
  }

  function ScrubFields(rules: seq<Rule>, fields: seq<Field>): (r: seq<Field>)
    requires Lawful(rules)
    ensures |r| == |fields|
  {
    if fields == [] then []
    else [Field(fields[0].key, ScrubJson(rules, fields[0].value))] + ScrubFields(rules, fields[1..])
  }

  /** No string in the tree holds a match. */
  ghost predicate TreeClean(rules: seq<Rule>, v: Json) {
    match v
    case Str(s) => AllClean(rules, s)
    case Array(items) => ItemsClean(rules, items)
    case Object(fields) => FieldsClean(rules, fields)
    case _ => true
  }

  ghost predicate ItemsClean(rules: seq<Rule>, items: seq<Json>) {
    items == [] || (TreeClean(rules, items[0]) && ItemsClean(rules, items[1..]))
  }

  ghost predicate FieldsClean(rules: seq<Rule>, fields: seq<Field>) {
    fields == [] || (TreeClean(rules, fields[0].value) && FieldsClean(rules, fields[1..]))
  }

  /** Scrubbing a tree cleans every string, keeps shape and all else, and changes it iff it was not clean. */
  lemma {:induction false} TreeScrubbed(rules: seq<Rule>, v: Json)
    requires Lawful(rules) && Separated(rules)
    ensures TreeClean(rules, ScrubJson(rules, v))
    ensures Shape(ScrubJson(rules, v)) == Shape(v)
    ensures ScrubJson(rules, v) == v <==> TreeClean(rules, v)
  {
    match v {
      case Str(s) =>
        ScrubLeavesNothing(rules, s);
        ScrubFixesExactlyClean(rules, s);
      case Array(items) => ItemsScrubbed(rules, items);
      case Object(fields) => FieldsScrubbed(rules, fields);
      case _ =>
    }
  }

  lemma {:induction false} ItemsScrubbed(rules: seq<Rule>, items: seq<Json>)
    requires Lawful(rules) && Separated(rules)
    ensures ItemsClean(rules, ScrubItems(rules, items))
    ensures Shapes(ScrubItems(rules, items)) == Shapes(items)
    ensures ScrubItems(rules, items) == items <==> ItemsClean(rules, items)
  {
    if items != [] {
      TreeScrubbed(rules, items[0]);
      ItemsScrubbed(rules, items[1..]);
      var after := ScrubItems(rules, items);
      assert after[1..] == ScrubItems(rules, items[1..]);
      assert after == items ==> after[0] == items[0] && after[1..] == items[1..];
      assert items == [items[0]] + items[1..];
    }
  }

  lemma {:induction false} FieldsScrubbed(rules: seq<Rule>, fields: seq<Field>)
    requires Lawful(rules) && Separated(rules)
    ensures FieldsClean(rules, ScrubFields(rules, fields))
    ensures FieldShapes(ScrubFields(rules, fields)) == FieldShapes(fields)
    ensures ScrubFields(rules, fields) == fields <==> FieldsClean(rules, fields)
  {
    if fields != [] {
      TreeScrubbed(rules, fields[0].value);
      FieldsScrubbed(rules, fields[1..]);
      var after := ScrubFields(rules, fields);
      assert after[1..] == ScrubFields(rules, fields[1..]);
      assert after == fields ==> after[0] == fields[0] && after[1..] == fields[1..];
      assert fields == [fields[0]] + fields[1..];
    }
  }

  // ---------- content slots ----------

  /** `content` of a message, a response, or a choice's message: the one slot that is scrubbed. */
  function ScrubContent(rules: seq<Rule>, v: Json): Json
    requires Lawful(rules)
  {
    match Get(v, "content")
    case Some(content) => Put(v, "content", ScrubJson(rules, content))
    case None => v
  }

  function ScrubMessages(rules: seq<Rule>, messages: seq<Json>): (r: seq<Json>)
    requires Lawful(rules)
    ensures |r| == |messages| && forall i :: 0 <= i < |messages| ==> r[i] == ScrubContent(rules, messages[i])
  {
    seq(|messages|, i requires 0 <= i < |messages| => ScrubContent(rules, messages[i]))
  }

  function ScrubChoice(rules: seq<Rule>, choice: Json): Json
    requires Lawful(rules)
  {
    match Get(choice, "message")
    case Some(message) => Put(choice, "message", ScrubContent(rules, message))
    case None => choice
  }

  function ScrubChoices(rules: seq<Rule>, choices: seq<Json>): (r: seq<Json>)
    requires Lawful(rules)
    ensures |r| == |choices| && forall i :: 0 <= i < |choices| ==> r[i] == ScrubChoice(rules, choices[i])
  {
    seq(|choices|, i requires 0 <= i < |choices| => ScrubChoice(rules, choices[i]))
  }

  function ScrubRequest(rules: seq<Rule>, v: Json): Json
    requires Lawful(rules)
  {
    match Get(v, "messages")
    case Some(Array(messages)) => Put(v, "messages", Array(ScrubMessages(rules, messages)))
    case _ => v
  }

  function ScrubResponse(rules: seq<Rule>, v: Json): Json
    requires Lawful(rules)
  {
    var w := ScrubContent(rules, v);
    match Get(w, "choices")
    case Some(Array(choices)) => Put(w, "choices", Array(ScrubChoices(rules, choices)))
    case _ => w
  }

  ghost predicate ContentClean(rules: seq<Rule>, v: Json) {
    Get(v, "content").Some? ==> TreeClean(rules, Get(v, "content").value)
  }

  ghost predicate RequestClean(rules: seq<Rule>, v: Json) {
    match Get(v, "messages")
    case Some(Array(messages)) => forall i :: 0 <= i < |messages| ==> ContentClean(rules, messages[i])
    case _ => true
  }

  ghost predicate ChoiceClean(rules: seq<Rule>, choice: Json) {
    Get(choice, "message").Some? ==> ContentClean(rules, Get(choice, "message").value)
  }

  ghost predicate ResponseClean(rules: seq<Rule>, v: Json) {
    && ContentClean(rules, v)
    && match Get(v, "choices")
       case Some(Array(choices)) => forall i :: 0 <= i < |choices| ==> ChoiceClean(rules, choices[i])
       case _ => true
  }

  // ---------- what is kept ----------

  /** A message with the strings under its `content` emptied, and all else as it is. */
  function ContentFrame(v: Json): Json {
    match Get(v, "content")
    case Some(content) => Put(v, "content", Shape(content))
    case None => v
  }

  function Frames(items: seq<Json>, frame: Json -> Json): (r: seq<Json>)
    ensures |r| == |items| && forall i :: 0 <= i < |items| ==> r[i] == frame(items[i])
  {
    seq(|items|, i requires 0 <= i < |items| => frame(items[i]))
  }

  /** `frame` applied to the items of the array under `key`, if there is one. */
  function ArrayFrame(v: Json, key: string, frame: Json -> Json): Json {
    match Get(v, key)
    case Some(Array(items)) => Put(v, key, Array(Frames(items, frame)))
    case _ => v
  }

  /** A request with the strings under the `content` of its messages emptied, and all else as it is. */
  function RequestFrame(v: Json): Json {
    ArrayFrame(v, "messages", ContentFrame)
  }

  /** A choice with the strings under the `content` of its message emptied. */
  function ChoiceFrame(choice: Json): Json {
    match Get(choice, "message")
    case Some(message) => Put(choice, "message", ContentFrame(message))
    case None => choice
  }

  /** A response with the strings of both formats' content slots emptied, and all else as it is. */
  function ResponseFrame(v: Json): Json {
    ArrayFrame(ContentFrame(v), "choices", ChoiceFrame)
  }

  lemma {:induction false} ArrayKept(v: Json, key: string, items: seq<Json>, after: seq<Json>, frame: Json -> Json)
    requires Get(v, key) == Some(Array(items)) && Frames(after, frame) == Frames(items, frame)
    ensures ArrayFrame(Put(v, key, Array(after)), key, frame) == ArrayFrame(v, key, frame)
  {
    GetAfterPut(v, key, Array(after), key);
    PutTwice(v, key, Array(after), Array(Frames(items, frame)));
  }

  lemma {:induction false} PutChanges(v: Json, key: string, w: Json)
    requires Get(v, key).Some?
    ensures Put(v, key, w) == v <==> w == Get(v, key).value
  {
    var at := Find(v.fields, key).value;
    assert v.fields[at := Field(key, w)][at] == Field(key, w);
  }

  /** One slot: clean afterwards, changed iff it was not, nothing outside its strings touched. */
  lemma {:induction false} ContentScrubbed(rules: seq<Rule>, v: Json)
    requires Lawful(rules) && Separated(rules)
    ensures ContentClean(rules, ScrubContent(rules, v))
    ensures ScrubContent(rules, v) == v <==> ContentClean(rules, v)
    ensures ContentFrame(ScrubContent(rules, v)) == ContentFrame(v)
  {
    if Get(v, "content").Some? {
      var content := Get(v, "content").value;
      var after := ScrubJson(rules, content);
      TreeScrubbed(rules, content);
      PutChanges(v, "content", after);
      GetAfterPut(v, "content", after, "content");
      PutTwice(v, "content", after, Shape(content));
    }
  }

  lemma {:induction false} MessagesScrubbed(rules: seq<Rule>, messages: seq<Json>)
    requires Lawful(rules) && Separated(rules)
    ensures forall i :: 0 <= i < |messages| ==> ContentClean(rules, ScrubMessages(rules, messages)[i])
    ensures ScrubMessages(rules, messages) == messages <==> forall i :: 0 <= i < |messages| ==> ContentClean(rules, messages[i])
    ensures Frames(ScrubMessages(rules, messages), ContentFrame) == Frames(messages, ContentFrame)
  {
    var after := ScrubMessages(rules, messages);
    forall i | 0 <= i < |messages|
      ensures ContentClean(rules, after[i]) && ContentFrame(after[i]) == ContentFrame(messages[i])
      ensures after[i] == messages[i] <==> ContentClean(rules, messages[i])
    {
      ContentScrubbed(rules, messages[i]);
    }
  }

  /** Requests: no match is left under a message's `content`, no-ops are exact, and only strings under there change. */
  lemma {:induction false} RequestScrubbed(rules: seq<Rule>, v: Json)
    requires Lawful(rules) && Separated(rules)
    ensures RequestClean(rules, ScrubRequest(rules, v))
    ensures ScrubRequest(rules, v) == v <==> RequestClean(rules, v)
    ensures RequestFrame(ScrubRequest(rules, v)) == RequestFrame(v)
  {
    match Get(v, "messages") {
      case Some(Array(messages)) =>
        var after := Array(ScrubMessages(rules, messages));
        MessagesScrubbed(rules, messages);
        PutChanges(v, "messages", after);
        GetAfterPut(v, "messages", after, "messages");
        ArrayKept(v, "messages", messages, ScrubMessages(rules, messages), ContentFrame);
      case _ =>
    }
  }

  lemma {:induction false} ChoiceScrubbed(rules: seq<Rule>, choice: Json)
    requires Lawful(rules) && Separated(rules)
    ensures ChoiceClean(rules, ScrubChoice(rules, choice))
    ensures ScrubChoice(rules, choice) == choice <==> ChoiceClean(rules, choice)
    ensures ChoiceFrame(ScrubChoice(rules, choice)) == ChoiceFrame(choice)
  {
    if Get(choice, "message").Some? {
      var message := Get(choice, "message").value;
      var after := ScrubContent(rules, message);
      ContentScrubbed(rules, message);
      PutChanges(choice, "message", after);
      GetAfterPut(choice, "message", after, "message");
      PutTwice(choice, "message", after, ContentFrame(message));
    }
  }

  lemma {:induction false} ChoicesScrubbed(rules: seq<Rule>, choices: seq<Json>)
    requires Lawful(rules) && Separated(rules)
    ensures forall i :: 0 <= i < |choices| ==> ChoiceClean(rules, ScrubChoices(rules, choices)[i])
    ensures ScrubChoices(rules, choices) == choices <==> forall i :: 0 <= i < |choices| ==> ChoiceClean(rules, choices[i])
    ensures Frames(ScrubChoices(rules, choices), ChoiceFrame) == Frames(choices, ChoiceFrame)
  {
    var after := ScrubChoices(rules, choices);
    forall i | 0 <= i < |choices|
      ensures ChoiceClean(rules, after[i]) && ChoiceFrame(after[i]) == ChoiceFrame(choices[i])
      ensures after[i] == choices[i] <==> ChoiceClean(rules, choices[i])
    {
      ChoiceScrubbed(rules, choices[i]);
    }
  }

  /** Putting something under another key leaves the `content` slot alone, and the other way round. */
  lemma {:induction false} FrameAfterPut(v: Json, key: string, w: Json)
    requires key != "content"
    ensures ContentFrame(Put(v, key, w)) == Put(ContentFrame(v), key, w)
    ensures Get(ContentFrame(v), key) == Get(v, key)
    ensures Get(Put(v, key, w), "content") == Get(v, "content")
  {
    GetAfterPut(v, key, w, "content");
    if Get(v, "content").Some? {
      var content := Shape(Get(v, "content").value);
      PutSwap(v, key, w, "content", content);
      GetAfterPut(v, "content", content, key);
    }
  }

  lemma {:induction false} ContentOnly(rules: seq<Rule>, v: Json, k: string)
    requires Lawful(rules) && k != "content"
    ensures Get(ScrubContent(rules, v), k) == Get(v, k)
  {
    if Get(v, "content").Some? {
      GetAfterPut(v, "content", ScrubJson(rules, Get(v, "content").value), k);
    }
  }

  lemma {:induction false} ResponseKept(rules: seq<Rule>, v: Json)
    requires Lawful(rules) && Separated(rules)
    ensures ResponseFrame(ScrubResponse(rules, v)) == ResponseFrame(v)
  {
    var w, frame := ScrubContent(rules, v), ContentFrame(v);
    ContentScrubbed(rules, v);
    ContentOnly(rules, v, "choices");
    FrameAfterPut(v, "choices", Null);
    match Get(v, "choices") {
      case Some(Array(choices)) =>
        var after := ScrubChoices(rules, choices);
        ChoicesScrubbed(rules, choices);
        FrameAfterPut(w, "choices", Array(after));
        ArrayKept(frame, "choices", choices, after, ChoiceFrame);
      case _ =>
    }
  }

  /** Responses: no match is left in the content slots of either format, no-ops are exact, and only strings in there change. */
  lemma {:induction false} ResponseScrubbed(rules: seq<Rule>, v: Json)
    requires Lawful(rules) && Separated(rules)
    ensures ResponseClean(rules, ScrubResponse(rules, v))
    ensures ScrubResponse(rules, v) == v <==> ResponseClean(rules, v)
    ensures ResponseFrame(ScrubResponse(rules, v)) == ResponseFrame(v)
  {
    ResponseKept(rules, v);
    ContentScrubbed(rules, v);
    ContentOnly(rules, v, "choices");
    match Get(v, "choices") {
      case Some(Array(choices)) =>
        var w, after := ScrubContent(rules, v), Array(ScrubChoices(rules, choices));
        ChoicesScrubbed(rules, choices);
        PutChanges(w, "choices", after);
        GetAfterPut(w, "choices", after, "choices");
        FrameAfterPut(w, "choices", after);
      case _ =>
    }
  }

  // ---------- bodies ----------

  function RequestBody(lib: JsonLib, rules: seq<Rule>, body: Bytes): Bytes
    requires Lawful(rules)
  {
    match lib.parse(body)
    case None => body
    case Some(v) => if ScrubRequest(rules, v) == v then body else lib.render(ScrubRequest(rules, v))
  }

  function ResponseBody(lib: JsonLib, rules: seq<Rule>, body: Bytes): Bytes
    requires Lawful(rules)
  {
    match lib.parse(body)
    case None => body
    case Some(v) => if ScrubResponse(rules, v) == v then body else lib.render(ScrubResponse(rules, v))
  }

  // ---------- the walks over a mutable tree ----------

  /** How many times a rule called `name` fires over a whole tree. */
  function FiredTree(rules: seq<Rule>, v: Json, name: string): nat
    requires Lawful(rules)
  {
    match v
    case Str(s) => Fired(rules, s, name)
    case Array(items) => FiredItems(rules, items, name)
    case Object(fields) => FiredFields(rules, fields, name)
    case _ => 0
  }

  function FiredItems(rules: seq<Rule>, items: seq<Json>, name: string): nat
    requires Lawful(rules)
  {
    if items == [] then 0 else FiredTree(rules, items[0], name) + FiredItems(rules, items[1..], name)
  }

  function FiredFields(rules: seq<Rule>, fields: seq<Field>, name: string): nat
    requires Lawful(rules)
  {
    if fields == [] then 0 else FiredTree(rules, fields[0].value, name) + FiredFields(rules, fields[1..], name)
  }

  function FiredContent(rules: seq<Rule>, v: Json, name: string): nat
    requires Lawful(rules)
  {
    match Get(v, "content") case Some(content) => FiredTree(rules, content, name) case None => 0
  }

  function FiredContents(rules: seq<Rule>, messages: seq<Json>, n: nat, name: string): nat
    requires Lawful(rules) && n <= |messages|
  {
    if n == 0 then 0 else FiredContents(rules, messages, n - 1, name) + FiredContent(rules, messages[n - 1], name)
  }

  function FiredChoice(rules: seq<Rule>, choice: Json, name: string): nat
    requires Lawful(rules)
  {
    match Get(choice, "message") case Some(message) => FiredContent(rules, message, name) case None => 0
  }

  function FiredChoices(rules: seq<Rule>, choices: seq<Json>, n: nat, name: string): nat
    requires Lawful(rules) && n <= |choices|
  {
    if n == 0 then 0 else FiredChoices(rules, choices, n - 1, name) + FiredChoice(rules, choices[n - 1], name)
  }

  /** How many times a rule called `name` fires over the message contents of a request. */
  function FiredRequest(rules: seq<Rule>, v: Json, name: string): nat
    requires Lawful(rules)
  {
    match Get(v, "messages")
    case Some(Array(messages)) => FiredContents(rules, messages, |messages|, name)
    case _ => 0
  }

  /** How many times a rule called `name` fires over the content slots of a response. */
  function FiredResponse(rules: seq<Rule>, v: Json, name: string): nat
    requires Lawful(rules)
  {
    FiredContent(rules, v, name) +
    match Get(v, "choices")
    case Some(Array(choices)) => FiredChoices(rules, choices, |choices|, name)
    case _ => 0
  }

  /** `scrub_value_in_place`: rewrite every string of the tree, and say whether anything changed. */
  method ScrubValue(engine: RedactionEngine, v: Json) returns (w: Json, changed: bool)
    requires Lawful(engine.rules)
    modifies engine
    ensures w == ScrubJson(engine.rules, v) && changed == (w != v)
    ensures forall name :: Count(engine.counters, name) == Count(old(engine.counters), name) + FiredTree(engine.rules, v, name)
    decreases v
  {
    match v {
      case Str(s) =>
        var scrubbed := engine.ScrubText(s);
        w, changed := Str(scrubbed), scrubbed != s;
      case Array(items) =>
        var after;
        after, changed := ScrubValues(engine, items);
        w := Array(after);
      case Object(fields) =>
        var after;
        after, changed := ScrubFieldValues(engine, fields);
        w := Object(after);
      case _ =>
        w, changed := v, false;
    }
  }

  method ScrubValues(engine: RedactionEngine, items: seq<Json>) returns (after: seq<Json>, changed: bool)
    requires Lawful(engine.rules)
    modifies engine
    ensures after == ScrubItems(engine.rules, items) && changed == (after != items)
    ensures forall name :: Count(engine.counters, name) == Count(old(engine.counters), name) + FiredItems(engine.rules, items, name)
    decreases items
  {
    after, changed := [], false;
    if items != [] {
      var first, rest, c, d;
      first, c := ScrubValue(engine, items[0]);
      rest, d := ScrubValues(engine, items[1..]);
      after, changed := [first] + rest, c || d;
      assert items == [items[0]] + items[1..];
      assert after[0] == first && after[1..] == rest;
    }
  }

  method ScrubFieldValues(engine: RedactionEngine, fields: seq<Field>) returns (after: seq<Field>, changed: bool)
    requires Lawful(engine.rules)
    modifies engine
    ensures after == ScrubFields(engine.rules, fields) && changed == (after != fields)
    ensures forall name :: Count(engine.counters, name) == Count(old(engine.counters), name) + FiredFields(engine.rules, fields, name)
    decreases fields
  {
    after, changed := [], false;
    if fields != [] {
      var first, rest, c, d;
      first, c := ScrubValue(engine, fields[0].value);
      rest, d := ScrubFieldValues(engine, fields[1..]);
      after, changed := [Field(fields[0].key, first)] + rest, c || d;
      assert fields == [fields[0]] + fields[1..];
      assert after[0] == Field(fields[0].key, first) && after[1..] == rest;
    }
  }

  /** `scrub_request_body`: the every message's content, then the original bytes unless something changed. */
  method ScrubRequestBody(engine: RedactionEngine, lib: JsonLib, body: Bytes) returns (out: Bytes)
    requires Lawful(engine.rules)
    modifies engine
    ensures out == RequestBody(lib, engine.rules, body)
    ensures forall name :: Count(engine.counters, name) == Count(old(engine.counters), name) +
                           match lib.parse(body) case Some(v) => FiredRequest(engine.rules, v, name) case None => 0
  {
    var parsed := lib.parse(body);
    if parsed.None? {
      return body;
    }
    var v := parsed.value;
    var messages := Get(v, "messages");
    if messages.None? || !messages.value.Array? {
      return body;
    }
    var after, anyChanged := ScrubMessagesOf(engine, messages.value.items);
    if !anyChanged {
      return body;
    }
    return lib.render(Put(v, "messages", Array(after)));
  }

  method ScrubMessagesOf(engine: RedactionEngine, items: seq<Json>) returns (after: seq<Json>, changed: bool)
    requires Lawful(engine.rules)
    modifies engine
    ensures after == ScrubMessages(engine.rules, items) && changed == (after != items)
    ensures forall name :: Count(engine.counters, name) == Count(old(engine.counters), name) + FiredContents(engine.rules, items, |items|, name)
  {
    after, changed := [], false;
    for i := 0 to |items|
      invariant |after| == i && forall k :: 0 <= k < i ==> after[k] == ScrubContent(engine.rules, items[k])
      invariant forall name :: Count(engine.counters, name) == Count(old(engine.counters), name) + FiredContents(engine.rules, items, i, name)
      invariant changed <==> exists k :: 0 <= k < i && after[k] != items[k]
    {
      var item, c := ScrubContentOf(engine, items[i]);
      after := after + [item];
      changed := changed || c;
    }
    assert after == ScrubMessages(engine.rules, items);
  }

  method ScrubContentOf(engine: RedactionEngine, v: Json) returns (w: Json, changed: bool)
    requires Lawful(engine.rules)
    modifies engine
    ensures w == ScrubContent(engine.rules, v) && changed == (w != v)
    ensures forall name :: Count(engine.counters, name) == Count(old(engine.counters), name) + FiredContent(engine.rules, v, name)
  {
    var content := Get(v, "content");
    if content.None? {
      return v, false;
    }
    var scrubbed;
    scrubbed, changed := ScrubValue(engine, content.value);
    w := Put(v, "content", scrubbed);
  }

  /** `scrub_response_body`: top-level `content`, then every choice's message. */
  method ScrubResponseBody(engine: RedactionEngine, lib: JsonLib, body: Bytes) returns (out: Bytes)
    requires Lawful(engine.rules)
    modifies engine
    ensures out == ResponseBody(lib, engine.rules, body)
    ensures forall name :: Count(engine.counters, name) == Count(old(engine.counters), name) +
                           match lib.parse(body) case Some(v) => FiredResponse(engine.rules, v, name) case None => 0
  {
    var parsed := lib.parse(body);
    if parsed.None? {
      return body;
    }
    var v := parsed.value;
    var w, anyChanged := ScrubContentOf(engine, v);
    var choices := Get(w, "choices");
    ContentOnly(engine.rules, v, "choices");
    if choices.Some? && choices.value.Array? {
      var items := choices.value.items;
      var after, choiceChanged := ScrubChoicesOf(engine, items);
      anyChanged := anyChanged || choiceChanged;
      w := Put(w, "choices", Array(after));
    }
    if !anyChanged {
      return body;
    }
    return lib.render(w);
  }

  method ScrubChoiceOf(engine: RedactionEngine, choice: Json) returns (w: Json, changed: bool)
    requires Lawful(engine.rules)
    modifies engine
    ensures w == ScrubChoice(engine.rules, choice) && changed == (w != choice)
    ensures forall name :: Count(engine.counters, name) == Count(old(engine.counters), name) + FiredChoice(engine.rules, choice, name)
  {
    var message := Get(choice, "message");
    if message.None? {
      return choice, false;
    }
    var scrubbed;
    scrubbed, changed := ScrubContentOf(engine, message.value);
    w := Put(choice, "message", scrubbed);
  }

  method ScrubChoicesOf(engine: RedactionEngine, items: seq<Json>) returns (after: seq<Json>, changed: bool)
    requires Lawful(engine.rules)
    modifies engine
    ensures after == ScrubChoices(engine.rules, items) && changed == (after != items)
    ensures forall name :: Count(engine.counters, name) == Count(old(engine.counters), name) + FiredChoices(engine.rules, items, |items|, name)
  {
    after, changed := [], false;
    for i := 0 to |items|
      invariant |after| == i && forall k :: 0 <= k < i ==> after[k] == ScrubChoice(engine.rules, items[k])
      invariant forall name :: Count(engine.counters, name) == Count(old(engine.counters), name) + FiredChoices(engine.rules, items, i, name)
      invariant changed <==> exists k :: 0 <= k < i && after[k] != items[k]
    {
      var item, c := ScrubChoiceOf(engine, items[i]);
      after := after + [item];
      changed := changed || c;
    }
    assert after == ScrubChoices(engine.rules, items);
  }

  /**
   What is forwarded for a parseable request: the very bytes that came if no message content holds a
   match, and otherwise the scrubbed tree, printed. It holds no match under a message's content, and
   differs from the tree that came in strings under there only.
   */
  lemma {:induction false} RequestBodyLaw(lib: JsonLib, rules: seq<Rule>, body: Bytes)
    requires Lawful(rules) && Separated(rules) && lib.parse(body).Some?
    ensures var v := lib.parse(body).value;
            var w := ScrubRequest(rules, v);
            && RequestBody(lib, rules, body) == (if RequestClean(rules, v) then body else lib.render(w))
            && RequestClean(rules, w) && RequestFrame(w) == RequestFrame(v)
  {
    RequestScrubbed(rules, lib.parse(body).value);
  }

  /** The same for responses. */
  lemma {:induction false} ResponseBodyLaw(lib: JsonLib, rules: seq<Rule>, body: Bytes)
    requires Lawful(rules) && Separated(rules) && lib.parse(body).Some?
    ensures var v := lib.parse(body).value;
            var w := ScrubResponse(rules, v);
            && ResponseBody(lib, rules, body) == (if ResponseClean(rules, v) then body else lib.render(w))
            && ResponseClean(rules, w) && ResponseFrame(w) == ResponseFrame(v)
  {
    ResponseScrubbed(rules, lib.parse(body).value);
  }
}
