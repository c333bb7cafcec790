/**
 What scrubbing keeps, down to each string of a body: under a content slot every string loses its
 matches and nothing else, in the sense of `Redaction.Redacted`, and the rest of the tree is as it was.
 */
module RedactedTrees {
  import opened Seqs
  import opened Json
  import opened Redaction
  import opened BodyScrub

  /** The same tree, but for its strings, each of which is redacted. */
  ghost predicate TreeRedacted(rules: seq<Rule>, v: Json, w: Json)
    decreases v
  {
    match v
    case Str(s) => w.Str? && Redacted(rules, s, w.s)
    case Array(items) =>
      w.Array? && |w.items| == |items| && forall i :: 0 <= i < |items| ==> TreeRedacted(rules, items[i], w.items[i])
    case Object(fields) =>
      && w.Object? && |w.fields| == |fields|
      && forall i :: 0 <= i < |fields| ==> w.fields[i].key == fields[i].key && TreeRedacted(rules, fields[i].value, w.fields[i].value)
    case _ => w == v
  }

  lemma {:induction false} TreeKeepsTheRest(rules: seq<Rule>, v: Json)
    requires Lawful(rules)
    ensures TreeRedacted(rules, v, ScrubJson(rules, v))
  {
    match v {
      case Str(s) => ScrubKeepsTheRest(rules, s);
      case Array(items) =>
        forall i | 0 <= i < |items| ensures TreeRedacted(rules, items[i], ScrubItems(rules, items)[i]) {
          ItemAt(rules, items, i);
          TreeKeepsTheRest(rules, items[i]);
        }
      case Object(fields) =>
        var after := ScrubFields(rules, fields);
        forall i | 0 <= i < |fields| ensures after[i].key == fields[i].key && TreeRedacted(rules, fields[i].value, after[i].value) {
          FieldAt(rules, fields, i);
          TreeKeepsTheRest(rules, fields[i].value);
        }
      case _ =>
    }
  }

  lemma {:induction false} ItemAt(rules: seq<Rule>, items: seq<Json>, i: nat)
    requires Lawful(rules) && i < |items|
    ensures ScrubItems(rules, items)[i] == ScrubJson(rules, items[i])
  {
    if i > 0 { ItemAt(rules, items[1..], i - 1); }
  }

  lemma {:induction false} FieldAt(rules: seq<Rule>, fields: seq<Field>, i: nat)
    requires Lawful(rules) && i < |fields|
    ensures ScrubFields(rules, fields)[i] == Field(fields[i].key, ScrubJson(rules, fields[i].value))
  {
    if i > 0 { FieldAt(rules, fields[1..], i - 1); }
  }

  // ---------- content slots ----------

  /** `v` with what is under `content`, if anything, redacted. */
  ghost predicate ContentRedacted(rules: seq<Rule>, v: Json, w: Json) {
    match Get(v, "content")
    case Some(content) => exists after :: TreeRedacted(rules, content, after) && w == Put(v, "content", after)
    case None => w == v
  }

  ghost predicate ContentsRedacted(rules: seq<Rule>, messages: seq<Json>, after: seq<Json>) {
    |after| == |messages| && forall i :: 0 <= i < |messages| ==> ContentRedacted(rules, messages[i], after[i])
  }

  /** A request with the content of every message redacted. */
  ghost predicate RequestRedacted(rules: seq<Rule>, v: Json, w: Json) {
    match Get(v, "messages")
    case Some(Array(messages)) => exists after :: ContentsRedacted(rules, messages, after) && w == Put(v, "messages", Array(after))
    case _ => w == v
  }

  ghost predicate ChoiceRedacted(rules: seq<Rule>, choice: Json, w: Json) {
    match Get(choice, "message")
    case Some(message) => exists after :: ContentRedacted(rules, message, after) && w == Put(choice, "message", after)
    case None => w == choice
  }

  ghost predicate ChoicesRedacted(rules: seq<Rule>, choices: seq<Json>, after: seq<Json>) {
    |after| == |choices| && forall i :: 0 <= i < |choices| ==> ChoiceRedacted(rules, choices[i], after[i])
  }

  ghost predicate AllChoicesRedacted(rules: seq<Rule>, v: Json, w: Json) {
    match Get(v, "choices")
    case Some(Array(choices)) => exists after :: ChoicesRedacted(rules, choices, after) && w == Put(v, "choices", Array(after))
    case _ => w == v
  }

  /** A response with its content, and that of the message of every choice, redacted. */
  ghost predicate ResponseRedacted(rules: seq<Rule>, v: Json, w: Json) {
    exists mid :: ContentRedacted(rules, v, mid) && AllChoicesRedacted(rules, mid, w)
  }

  lemma {:induction false} ContentKeepsTheRest(rules: seq<Rule>, v: Json)
    requires Lawful(rules)
    ensures ContentRedacted(rules, v, ScrubContent(rules, v))
  {
    if Get(v, "content").Some? { TreeKeepsTheRest(rules, Get(v, "content").value); }
  }

  lemma {:induction false} ContentsKeepTheRest(rules: seq<Rule>, messages: seq<Json>)
    requires Lawful(rules)
    ensures ContentsRedacted(rules, messages, ScrubMessages(rules, messages))
  {
    forall i | 0 <= i < |messages| ensures ContentRedacted(rules, messages[i], ScrubMessages(rules, messages)[i]) {
      ContentKeepsTheRest(rules, messages[i]);
    }
  }

  lemma {:induction false} ChoicesKeepTheRest(rules: seq<Rule>, choices: seq<Json>)
    requires Lawful(rules)
    ensures ChoicesRedacted(rules, choices, ScrubChoices(rules, choices))
  {
    forall i | 0 <= i < |choices| ensures ChoiceRedacted(rules, choices[i], ScrubChoices(rules, choices)[i]) {
      if Get(choices[i], "message").Some? { ContentKeepsTheRest(rules, Get(choices[i], "message").value); }
    }
  }

  lemma {:induction false} AllChoicesKeepTheRest(rules: seq<Rule>, v: Json, w: Json)
    requires Lawful(rules)
    requires w == match Get(v, "choices")
                  case Some(Array(choices)) => Put(v, "choices", Array(ScrubChoices(rules, choices)))
                  case _ => v
    ensures AllChoicesRedacted(rules, v, w)
  {
    match Get(v, "choices") {
      case Some(Array(choices)) => ChoicesKeepTheRest(rules, choices);
      case _ =>
    }
  }

  // ---------- bodies ----------

  /**
   What is forwarded for a request: its very bytes, or the print of a tree that is the parsed one with
   the strings under its messages' contents redacted.
   */
  lemma {:induction false} RequestKeepsTheRest(lib: JsonLib, rules: seq<Rule>, body: Bytes)
    requires Lawful(rules)
    ensures var out := RequestBody(lib, rules, body);
            match lib.parse(body)
            case None => out == body
            case Some(v) => exists w :: RequestRedacted(rules, v, w) && out == if w == v then body else lib.render(w)
  {
    var parsed := lib.parse(body);
    if parsed.Some? {
      var w := ScrubRequest(rules, parsed.value);
      match Get(parsed.value, "messages") {
        case Some(Array(messages)) => ContentsKeepTheRest(rules, messages);
        case _ =>
      }
      assert RequestRedacted(rules, parsed.value, w);
    }
  }

  /** The same for a response, in the slots of both formats. */
  lemma {:induction false} ResponseKeepsTheRest(lib: JsonLib, rules: seq<Rule>, body: Bytes)
    requires Lawful(rules)
    ensures var out := ResponseBody(lib, rules, body);
            match lib.parse(body)
            case None => out == body
            case Some(v) => exists w :: ResponseRedacted(rules, v, w) && out == if w == v then body else lib.render(w)
  {
    var parsed := lib.parse(body);
    if parsed.Some? {
      var w := ScrubResponse(rules, parsed.value);
      ContentKeepsTheRest(rules, parsed.value);
      AllChoicesKeepTheRest(rules, ScrubContent(rules, parsed.value), w);
      assert ResponseRedacted(rules, parsed.value, w);
    }
  }
}
