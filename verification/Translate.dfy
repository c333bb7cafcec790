/** Conversations in the OpenAI format: one message per tool result instead of one block. */
module Translate {
  import opened Texts
  import opened Wrappers
  import opened Agent
  import opened AgentLaws
  import Seqs

  datatype Call = Call(id: string, name: string, arguments: string)

  /** A message of the request, by role. Calls are left out of the JSON when there are none. */
  datatype Msg =
    | System(content: string)
    | UserMsg(content: string)
    | AssistantMsg(text: Option<string>, calls: seq<Call>)
    | ToolMsg(callId: string, content: string)

  // ---------- what a message translates to ----------

  function Body(result: Block): string
    requires result.ToolResult?
  {
    if result.isError then "ERROR: " + result.content else result.content
  }

  /** One message per result among the first `n` blocks. */
  function ToolMsgs(blocks: seq<Block>, n: nat): seq<Msg>
    requires n <= |blocks|
  {
    if n == 0 then []
    else if blocks[n - 1].ToolResult? then ToolMsgs(blocks, n - 1) + [ToolMsg(blocks[n - 1].toolUseId, Body(blocks[n - 1]))]
    else ToolMsgs(blocks, n - 1)
  }

  /** The calls among the first `n` blocks; `render` writes the arguments as JSON text. */
  function Calls(blocks: seq<Block>, n: nat, render: string -> string): seq<Call>
    requires n <= |blocks|
  {
    if n == 0 then []
    else if blocks[n - 1].ToolUse? then
      Calls(blocks, n - 1, render) + [Call(blocks[n - 1].id, blocks[n - 1].name, render(blocks[n - 1].input))]
    else Calls(blocks, n - 1, render)
  }

  function JoinedText(blocks: seq<Block>): Option<string> {
    if TextsIn(blocks, |blocks|) == [] then None else Some(TextOf(blocks))
  }

  function Translated(m: Message, render: string -> string): seq<Msg> {
    match m
    case User(blocks) =>
      var results := ToolMsgs(blocks, |blocks|);
      (match JoinedText(blocks) case Some(text) => results + [UserMsg(text)] case None => results)
    case Assistant(blocks) =>
      [AssistantMsg(JoinedText(blocks), Calls(blocks, |blocks|, render))]
  }

  /** `head` followed by the translation of the first `n` messages. */
  function Built(head: seq<Msg>, ms: seq<Message>, n: nat, render: string -> string): seq<Msg>
    requires n <= |ms|
  {
    if n == 0 then head else Built(head, ms, n - 1, render) + Translated(ms[n - 1], render)
  }

  function Prompt(system: Option<string>): seq<Msg> {
    match system case Some(text) => [System(text)] case None => []
  }

  /** The messages of a request: the system prompt, if any, and the conversation. */
  function Request(system: Option<string>, ms: seq<Message>, render: string -> string): seq<Msg> {
    Built(Prompt(system), ms, |ms|, render)
  }

  // ---------- the code ----------

  method TranslateUser(blocks: seq<Block>, before: seq<Msg>, render: string -> string) returns (out: seq<Msg>)
    ensures out == before + Translated(User(blocks), render)
  {
    out := before;
    var texts: seq<string> := [];
    for i := 0 to |blocks|
      invariant out == before + ToolMsgs(blocks, i) && texts == TextsIn(blocks, i)
    {
      match blocks[i] {
        case Text(text) => texts := texts + [text];
        case ToolResult(id, content, isError) =>
          var body := if isError then "ERROR: " + content else content;
          out := out + [ToolMsg(id, body)];
        case ToolUse(_, _, _) =>
      }
    }
    if texts != [] {
      out := out + [UserMsg(Joined(texts, "\n"))];
    }
  }

  method TranslateAssistant(blocks: seq<Block>, before: seq<Msg>, render: string -> string) returns (out: seq<Msg>)
    ensures out == before + Translated(Assistant(blocks), render)
  {
    var texts: seq<string> := [];
    var calls: seq<Call> := [];
    for i := 0 to |blocks|
      invariant texts == TextsIn(blocks, i) && calls == Calls(blocks, i, render)
    {
      match blocks[i] {
        case Text(text) => texts := texts + [text];
        case ToolUse(id, name, input) => calls := calls + [Call(id, name, render(input))];
        case ToolResult(_, _, _) =>
      }
    }
    out := before + [AssistantMsg(if texts != [] then Some(Joined(texts, "\n")) else None, calls)];
  }

  /** The message fold of `build_request`. */
  method BuildMessages(system: Option<string>, ms: seq<Message>, render: string -> string) returns (out: seq<Msg>)
    ensures out == Request(system, ms, render)
  {
    out := [];
    if system.Some? {
      out := out + [System(system.value)];
    }
    for i := 0 to |ms|
      invariant out == Built(Prompt(system), ms, i, render)
    {
      match ms[i] {
        case User(blocks) => out := TranslateUser(blocks, out, render);
        case Assistant(blocks) => out := TranslateAssistant(blocks, out, render);
      }
    }
  }

  // ---------- calls and results stay paired ----------

  /** Call `k` of the assistant message at `a` is answered `k` messages behind the next one. */
  ghost predicate CallAnswered(out: seq<Msg>, a: nat, k: nat)
    requires a + 1 + k < |out| && out[a].AssistantMsg? && k < |out[a].calls|
  {
    out[a + 1 + k].ToolMsg? && out[a + 1 + k].callId == out[a].calls[k].id
  }

  /** The calls of the assistant message at `a` are answered right behind it, one by one, and by no more than that. */
  ghost predicate AnsweredAt(out: seq<Msg>, a: nat)
    requires a < |out| && out[a].AssistantMsg?
  {
    && a + |out[a].calls| < |out|
    && (forall k: nat :: k < |out[a].calls| ==> CallAnswered(out, a, k))
    && (a + 1 + |out[a].calls| < |out| ==> !out[a + 1 + |out[a].calls|].ToolMsg?)
  }

  /** The tool message at `i` is one of those behind the assistant message at `a`. */
  ghost predicate Belongs(out: seq<Msg>, i: nat, a: nat)
  {
    a < i < |out| && out[a].AssistantMsg? && i <= a + |out[a].calls|
  }

  /**
   Every tool message answers a call of the nearest assistant message before it, in call order; every
   call is answered once; and nothing stands between calls and results.
   */
  ghost predicate Paired(out: seq<Msg>) {
    && (forall a: nat :: a < |out| && out[a].AssistantMsg? ==> AnsweredAt(out, a))
    && (forall i: nat :: i < |out| && out[i].ToolMsg? ==> exists a: nat :: Belongs(out, i, a))
  }

  lemma {:induction false} AnsweredBefore(out: seq<Msg>, more: seq<Msg>, a: nat)
    requires a < |out| && out[a].AssistantMsg? && AnsweredAt(out, a) && (more != [] ==> !more[0].ToolMsg?)
    ensures AnsweredAt(out + more, a)
  {
    var both := out + more;
    assert both[a] == out[a];
    forall k: nat | k < |both[a].calls| ensures CallAnswered(both, a, k) {
      assert CallAnswered(out, a, k);
    }
    var last := a + 1 + |out[a].calls|;
    if last < |both| { assert both[last] == if last < |out| then out[last] else more[0]; }
  }

  lemma {:induction false} AnsweredBehind(out: seq<Msg>, more: seq<Msg>, a: nat)
    requires a < |more| && more[a].AssistantMsg? && AnsweredAt(more, a)
    ensures AnsweredAt(out + more, |out| + a)
  {
    var both, b := out + more, |out| + a;
    assert both[b] == more[a];
    forall k: nat | k < |both[b].calls| ensures CallAnswered(both, b, k) {
      assert CallAnswered(more, a, k);
      assert both[b + 1 + k] == more[a + 1 + k];
    }
    var last := a + 1 + |more[a].calls|;
    if last < |more| { assert both[|out| + last] == more[last]; }
  }

  lemma {:induction false} PairedAppend(out: seq<Msg>, more: seq<Msg>)
    requires Paired(out) && Paired(more) && (more != [] ==> !more[0].ToolMsg?)
    ensures Paired(out + more)
  {
    var both := out + more;
    forall a: nat | a < |both| && both[a].AssistantMsg? ensures AnsweredAt(both, a) {
      if a < |out| { AnsweredBefore(out, more, a); } else { AnsweredBehind(out, more, a - |out|); }
    }
    forall i: nat | i < |both| && both[i].ToolMsg? ensures exists a: nat :: Belongs(both, i, a) {
      if i < |out| {
        var a: nat :| Belongs(out, i, a);
        assert Belongs(both, i, a);
      } else {
        var a: nat :| Belongs(more, i - |out|, a);
        assert Belongs(both, i, a + |out|);
      }
    }
  }

  lemma {:induction false} CallsAreUses(blocks: seq<Block>, n: nat, render: string -> string)
    requires n <= |blocks|
    ensures |Calls(blocks, n, render)| == |UsesIn(blocks, n)|
  {
    if n > 0 { CallsAreUses(blocks, n - 1, render); }
  }

  lemma {:induction false} CallIsUse(blocks: seq<Block>, n: nat, k: nat, render: string -> string)
    requires n <= |blocks| && k < |Calls(blocks, n, render)| && k < |UsesIn(blocks, n)|
    ensures var use := UsesIn(blocks, n)[k]; Calls(blocks, n, render)[k] == Call(use.id, use.name, render(use.input))
  {
    CallsAreUses(blocks, n - 1, render);
    if k < |Calls(blocks, n - 1, render)| { CallIsUse(blocks, n - 1, k, render); }
  }

  lemma {:induction false} ResultsOnly(blocks: seq<Block>, n: nat)
    requires n <= |blocks| && forall i :: 0 <= i < |blocks| ==> blocks[i].ToolResult?
    ensures TextsIn(blocks, n) == [] && |ToolMsgs(blocks, n)| == n
  {
    if n > 0 { ResultsOnly(blocks, n - 1); }
  }

  lemma {:induction false} ResultAt(blocks: seq<Block>, n: nat, i: nat)
    requires i < n <= |blocks| && forall j :: 0 <= j < |blocks| ==> blocks[j].ToolResult?
    ensures |ToolMsgs(blocks, n)| == n && ToolMsgs(blocks, n)[i] == ToolMsg(blocks[i].toolUseId, Body(blocks[i]))
  {
    ResultsOnly(blocks, n - 1);
    if i < n - 1 { ResultAt(blocks, n - 1, i); }
  }

  /** An assistant message followed by the answers to its calls, and nothing else. */
  lemma {:induction false} GroupPaired(asked: Msg, answers: seq<Msg>)
    requires asked.AssistantMsg? && |asked.calls| == |answers|
    requires forall k :: 0 <= k < |answers| ==> answers[k].ToolMsg? && answers[k].callId == asked.calls[k].id
    ensures Paired([asked] + answers)
  {
    var group := [asked] + answers;
    forall k: nat | k < |asked.calls| ensures CallAnswered(group, 0, k) {
      assert group[0 + 1 + k] == answers[k];
    }
    assert AnsweredAt(group, 0);
    forall i: nat | i < |group| && group[i].ToolMsg? ensures exists a: nat :: Belongs(group, i, a) {
      assert Belongs(group, i, 0);
    }
  }

  /** A turn and its reply translate to a group that is paired in itself. */
  lemma {:induction false} TurnPaired(turn: seq<Block>, reply: seq<Block>, render: string -> string)
    requires Answers(turn, reply)
    ensures Paired(Translated(Assistant(turn), render) + Translated(User(reply), render))
  {
    var calls, answers := Calls(turn, |turn|, render), ToolMsgs(reply, |reply|);
    CallsAreUses(turn, |turn|, render);
    ResultsOnly(reply, |reply|);
    forall k | 0 <= k < |answers| ensures answers[k].ToolMsg? && answers[k].callId == calls[k].id {
      CallIsUse(turn, |turn|, k, render);
      ResultAt(reply, |reply|, k);
    }
    GroupPaired(AssistantMsg(JoinedText(turn), calls), answers);
    assert Translated(User(reply), render) == answers;
  }

  /** An unanswered assistant message keeps the list paired exactly if it makes no calls. */
  lemma {:induction false} LastTurnPaired(out: seq<Msg>, turn: seq<Block>, render: string -> string)
    requires Paired(out)
    ensures Paired(out + Translated(Assistant(turn), render)) <==> ToolUses(turn) == []
  {
    CallsAreUses(turn, |turn|, render);
    var last := Translated(Assistant(turn), render);
    if ToolUses(turn) == [] {
      assert AnsweredAt(last, 0);
      PairedAppend(out, last);
    } else {
      assert (out + last)[|out|] == last[0];
      assert !AnsweredAt(out + last, |out|);
    }
  }

  lemma {:induction false} GroupAdded(before: seq<Msg>, turn: seq<Block>, reply: seq<Block>, render: string -> string)
    requires Paired(before) && Answers(turn, reply)
    ensures Paired((before + Translated(Assistant(turn), render)) + Translated(User(reply), render))
  {
    var group := Translated(Assistant(turn), render) + Translated(User(reply), render);
    TurnPaired(turn, reply, render);
    PairedAppend(before, group);
    Seqs.Associates(before, Translated(Assistant(turn), render), Translated(User(reply), render));
  }

  lemma {:induction false} TaskPaired(head: seq<Msg>, task: string, render: string -> string)
    requires Paired(head)
    ensures Paired(head + Translated(User([Text(task)]), render))
  {
    var blocks := [Text(task)];
    assert TextsIn(blocks, 0) == [] && ToolMsgs(blocks, 0) == [];
    assert TextsIn(blocks, 1) == [task] && ToolMsgs(blocks, 1) == [];
    assert Translated(User(blocks), render) == [UserMsg(TextOf(blocks))];
    PairedAppend(head, [UserMsg(TextOf(blocks))]);
  }

  /** A user turn and its predecessor in a history. */
  lemma {:induction false} PairAt(task: string, ms: seq<Message>, i: nat)
    requires History(task, ms) && i < |ms|
    ensures i == 0 ==> ms[i] == User([Text(task)])
    ensures i % 2 == 0 ==> ms[i] == User(ms[i].content)
    ensures i % 2 == 1 ==> ms[i] == Assistant(ms[i].content)
    ensures i > 0 && i % 2 == 0 ==> Answers(ms[i - 1].content, ms[i].content)
  {
  }

  /** What the histories of the loop look like to the translation: a task, then pairs of turn and reply. */
  ghost predicate Shaped(task: string, ms: seq<Message>, k: nat) {
    && 2 * k < |ms|
    && (if k == 0 then ms[0] == User([Text(task)])
        else && ms[2 * k - 1] == Assistant(ms[2 * k - 1].content) && ms[2 * k] == User(ms[2 * k].content)
             && Answers(ms[2 * k - 1].content, ms[2 * k].content) && Shaped(task, ms, k - 1))
  }

  lemma {:induction false} HistoryShaped(task: string, ms: seq<Message>, k: nat)
    requires History(task, ms) && 2 * k < |ms|
    ensures Shaped(task, ms, k)
  {
    if k > 0 {
      HistoryShaped(task, ms, k - 1);
      PairAt(task, ms, 2 * k - 1);
      PairAt(task, ms, 2 * k);
    } else {
      PairAt(task, ms, 0);
    }
  }

  lemma {:induction false} GroupBuilt(head: seq<Msg>, ms: seq<Message>, n: nat, render: string -> string)
    requires n + 1 < |ms| && Paired(Built(head, ms, n, render))
    requires ms[n] == Assistant(ms[n].content) && ms[n + 1] == User(ms[n + 1].content) && Answers(ms[n].content, ms[n + 1].content)
    ensures Paired(Built(head, ms, n + 2, render))
  {
    GroupAdded(Built(head, ms, n, render), ms[n].content, ms[n + 1].content, render);
    assert Built(head, ms, n + 1, render) == Built(head, ms, n, render) + Translated(ms[n], render);
    assert Built(head, ms, n + 2, render) == Built(head, ms, n + 1, render) + Translated(ms[n + 1], render);
  }

  /** The first `2 * k + 1` messages of a history, which end in a user turn, translate to a paired list. */
  lemma {:induction false} UserEndPaired(head: seq<Msg>, task: string, ms: seq<Message>, k: nat, render: string -> string)
    requires Shaped(task, ms, k) && Paired(head)
    ensures Paired(Built(head, ms, 2 * k + 1, render))
  {
    if k == 0 {
      assert Built(head, ms, 0, render) == head;
      TaskPaired(head, task, render);
    } else {
      var n := 2 * k - 1;
      UserEndPaired(head, task, ms, k - 1, render);
      GroupBuilt(head, ms, n, render);
    }
  }

  lemma {:induction false} AssistantEndPaired(head: seq<Msg>, task: string, ms: seq<Message>, k: nat, turn: seq<Block>, render: string -> string)
    requires Shaped(task, ms, k) && Paired(head) && |ms| == 2 * k + 2 && ms[2 * k + 1] == Assistant(turn)
    ensures Paired(Built(head, ms, 2 * k + 2, render)) <==> ToolUses(turn) == []
  {
    UserEndPaired(head, task, ms, k, render);
    assert Built(head, ms, 2 * k + 2, render) == Built(head, ms, 2 * k + 1, render) + Translated(Assistant(turn), render);
    LastTurnPaired(Built(head, ms, 2 * k + 1, render), turn, render);
  }

  lemma {:induction false} EndsInUser(head: seq<Msg>, task: string, ms: seq<Message>, k: nat, render: string -> string)
    requires History(task, ms) && Paired(head) && |ms| == 2 * k + 1
    ensures ms[|ms| - 1].User? && Paired(Built(head, ms, |ms|, render))
  {
    HistoryShaped(task, ms, k);
    UserEndPaired(head, task, ms, k, render);
    PairAt(task, ms, 2 * k);
  }

  lemma {:induction false} EndsInTurn(head: seq<Msg>, task: string, ms: seq<Message>, k: nat, render: string -> string)
    requires History(task, ms) && Paired(head) && |ms| == 2 * k + 2
    ensures ms[|ms| - 1].Assistant?
    ensures Paired(Built(head, ms, |ms|, render)) <==> ToolUses(ms[|ms| - 1].content) == []
  {
    HistoryShaped(task, ms, k);
    PairAt(task, ms, 2 * k + 1);
    AssistantEndPaired(head, task, ms, k, ms[2 * k + 1].content, render);
  }

  /**
   Any history translates to a paired list if it ends in a user turn; if it ends in an assistant turn,
   exactly if that turn makes no calls.
   */
  lemma {:induction false} HistoryPaired(head: seq<Msg>, task: string, ms: seq<Message>, render: string -> string)
    requires History(task, ms) && Paired(head)
    ensures Paired(Built(head, ms, |ms|, render))
            <==> (ms[|ms| - 1].Assistant? ==> ToolUses(ms[|ms| - 1].content) == [])
  {
    var k := (|ms| - 1) / 2;
    if |ms| == 2 * k + 1 { EndsInUser(head, task, ms, k, render); } else { EndsInTurn(head, task, ms, k, render); }
  }

  /** Every request the agent loop sends, in any run, is paired. */
  lemma {:induction false} RequestsArePaired(manifest: Manifest, world: World, n: nat, system: Option<string>, render: string -> string)
    ensures var s := After(manifest, world, n);
            s.Going? ==> Paired(Request(system, s.messages, render))
  {
    ConversationLaw(manifest, world, n);
    var s := After(manifest, world, n);
    if s.Going? {
      ConversationIsHistory(manifest.task, world, s.messages);
      HistoryPaired(Prompt(system), manifest.task, s.messages, render);
    }
  }

  // ---------- nothing is lost ----------

  /** `before` followed by the calls in the first `n` messages of a request. */
  function CallsIn(before: seq<Call>, out: seq<Msg>, n: nat): seq<Call>
    requires n <= |out|
  {
    if n == 0 then before
    else if out[n - 1].AssistantMsg? then CallsIn(before, out, n - 1) + out[n - 1].calls
    else CallsIn(before, out, n - 1)
  }

  /** `before` followed by the results in the first `n` messages of a request. */
  function ResultsIn(before: seq<Msg>, out: seq<Msg>, n: nat): seq<Msg>
    requires n <= |out|
  {
    if n == 0 then before
    else if out[n - 1].ToolMsg? then ResultsIn(before, out, n - 1) + [out[n - 1]]
    else ResultsIn(before, out, n - 1)
  }

  /** `before` followed by the calls of the assistant turns among the first `n` messages of a conversation. */
  function CallsMade(before: seq<Call>, ms: seq<Message>, n: nat, render: string -> string): seq<Call>
    requires n <= |ms|
  {
    if n == 0 then before
    else
      var earlier := CallsMade(before, ms, n - 1, render);
      match ms[n - 1]
      case Assistant(blocks) => earlier + Calls(blocks, |blocks|, render)
      case User(_) => earlier
  }

  /** `before` followed by the results of the user turns. */
  function ResultsGiven(before: seq<Msg>, ms: seq<Message>, n: nat): seq<Msg>
    requires n <= |ms|
  {
    if n == 0 then before
    else
      var earlier := ResultsGiven(before, ms, n - 1);
      match ms[n - 1]
      case User(blocks) => earlier + ToolMsgs(blocks, |blocks|)
      case Assistant(_) => earlier
  }

  lemma {:induction false} CallsInAppend(before: seq<Call>, a: seq<Msg>, b: seq<Msg>, n: nat)
    requires n <= |b|
    ensures CallsIn(before, a + b, |a| + n) == CallsIn(CallsIn(before, a, |a|), b, n)
  {
    if n == 0 { CallsInPrefix(before, a, b, |a|); } else { CallsInAppend(before, a, b, n - 1); }
  }

  lemma {:induction false} CallsInPrefix(before: seq<Call>, a: seq<Msg>, b: seq<Msg>, n: nat)
    requires n <= |a|
    ensures CallsIn(before, a + b, n) == CallsIn(before, a, n)
  {
    if n > 0 { CallsInPrefix(before, a, b, n - 1); }
  }

  lemma {:induction false} ResultsInAppend(before: seq<Msg>, a: seq<Msg>, b: seq<Msg>, n: nat)
    requires n <= |b|
    ensures ResultsIn(before, a + b, |a| + n) == ResultsIn(ResultsIn(before, a, |a|), b, n)
  {
    if n == 0 { ResultsInPrefix(before, a, b, |a|); } else { ResultsInAppend(before, a, b, n - 1); }
  }

  lemma {:induction false} ResultsInPrefix(before: seq<Msg>, a: seq<Msg>, b: seq<Msg>, n: nat)
    requires n <= |a|
    ensures ResultsIn(before, a + b, n) == ResultsIn(before, a, n)
  {
    if n > 0 { ResultsInPrefix(before, a, b, n - 1); }
  }

  /** Tool messages are results and no calls. */
  lemma {:induction false} ToolMsgsOnly(calls: seq<Call>, results: seq<Msg>, blocks: seq<Block>, n: nat)
    requires n <= |blocks|
    ensures var out := ToolMsgs(blocks, n);
            CallsIn(calls, out, |out|) == calls && ResultsIn(results, out, |out|) == results + out
  {
    if n == 0 {
      assert results + [] == results;
    } else {
      ToolMsgsOnly(calls, results, blocks, n - 1);
      var out := ToolMsgs(blocks, n - 1);
      if blocks[n - 1].ToolResult? {
        var last := ToolMsg(blocks[n - 1].toolUseId, Body(blocks[n - 1]));
        CallsInPrefix(calls, out, [last], |out|);
        ResultsInPrefix(results, out, [last], |out|);
        Seqs.Associates(results, out, [last]);
      }
    }
  }

  lemma {:induction false} UserConserves(calls: seq<Call>, results: seq<Msg>, blocks: seq<Block>, render: string -> string)
    ensures var out := Translated(User(blocks), render);
            CallsIn(calls, out, |out|) == calls && ResultsIn(results, out, |out|) == results + ToolMsgs(blocks, |blocks|)
  {
    var tools := ToolMsgs(blocks, |blocks|);
    ToolMsgsOnly(calls, results, blocks, |blocks|);
    if JoinedText(blocks).Some? {
      var last := UserMsg(JoinedText(blocks).value);
      CallsInPrefix(calls, tools, [last], |tools|);
      ResultsInPrefix(results, tools, [last], |tools|);
    }
  }

  lemma {:induction false} AssistantConserves(calls: seq<Call>, results: seq<Msg>, blocks: seq<Block>, render: string -> string)
    ensures var out := Translated(Assistant(blocks), render);
            CallsIn(calls, out, |out|) == calls + Calls(blocks, |blocks|, render) && ResultsIn(results, out, |out|) == results
  {
    var out := Translated(Assistant(blocks), render);
    assert CallsIn(calls, out, 0) == calls && ResultsIn(results, out, 0) == results;
  }

  /** On top of `calls` and `results`, a request has those of what precedes the conversation, then its own. */
  ghost predicate Conserved(calls: seq<Call>, results: seq<Msg>, head: seq<Msg>, ms: seq<Message>, n: nat, render: string -> string)
    requires n <= |ms|
  {
    var out := Built(head, ms, n, render);
    && CallsIn(calls, out, |out|) == CallsMade(CallsIn(calls, head, |head|), ms, n, render)
    && ResultsIn(results, out, |out|) == ResultsGiven(ResultsIn(results, head, |head|), ms, n)
  }

  lemma {:induction false} NoneConserved(calls: seq<Call>, results: seq<Msg>, head: seq<Msg>, ms: seq<Message>, render: string -> string)
    ensures Conserved(calls, results, head, ms, 0, render)
  {
    assert Built(head, ms, 0, render) == head;
  }

  lemma {:induction false} NextConserved(calls: seq<Call>, results: seq<Msg>, head: seq<Msg>, ms: seq<Message>, n: nat, render: string -> string)
    requires 0 < n <= |ms| && Conserved(calls, results, head, ms, n - 1, render)
    ensures Conserved(calls, results, head, ms, n, render)
  {
    var out, more := Built(head, ms, n - 1, render), Translated(ms[n - 1], render);
    assert Built(head, ms, n, render) == out + more;
    CallsInAppend(calls, out, more, |more|);
    ResultsInAppend(results, out, more, |more|);
    match ms[n - 1] {
      case User(blocks) => UserConserves(CallsIn(calls, out, |out|), ResultsIn(results, out, |out|), blocks, render);
      case Assistant(blocks) => AssistantConserves(CallsIn(calls, out, |out|), ResultsIn(results, out, |out|), blocks, render);
    }
  }

  /** Every call and every result of any conversation is in its translation once, in the same order. */
  lemma {:induction false} TranslationConserves(calls: seq<Call>, results: seq<Msg>, head: seq<Msg>, ms: seq<Message>, n: nat, render: string -> string)
    requires n <= |ms|
    ensures Conserved(calls, results, head, ms, n, render)
  {
    if n == 0 {
      NoneConserved(calls, results, head, ms, render);
    } else {
      TranslationConserves(calls, results, head, ms, n - 1, render);
      NextConserved(calls, results, head, ms, n, render);
    }
  }

  /** The calls in a request, and the results in it. */
  function RequestCalls(out: seq<Msg>): seq<Call> { CallsIn([], out, |out|) }

  function RequestResults(out: seq<Msg>): seq<Msg> { ResultsIn([], out, |out|) }

  /** The calls and the results of a whole conversation. */
  function AllCalls(ms: seq<Message>, render: string -> string): seq<Call> { CallsMade([], ms, |ms|, render) }

  function AllResults(ms: seq<Message>): seq<Msg> { ResultsGiven([], ms, |ms|) }

  lemma {:induction false} PromptHasNone(system: Option<string>, calls: seq<Call>, results: seq<Msg>)
    ensures CallsIn(calls, Prompt(system), |Prompt(system)|) == calls
    ensures ResultsIn(results, Prompt(system), |Prompt(system)|) == results
  {
    if system.Some? {
      var out := Prompt(system);
      assert out == [System(system.value)] && CallsIn(calls, out, 0) == calls && ResultsIn(results, out, 0) == results;
    }
  }

  /** A request holds exactly the calls and the results of its conversation, in order. */
  lemma {:induction false} RequestConserves(system: Option<string>, ms: seq<Message>, render: string -> string)
    ensures RequestCalls(Request(system, ms, render)) == AllCalls(ms, render)
    ensures RequestResults(Request(system, ms, render)) == AllResults(ms)
  {
    PromptHasNone(system, [], []);
    TranslationConserves([], [], Prompt(system), ms, |ms|, render);
  }
}
