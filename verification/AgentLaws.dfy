/** What every run of the agent loop keeps, for every script of the provider and the tools. */
module AgentLaws {
  import opened Seqs
  import opened Texts
  import opened Wrappers
  import opened Wrapping
  import opened Agent

  lemma {:induction false} RoundsInduction(round: (State, nat) -> State, start: State, n: nat, kept: (State, nat) -> bool)
    requires kept(start, 0)
    requires forall s: State, k: nat {:trigger round(s, k)} :: kept(s, k) ==> kept(round(s, k), k + 1)
    ensures kept(Rounds(round, start, n), n)
  {
    if n > 0 { RoundsInduction(round, start, n - 1, kept); }
  }

  /** A property kept by every turn, and by standing still, holds after any number of turns. */
  lemma {:induction false} RunInduction(manifest: Manifest, world: World, n: nat, kept: (State, nat) -> bool)
    requires kept(Start(manifest), 0)
    requires forall s: State, k: nat {:trigger Turn(manifest, world, s, k)} ::
               s.Going? && kept(s, k) ==> kept(Turn(manifest, world, s, k), k + 1)
    requires forall s: State, k: nat {:trigger kept(s, k)} :: !s.Going? && kept(s, k) ==> kept(s, k + 1)
    ensures kept(After(manifest, world, n), n)
  {
    RoundsInduction(Round(manifest, world), Start(manifest), n, kept);
  }

  // ---------- the conversation ----------

  /** A reply holds exactly one result per call, with the same ids in the same order, and nothing else. */
  ghost predicate Answers(turn: seq<Block>, reply: seq<Block>) {
    && |reply| == |ToolUses(turn)|
    && forall i :: 0 <= i < |reply| ==> reply[i].ToolResult? && reply[i].toolUseId == ToolUses(turn)[i].id
  }

  /** Starts with the task, roles alternate, and every assistant turn but a last one is answered. */
  ghost predicate History(task: string, ms: seq<Message>) {
    && |ms| >= 1 && ms[0] == User([Text(task)])
    && (forall i :: 0 <= i < |ms| ==> (ms[i].User? <==> i % 2 == 0))
    && (forall i :: 0 <= i < |ms| - 1 && ms[i].Assistant? ==> Answers(ms[i].content, ms[i + 1].content))
  }

  function ContentOf(world: World, i: nat): seq<Block> {
    match world.provider(i) case Ok(resp) => resp.content case Err(_) => []
  }

  /** How many calls the first `i` turns ask for. */
  function CallsBefore(world: World, i: nat): nat {
    if i == 0 then 0 else CallsBefore(world, i - 1) + |ToolUses(ContentOf(world, i - 1))|
  }

  /** The result shown for call `j` of turn `i` is what that tool said, under the id of that call. */
  predicate ResultIsFrom(world: World, i: nat, j: nat, shown: Block)
    requires j < |ToolUses(ContentOf(world, i))|
  {
    var use := ToolUses(ContentOf(world, i))[j];
    var n := CallsBefore(world, i) + j;
    && Answered(world, use, n).Ok?
    && var out := Answered(world, use, n).value;
    && shown == ToolResult(use.id, Shown(world, Ran(use.id, out, use.name), n), out.exit != 0)
  }

  ghost predicate ReplyIsFrom(world: World, i: nat, reply: seq<Block>) {
    && |reply| == |ToolUses(ContentOf(world, i))|
    && forall j :: 0 <= j < |reply| ==> ResultIsFrom(world, i, j, reply[j])
  }

  /** Turn `i` of a conversation is the provider's `i`-th answer, and what follows it are its results. */
  ghost predicate TurnHolds(world: World, ms: seq<Message>, i: nat)
    requires 2 * i + 1 < |ms|
  {
    && world.provider(i).Ok? && ms[2 * i + 1] == Assistant(world.provider(i).value.content)
    && (2 * i + 2 < |ms| ==>
          world.provider(i).value.stop.WantsTools? && ms[2 * i + 2].User? && ReplyIsFrom(world, i, ms[2 * i + 2].content))
  }

  ghost predicate Conversation(task: string, world: World, ms: seq<Message>) {
    && |ms| >= 1 && ms[0] == User([Text(task)])
    && forall i: nat :: 2 * i + 1 < |ms| ==> TurnHolds(world, ms, i)
  }

  lemma {:induction false} ConversationIsHistory(task: string, world: World, ms: seq<Message>)
    requires Conversation(task, world, ms)
    ensures History(task, ms)
  {
    forall i | 0 <= i < |ms|
      ensures ms[i].User? <==> i % 2 == 0
      ensures i < |ms| - 1 && ms[i].Assistant? ==> Answers(ms[i].content, ms[i + 1].content)
    {
      var k := (i - 1) / 2;
      if i % 2 == 1 {
        assert i == 2 * k + 1;
        assert TurnHolds(world, ms, k);
        if i + 1 < |ms| { RepliesAnswer(world, k, ms[i + 1].content); }
      } else if i > 0 {
        assert i == 2 * k + 2;
        assert TurnHolds(world, ms, k);
      }
    }
  }

  lemma {:induction false} RepliesAnswer(world: World, i: nat, reply: seq<Block>)
    requires ReplyIsFrom(world, i, reply)
    ensures Answers(ContentOf(world, i), reply)
  {
    forall j | 0 <= j < |reply|
      ensures reply[j].ToolResult? && reply[j].toolUseId == ToolUses(ContentOf(world, i))[j].id
    {
      assert ResultIsFrom(world, i, j, reply[j]);
    }
  }

  /** What a successful tool phase returns for the first `n` calls. */
  ghost predicate PhaseIsFrom(world: World, uses: seq<Use>, n: nat, first: nat, ran: seq<Ran>)
    requires n <= |uses|
  {
    && |ran| == n
    && forall j :: 0 <= j < n ==>
         && Answered(world, uses[j], first + j).Ok?
         && ran[j] == Ran(uses[j].id, Answered(world, uses[j], first + j).value, uses[j].name)
  }

  /** A phase that succeeds returns every result, in call order. */
  lemma {:induction false} PhaseResults(world: World, before: seq<EventKind>, uses: seq<Use>, n: nat, first: nat)
    requires n <= |uses| && PhaseIn(world, before, uses, n, first).ran.Ok?
    ensures PhaseIsFrom(world, uses, n, first, PhaseIn(world, before, uses, n, first).ran.value)
  {
    if n > 0 { PhaseResults(world, before, uses, n - 1, first); }
  }

  lemma {:induction false} PhaseFails(world: World, before: seq<EventKind>, uses: seq<Use>, n: nat, first: nat) returns (j: nat)
    requires n <= |uses| && PhaseIn(world, before, uses, n, first).ran.Err?
    ensures j < n && Answered(world, uses[j], first + j).Err?
  {
    if PhaseIn(world, before, uses, n - 1, first).ran.Err? {
      j := PhaseFails(world, before, uses, n - 1, first);
    } else {
      j := n - 1;
    }
  }

  lemma {:induction false} ReplyAt(world: World, ran: seq<Ran>, n: nat, first: nat, j: nat)
    requires j < n <= |ran|
    ensures ReplyIn(world, ran, n, first)[j] == ToolResult(ran[j].id, Shown(world, ran[j], first + j), ran[j].out.exit != 0)
  {
    if j < n - 1 { ReplyAt(world, ran, n - 1, first, j); }
  }

  lemma {:induction false} ReplyIsFaithful(world: World, i: nat, ran: seq<Ran>)
    requires PhaseIsFrom(world, ToolUses(ContentOf(world, i)), |ToolUses(ContentOf(world, i))|, CallsBefore(world, i), ran)
    ensures ReplyIsFrom(world, i, ReplyIn(world, ran, |ran|, CallsBefore(world, i)))
  {
    var reply := ReplyIn(world, ran, |ran|, CallsBefore(world, i));
    forall j | 0 <= j < |reply| ensures ResultIsFrom(world, i, j, reply[j]) {
      ReplyAt(world, ran, |ran|, CallsBefore(world, i), j);
    }
  }

  lemma {:induction false} ConversationEnds(task: string, world: World, ms: seq<Message>, i: nat)
    requires Conversation(task, world, ms) && |ms| == 2 * i + 1 && world.provider(i).Ok?
    ensures Conversation(task, world, ms + [Assistant(ContentOf(world, i))])
  {
    var more := ms + [Assistant(ContentOf(world, i))];
    forall k: nat | 2 * k + 1 < |more| ensures TurnHolds(world, more, k) {
      if k < i { assert TurnHolds(world, ms, k); }
    }
  }

  lemma {:induction false} ConversationGoesOn(task: string, world: World, ms: seq<Message>, i: nat, reply: seq<Block>)
    requires Conversation(task, world, ms) && |ms| == 2 * i + 2
    requires world.provider(i).Ok? && world.provider(i).value.stop.WantsTools? && ReplyIsFrom(world, i, reply)
    ensures Conversation(task, world, ms + [User(reply)])
  {
    var more := ms + [User(reply)];
    forall k: nat | 2 * k + 1 < |more| ensures TurnHolds(world, more, k) {
      assert TurnHolds(world, ms, k);
    }
  }

  /** The state after `n` turns, as far as the conversation goes. */
  ghost predicate ConversationKept(manifest: Manifest, world: World, s: State, n: nat) {
    match s
    case Going(ran, messages, _, _) =>
      Conversation(manifest.task, world, messages) && |messages| == 2 * n + 1 && ran == CallsBefore(world, n)
    case Finished(o, _) =>
      && Conversation(manifest.task, world, o.messages) && |o.messages| == 2 * o.steps && 1 <= o.steps <= n
      && o.finalText == TextOf(ContentOf(world, o.steps - 1))
    case Failed(_, _) => true
  }

  lemma {:induction false} ToolTurnKeeps(manifest: Manifest, world: World, n: nat, ms: seq<Message>, totals: Totals, kinds: seq<EventKind>)
    requires Conversation(manifest.task, world, ms) && |ms| == 2 * n + 2
    requires world.provider(n).Ok? && world.provider(n).value.stop.WantsTools?
    ensures ConversationKept(manifest, world, ToolTurn(world, CallsBefore(world, n), ms, totals, kinds, ContentOf(world, n)), n + 1)
  {
    var uses, first := ToolUses(ContentOf(world, n)), CallsBefore(world, n);
    var phase := PhaseIn(world, kinds, uses, |uses|, first);
    if phase.ran.Ok? {
      var ran := phase.ran.value;
      PhaseResults(world, kinds, uses, |uses|, first);
      ReplyIsFaithful(world, n, ran);
      ConversationGoesOn(manifest.task, world, ms, n, ReplyIn(world, ran, |ran|, first));
    }
  }

  lemma {:induction false} TurnKeeps(manifest: Manifest, world: World, s: State, n: nat)
    requires s.Going? && ConversationKept(manifest, world, s, n)
    ensures ConversationKept(manifest, world, Turn(manifest, world, s, n), n + 1)
  {
    if world.provider(n).Ok? {
      var resp := world.provider(n).value;
      ConversationEnds(manifest.task, world, s.messages, n);
      if resp.stop.WantsTools? {
        ToolTurnKeeps(manifest, world, n, s.messages + [Assistant(resp.content)], Counted(s.totals, resp),
                      Spoken(s.kinds + [StepEvent(n + 1, manifest.maxSteps)], resp.content));
      }
    }
  }

  /**
   Whatever the provider and the tools answer: the conversation starts with the task, its assistant
   turns are the provider's answers, and each but the last is followed by exactly the results of its
   calls, in order, under their ids. A run that ends by itself used at most as many steps as turns.
   */
  lemma {:induction false} ConversationLaw(manifest: Manifest, world: World, n: nat)
    ensures ConversationKept(manifest, world, After(manifest, world, n), n)
  {
    forall s: State, k: nat | s.Going? && ConversationKept(manifest, world, s, k)
      ensures ConversationKept(manifest, world, Turn(manifest, world, s, k), k + 1)
    {
      TurnKeeps(manifest, world, s, k);
    }
    RunInduction(manifest, world, n, (s: State, k: nat) => ConversationKept(manifest, world, s, k));
  }

  // ---------- when a run succeeds ----------

  /** Every call of a turn succeeds. */
  predicate AllAnswered(world: World, uses: seq<Use>, first: nat) {
    forall j :: 0 <= j < |uses| ==> Answered(world, uses[j], first + j).Ok?
  }

  predicate GoesOn(world: World, i: nat) {
    && world.provider(i).Ok? && world.provider(i).value.stop.WantsTools?
    && AllAnswered(world, ToolUses(ContentOf(world, i)), CallsBefore(world, i))
  }

  predicate Ends(world: World, i: nat) {
    world.provider(i).Ok? && (world.provider(i).value.stop.EndTurn? || world.provider(i).value.stop.MaxTokens?)
  }

  lemma {:induction false} PhaseVerdict(world: World, before: seq<EventKind>, uses: seq<Use>, first: nat)
    ensures PhaseIn(world, before, uses, |uses|, first).ran.Ok? <==> AllAnswered(world, uses, first)
  {
    if PhaseIn(world, before, uses, |uses|, first).ran.Ok? {
      PhaseResults(world, before, uses, |uses|, first);
    } else {
      var j := PhaseFails(world, before, uses, |uses|, first);
    }
  }

  lemma {:induction false} TurnVerdict(manifest: Manifest, world: World, s: State, i: nat)
    requires s.Going? && s.ran == CallsBefore(world, i)
    ensures Turn(manifest, world, s, i).Going? <==> GoesOn(world, i)
    ensures Turn(manifest, world, s, i).Finished? <==> Ends(world, i)
  {
    PhaseVerdict(world, Spoken(s.kinds + [StepEvent(i + 1, manifest.maxSteps)], ContentOf(world, i)), ToolUses(ContentOf(world, i)), s.ran);
  }

  /** The first turn that ends the run is turn `k`, and nothing failed before it. */
  predicate EndsAt(world: World, k: nat) {
    Ends(world, k) && forall i :: 0 <= i < k ==> GoesOn(world, i)
  }

  predicate AllGoOn(world: World, n: nat) {
    forall i :: 0 <= i < n ==> GoesOn(world, i)
  }

  predicate HasEnded(world: World, n: nat) {
    exists k :: 0 <= k < n && EndsAt(world, k)
  }

  lemma {:induction false} EndedMeansStopped(world: World, n: nat)
    ensures HasEnded(world, n) ==> !AllGoOn(world, n)
    ensures HasEnded(world, n) ==> HasEnded(world, n + 1)
    ensures !AllGoOn(world, n) && HasEnded(world, n + 1) ==> HasEnded(world, n)
    ensures AllGoOn(world, n) ==> (HasEnded(world, n + 1) <==> Ends(world, n))
    ensures AllGoOn(world, n + 1) <==> AllGoOn(world, n) && GoesOn(world, n)
  {
    forall k | 0 <= k < n && EndsAt(world, k) ensures !GoesOn(world, k) {}
    if AllGoOn(world, n) && Ends(world, n) { assert EndsAt(world, n); }
  }

  ghost predicate VerdictKept(manifest: Manifest, world: World, s: State, n: nat) {
    && ConversationKept(manifest, world, s, n)
    && (s.Going? <==> AllGoOn(world, n))
    && (s.Finished? <==> HasEnded(world, n))
  }

  lemma {:induction false} StopKeepsVerdict(manifest: Manifest, world: World, s: State, n: nat)
    requires !s.Going? && VerdictKept(manifest, world, s, n)
    ensures VerdictKept(manifest, world, s, n + 1)
  {
    EndedMeansStopped(world, n);
  }

  lemma {:induction false} TurnKeepsVerdict(manifest: Manifest, world: World, s: State, n: nat)
    requires s.Going? && VerdictKept(manifest, world, s, n)
    ensures VerdictKept(manifest, world, Turn(manifest, world, s, n), n + 1)
  {
    EndedMeansStopped(world, n);
    TurnKeeps(manifest, world, s, n);
    TurnVerdict(manifest, world, s, n);
  }

  /**
   A run is still going after `n` turns exactly if each of them asked for tools that all worked, and
   has finished exactly if such turns were followed by one that ends; otherwise it failed.
   */
  lemma {:induction false} RunVerdict(manifest: Manifest, world: World, n: nat)
    ensures After(manifest, world, n).Going? <==> AllGoOn(world, n)
    ensures After(manifest, world, n).Finished? <==> HasEnded(world, n)
  {
    forall s: State, k: nat | s.Going? && VerdictKept(manifest, world, s, k)
      ensures VerdictKept(manifest, world, Turn(manifest, world, s, k), k + 1)
    {
      TurnKeepsVerdict(manifest, world, s, k);
    }
    forall s: State, k: nat | !s.Going? && VerdictKept(manifest, world, s, k) ensures VerdictKept(manifest, world, s, k + 1) {
      StopKeepsVerdict(manifest, world, s, k);
    }
    RunInduction(manifest, world, n, (s: State, k: nat) => VerdictKept(manifest, world, s, k));
  }

  // ---------- which error ends a run ----------

  /** Call `j` is the first of the turn that fails, and this is its error. */
  predicate CallFails(world: World, uses: seq<Use>, first: nat, j: nat, error: RunError) {
    && j < |uses| && Answered(world, uses[j], first + j) == Err(error)
    && forall i :: 0 <= i < j ==> Answered(world, uses[i], first + i).Ok?
  }

  /** Turn `i` fails with this error: the provider's, that of the first call that fails, or the reason for stopping. */
  ghost predicate FailsWith(world: World, i: nat, error: RunError) {
    match world.provider(i)
    case Err(e) => error == e
    case Ok(resp) =>
      (match resp.stop
       case Other(reason) => error == UnexpectedStop(reason)
       case WantsTools => exists j: nat :: CallFails(world, ToolUses(resp.content), CallsBefore(world, i), j, error)
       case _ => false)
  }

  ghost predicate FailedAt(world: World, n: nat, error: RunError) {
    exists k: nat :: k < n && AllGoOn(world, k) && FailsWith(world, k, error)
  }

  lemma {:induction false} PhaseError(world: World, before: seq<EventKind>, uses: seq<Use>, n: nat, first: nat) returns (j: nat)
    requires n <= |uses| && PhaseIn(world, before, uses, n, first).ran.Err?
    ensures CallFails(world, uses, first, j, PhaseIn(world, before, uses, n, first).ran.error)
  {
    if PhaseIn(world, before, uses, n - 1, first).ran.Err? {
      j := PhaseError(world, before, uses, n - 1, first);
    } else {
      j := n - 1;
      PhaseResults(world, before, uses, n - 1, first);
    }
  }

  lemma {:induction false} TurnError(manifest: Manifest, world: World, s: State, i: nat)
    requires s.Going? && s.ran == CallsBefore(world, i) && Turn(manifest, world, s, i).Failed?
    ensures FailsWith(world, i, Turn(manifest, world, s, i).error)
  {
    if world.provider(i).Ok? && world.provider(i).value.stop.WantsTools? {
      var uses := ToolUses(ContentOf(world, i));
      var j := PhaseError(world, Spoken(s.kinds + [StepEvent(i + 1, manifest.maxSteps)], ContentOf(world, i)), uses, |uses|, s.ran);
    }
  }

  ghost predicate ErrorKept(manifest: Manifest, world: World, s: State, n: nat) {
    VerdictKept(manifest, world, s, n) && (s.Failed? ==> FailedAt(world, n, s.error))
  }

  lemma {:induction false} TurnKeepsError(manifest: Manifest, world: World, s: State, n: nat)
    requires s.Going? && ErrorKept(manifest, world, s, n)
    ensures ErrorKept(manifest, world, Turn(manifest, world, s, n), n + 1)
  {
    TurnKeepsVerdict(manifest, world, s, n);
    if Turn(manifest, world, s, n).Failed? {
      TurnError(manifest, world, s, n);
      assert n < n + 1 && AllGoOn(world, n) && FailsWith(world, n, Turn(manifest, world, s, n).error);
    }
  }

  lemma {:induction false} StopKeepsError(manifest: Manifest, world: World, s: State, n: nat)
    requires !s.Going? && ErrorKept(manifest, world, s, n)
    ensures ErrorKept(manifest, world, s, n + 1)
  {
    StopKeepsVerdict(manifest, world, s, n);
    if s.Failed? {
      var k: nat :| k < n && AllGoOn(world, k) && FailsWith(world, k, s.error);
      assert k < n + 1;
    }
  }

  /** A run that has failed did so with the error of its first turn that fails. */
  lemma {:induction false} ErrorLaw(manifest: Manifest, world: World, n: nat)
    ensures ErrorKept(manifest, world, After(manifest, world, n), n)
  {
    forall s: State, k: nat | s.Going? && ErrorKept(manifest, world, s, k)
      ensures ErrorKept(manifest, world, Turn(manifest, world, s, k), k + 1)
    {
      TurnKeepsError(manifest, world, s, k);
    }
    forall s: State, k: nat | !s.Going? && ErrorKept(manifest, world, s, k) ensures ErrorKept(manifest, world, s, k + 1) {
      StopKeepsError(manifest, world, s, k);
    }
    RunInduction(manifest, world, n, (s: State, k: nat) => ErrorKept(manifest, world, s, k));
  }

  // ---------- what is said ----------

  function IsText(blocks: seq<Block>): nat -> bool {
    (p: nat) => p < |blocks| && blocks[p].Text?
  }

  /** The texts at these positions. */
  ghost predicate AreTexts(blocks: seq<Block>, places: seq<nat>, parts: seq<string>) {
    |parts| == |places| && forall i :: 0 <= i < |places| ==> places[i] < |blocks| && blocks[places[i]] == Text(parts[i])
  }

  lemma {:induction false} OneMoreText(blocks: seq<Block>, places: seq<nat>, parts: seq<string>, n: nat)
    requires AreTexts(blocks, places, parts) && n < |blocks| && blocks[n].Text?
    ensures AreTexts(blocks, places + [n], parts + [blocks[n].text])
  {
  }

  lemma {:induction false} TextsAt(blocks: seq<Block>, n: nat)
    requires n <= |blocks|
    ensures AreTexts(blocks, Places(n, IsText(blocks)), TextsIn(blocks, n))
  {
    if n > 0 {
      TextsAt(blocks, n - 1);
      if blocks[n - 1].Text? { OneMoreText(blocks, Places(n - 1, IsText(blocks)), TextsIn(blocks, n - 1), n - 1); }
    }
  }

  /** The text of a turn: that of its text blocks, in order, a line break between them. */
  lemma {:induction false} TextOfLaw(blocks: seq<Block>) returns (places: seq<nat>, parts: seq<string>)
    ensures Picks(places, |blocks|, IsText(blocks)) && AreTexts(blocks, places, parts)
    ensures TextOf(blocks) == Joined(parts, "\n")
  {
    places, parts := Places(|blocks|, IsText(blocks)), TextsIn(blocks, |blocks|);
    PlacesArePicked(|blocks|, IsText(blocks));
    TextsAt(blocks, |blocks|);
  }

  // ---------- totals ----------

  /** Tokens reported over the first `n` provider calls. */
  function SumTokens(world: World, n: nat, input: bool): nat {
    if n == 0 then 0
    else SumTokens(world, n - 1, input) + match world.provider(n - 1)
                                          case Ok(resp) => if input then resp.inputTokens else resp.outputTokens
                                          case Err(_) => 0
  }

  /** Bytes announced by the tool output events among the first `n`. */
  function OutputBytes(kinds: seq<EventKind>, n: nat): nat
    requires n <= |kinds|
  {
    if n == 0 then 0 else OutputBytes(kinds, n - 1) + if kinds[n - 1].ToolOutput? then kinds[n - 1].bytes else 0
  }

  /** Bytes of the results among the first `n` blocks. */
  function ResultBytes(blocks: seq<Block>, n: nat): nat
    requires n <= |blocks|
  {
    if n == 0 then 0
    else ResultBytes(blocks, n - 1) + if blocks[n - 1].ToolResult? then Utf8.ByteLen(blocks[n - 1].content) else 0
  }

  /** Bytes of the results in the first `n` messages. */
  function ShownBytes(ms: seq<Message>, n: nat): nat
    requires n <= |ms|
  {
    if n == 0 then 0
    else ShownBytes(ms, n - 1) + if ms[n - 1].User? then ResultBytes(ms[n - 1].content, |ms[n - 1].content|) else 0
  }

  lemma {:induction false} OutputBytesAppend(a: seq<EventKind>, b: seq<EventKind>, n: nat)
    requires n <= |a + b|
    ensures OutputBytes(a + b, n) == if n <= |a| then OutputBytes(a, n) else OutputBytes(a, |a|) + OutputBytes(b, n - |a|)
  {
    if n > 0 { OutputBytesAppend(a, b, n - 1); }
  }

  lemma {:induction false} ShownBytesAppend(ms: seq<Message>, m: Message, n: nat)
    requires n <= |ms|
    ensures ShownBytes(ms + [m], n) == ShownBytes(ms, n)
  {
    if n > 0 { ShownBytesAppend(ms, m, n - 1); }
  }

  lemma {:induction false} PhaseBytes(world: World, before: seq<EventKind>, uses: seq<Use>, n: nat, first: nat)
    requires n <= |uses| && PhaseIn(world, before, uses, n, first).ran.Ok?
    ensures var phase := PhaseIn(world, before, uses, n, first);
            OutputBytes(phase.kinds, |phase.kinds|) == OutputBytes(before, |before|) + RawIn(phase.ran.value, |phase.ran.value|)
  {
    if n > 0 {
      PhaseBytes(world, before, uses, n - 1, first);
      var earlier := PhaseIn(world, before, uses, n - 1, first);
      var kinds := CallKinds(world, uses[n - 1], first + n - 1);
      var out := Answered(world, uses[n - 1], first + n - 1).value;
      OutputBytesAppend(earlier.kinds, kinds, |earlier.kinds| + 2);
      CallBytes(uses[n - 1], out);
      RawAppend(earlier.ran.value, Ran(uses[n - 1].id, out, uses[n - 1].name), |earlier.ran.value|);
    }
  }

  lemma {:induction false} CallBytes(use: Use, out: ToolOut)
    ensures OutputBytes([ToolStart(use.name, use.input), ToolOutput(use.name, out.rawBytes, out.content)], 2) == out.rawBytes
  {
    var kinds := [ToolStart(use.name, use.input), ToolOutput(use.name, out.rawBytes, out.content)];
    assert OutputBytes(kinds, 0) == 0;
    assert OutputBytes(kinds, 1) == 0;
  }

  lemma {:induction false} RawAppend(ran: seq<Ran>, last: Ran, n: nat)
    requires n <= |ran|
    ensures RawIn(ran + [last], n) == RawIn(ran, n)
  {
    if n > 0 { RawAppend(ran, last, n - 1); }
  }

  lemma {:induction false} ReplyBytes(world: World, ran: seq<Ran>, all: nat, n: nat, first: nat)
    requires world.filter.Some? && n <= all <= |ran|
    ensures ResultBytes(ReplyIn(world, ran, all, first), n) == FilteredIn(world, ran, n, first)
  {
    if n > 0 {
      ReplyBytes(world, ran, all, n - 1, first);
      ReplyAt(world, ran, all, first, n - 1);
    }
  }

  ghost predicate TotalsKept(world: World, totals: Totals, n: nat, ms: seq<Message>, kinds: seq<EventKind>) {
    && WrapsApart(totals.input, SumTokens(world, n, true))
    && WrapsApart(totals.output, SumTokens(world, n, false))
    && totals.rawBytes == OutputBytes(kinds, |kinds|)
    && (world.filter.Some? ==> totals.filteredBytes == ShownBytes(ms, |ms|))
  }

  ghost predicate StateTotalsKept(world: World, s: State, n: nat) {
    match s
    case Going(_, messages, totals, kinds) => TotalsKept(world, totals, n, messages, kinds)
    case Finished(o, kinds) => TotalsKept(world, o.totals, o.steps, o.messages, kinds)
    case Failed(_, _) => true
  }

  /** Events without tool output and messages without results leave the byte totals as they are. */
  lemma {:induction false} QuietBytes(kinds: seq<EventKind>, kind: EventKind)
    requires !kind.ToolOutput?
    ensures OutputBytes(kinds + [kind], |kinds| + 1) == OutputBytes(kinds, |kinds|)
  {
    OutputBytesAppend(kinds, [kind], |kinds|);
  }

  lemma {:induction false} MessageBytes(ms: seq<Message>, m: Message)
    ensures ShownBytes(ms + [m], |ms| + 1) == ShownBytes(ms, |ms|) + if m.User? then ResultBytes(m.content, |m.content|) else 0
  {
    ShownBytesAppend(ms, m, |ms|);
  }

  lemma {:induction false} SpokenBytes(kinds: seq<EventKind>, kind: EventKind, turn: seq<Block>)
    requires !kind.ToolOutput?
    ensures var spoken := Spoken(kinds + [kind], turn); OutputBytes(spoken, |spoken|) == OutputBytes(kinds, |kinds|)
  {
    QuietBytes(kinds, kind);
    QuietBytes(kinds + [kind], Token(TextOf(turn)));
  }

  lemma {:induction false} ToolTurnTotals(world: World, ran: nat, asked: seq<Message>, totals: Totals, kinds: seq<EventKind>, turn: seq<Block>, n: nat)
    requires TotalsKept(world, totals, n, asked, kinds)
    ensures StateTotalsKept(world, ToolTurn(world, ran, asked, totals, kinds, turn), n)
  {
    var phase := ToolPhase(world, kinds, turn, ran);
    if phase.ran.Ok? {
      var results := phase.ran.value;
      PhaseBytes(world, kinds, ToolUses(turn), |ToolUses(turn)|, ran);
      if world.filter.Some? { ReplyBytes(world, results, |results|, |results|, ran); }
      MessageBytes(asked, User(ReplyIn(world, results, |results|, ran)));
    }
  }

  lemma {:induction false} AnswerTotals(world: World, totals: Totals, n: nat, ms: seq<Message>, kinds: seq<EventKind>, max: nat)
    requires TotalsKept(world, totals, n, ms, kinds) && world.provider(n).Ok?
    ensures var resp := world.provider(n).value;
            TotalsKept(world, Counted(totals, resp), n + 1, ms + [Assistant(resp.content)],
                       Spoken(kinds + [StepEvent(n + 1, max)], resp.content))
  {
    var resp := world.provider(n).value;
    WrapsApartAdd(totals.input, SumTokens(world, n, true), resp.inputTokens);
    WrapsApartAdd(totals.output, SumTokens(world, n, false), resp.outputTokens);
    SpokenBytes(kinds, StepEvent(n + 1, max), resp.content);
    MessageBytes(ms, Assistant(resp.content));
  }

  lemma {:induction false} ActTotals(world: World, ran: nat, asked: seq<Message>, totals: Totals, kinds: seq<EventKind>, resp: Response, n: nat)
    requires TotalsKept(world, totals, n, asked, kinds)
    ensures StateTotalsKept(world, Act(world, ran, asked, totals, kinds, resp, n), n)
  {
    match resp.stop {
      case EndTurn | MaxTokens => QuietBytes(kinds, Done(0, n));
      case WantsTools => ToolTurnTotals(world, ran, asked, totals, kinds, resp.content, n);
      case Other(_) =>
    }
  }

  lemma {:induction false} TurnKeepsTotals(manifest: Manifest, world: World, s: State, n: nat)
    requires s.Going? && StateTotalsKept(world, s, n)
    ensures StateTotalsKept(world, Turn(manifest, world, s, n), n + 1)
  {
    if world.provider(n).Ok? {
      var resp := world.provider(n).value;
      AnswerTotals(world, s.totals, n, s.messages, s.kinds, manifest.maxSteps);
      ActTotals(world, s.ran, s.messages + [Assistant(resp.content)], Counted(s.totals, resp),
                Spoken(s.kinds + [StepEvent(n + 1, manifest.maxSteps)], resp.content), resp, n + 1);
    }
  }

  lemma {:induction false} TotalsStart(manifest: Manifest, world: World)
    ensures StateTotalsKept(world, Start(manifest), 0)
  {
    assert 0 == Lost(0);
    var blocks := [Text(manifest.task)];
    assert ResultBytes(blocks, 0) == 0;
    assert ShownBytes([User(blocks)], 0) == 0;
  }

  /**
   The token totals are the sums of what the provider reported, up to whole wraps of the `u32`; the
   raw bytes are what the output events announced; with a filter, the filtered bytes are those of the
   results in the conversation.
   */
  lemma {:induction false} TotalsLaw(manifest: Manifest, world: World, n: nat)
    ensures StateTotalsKept(world, After(manifest, world, n), n)
  {
    TotalsStart(manifest, world);
    forall s: State, k: nat | s.Going? && StateTotalsKept(world, s, k)
      ensures StateTotalsKept(world, Turn(manifest, world, s, k), k + 1)
    {
      TurnKeepsTotals(manifest, world, s, k);
    }
    RunInduction(manifest, world, n, (s: State, k: nat) => StateTotalsKept(world, s, k));
  }

  // ---------- events ----------

  ghost predicate NoDone(kinds: seq<EventKind>) {
    forall i :: 0 <= i < |kinds| ==> !kinds[i].Done?
  }

  /** Each start before position `n` is directly followed by the output of its tool. */
  ghost predicate StartsAnswered(kinds: seq<EventKind>, n: int) {
    forall i :: 0 <= i < |kinds| && i < n && kinds[i].ToolStart? ==>
      i + 1 < |kinds| && kinds[i + 1].ToolOutput? && kinds[i + 1].tool == kinds[i].tool
  }

  /** Each output directly follows the start of its tool. */
  ghost predicate OutputsStarted(kinds: seq<EventKind>) {
    forall i :: 0 <= i < |kinds| && kinds[i].ToolOutput? ==>
      i > 0 && kinds[i - 1].ToolStart? && kinds[i - 1].tool == kinds[i].tool
  }

  ghost predicate Paired(kinds: seq<EventKind>) {
    NoDone(kinds) && StartsAnswered(kinds, |kinds|) && OutputsStarted(kinds)
  }

  /** A failing tool leaves its start as the last event. */
  ghost predicate PairedButLast(kinds: seq<EventKind>) {
    NoDone(kinds) && |kinds| > 0 && StartsAnswered(kinds, |kinds| - 1) && OutputsStarted(kinds)
  }

  lemma {:induction false} PairedAppend(a: seq<EventKind>, b: seq<EventKind>)
    requires Paired(a)
    ensures Paired(b) ==> Paired(a + b)
    ensures PairedButLast(b) ==> PairedButLast(a + b)
  {
    var both := a + b;
    forall i | 0 <= i < |both| && both[i].ToolStart?
      ensures StartsAnswered(b, |b|) || i < |a| ==>
                i + 1 < |both| && both[i + 1].ToolOutput? && both[i + 1].tool == both[i].tool
      ensures StartsAnswered(b, |b| - 1) && i < |both| - 1 ==> both[i + 1].ToolOutput? && both[i + 1].tool == both[i].tool
    {
      if i < |a| { assert both[i] == a[i] && both[i + 1] == a[i + 1]; } else { assert both[i] == b[i - |a|]; }
    }
    if OutputsStarted(b) {
      forall i | 0 <= i < |both| && both[i].ToolOutput?
        ensures i > 0 && both[i - 1].ToolStart? && both[i - 1].tool == both[i].tool
      {
        if i < |a| { assert both[i] == a[i]; } else { assert both[i] == b[i - |a|]; }
      }
    }
  }

  lemma {:induction false} CallPaired(world: World, use: Use, n: nat)
    ensures if Answered(world, use, n).Ok? then Paired(CallKinds(world, use, n)) else PairedButLast(CallKinds(world, use, n))
  {
  }

  ghost predicate PhaseIsPaired(phase: Phase) {
    if phase.ran.Ok? then Paired(phase.kinds) else PairedButLast(phase.kinds)
  }

  lemma {:induction false} CallAdded(world: World, use: Use, n: nat, earlier: Phase)
    requires earlier.ran.Ok? && PhaseIsPaired(earlier)
    ensures PhaseIsPaired(Call(world, use, n, earlier))
  {
    CallPaired(world, use, n);
    PairedAppend(earlier.kinds, CallKinds(world, use, n));
  }

  lemma {:induction false} NextPhasePaired(world: World, use: Use, n: nat, earlier: Phase, next: Phase)
    requires PhaseIsPaired(earlier) && next == if earlier.ran.Err? then earlier else Call(world, use, n, earlier)
    ensures PhaseIsPaired(next)
  {
    if earlier.ran.Ok? { CallAdded(world, use, n, earlier); }
  }

  lemma {:induction false} PhasePaired(world: World, before: seq<EventKind>, uses: seq<Use>, n: nat, first: nat)
    requires n <= |uses| && Paired(before)
    ensures PhaseIsPaired(PhaseIn(world, before, uses, n, first))
  {
    if n > 0 {
      PhasePaired(world, before, uses, n - 1, first);
      NextPhasePaired(world, uses[n - 1], first + n - 1, PhaseIn(world, before, uses, n - 1, first), PhaseIn(world, before, uses, n, first));
    }
  }

  lemma {:induction false} QuietPaired(kinds: seq<EventKind>, kind: EventKind)
    requires Paired(kinds) && !kind.ToolStart? && !kind.ToolOutput? && !kind.Done?
    ensures Paired(kinds + [kind])
  {
    PairedAppend(kinds, [kind]);
  }

  lemma {:induction false} SpokenPaired(kinds: seq<EventKind>, step: nat, max: nat, turn: seq<Block>)
    requires Paired(kinds)
    ensures Paired(Spoken(kinds + [StepEvent(step, max)], turn))
  {
    QuietPaired(kinds, StepEvent(step, max));
    QuietPaired(kinds + [StepEvent(step, max)], Token(TextOf(turn)));
  }

  /**
   Starts and outputs pair up; `Done` is there exactly when the run ended by itself, once, as the last
   event, with the number of steps used; a failed run may leave only its very last start open.
   */
  ghost predicate EventsKept(s: State) {
    match s
    case Going(_, _, _, kinds) => Paired(kinds)
    case Finished(o, kinds) => |kinds| > 0 && kinds[|kinds| - 1] == Done(0, o.steps) && Paired(kinds[..|kinds| - 1])
    case Failed(_, kinds) => PairedButLast(kinds)
  }

  lemma {:induction false} PairedIsPairedButLast(kinds: seq<EventKind>)
    requires Paired(kinds) && |kinds| > 0
    ensures PairedButLast(kinds)
  {
  }

  lemma {:induction false} TurnEvents(manifest: Manifest, world: World, s: State, n: nat)
    requires s.Going? && Paired(s.kinds)
    ensures EventsKept(Turn(manifest, world, s, n))
  {
    var stepped := s.kinds + [StepEvent(n + 1, manifest.maxSteps)];
    QuietPaired(s.kinds, StepEvent(n + 1, manifest.maxSteps));
    if world.provider(n).Ok? {
      var resp := world.provider(n).value;
      var kinds := Spoken(stepped, resp.content);
      SpokenPaired(s.kinds, n + 1, manifest.maxSteps, resp.content);
      match resp.stop {
        case EndTurn | MaxTokens => assert (kinds + [Done(0, n + 1)])[..|kinds|] == kinds;
        case WantsTools =>
          PhasePaired(world, kinds, ToolUses(resp.content), |ToolUses(resp.content)|, s.ran);
        case Other(reason) =>
          QuietPaired(kinds, Error("stop_reason", reason));
          PairedIsPairedButLast(kinds + [Error("stop_reason", reason)]);
      }
    } else {
      PairedIsPairedButLast(stepped);
    }
  }

  lemma {:induction false} EventsLaw(manifest: Manifest, world: World, n: nat)
    ensures EventsKept(After(manifest, world, n))
  {
    forall s: State, k: nat | s.Going? && EventsKept(s) ensures EventsKept(Turn(manifest, world, s, k)) {
      TurnEvents(manifest, world, s, k);
    }
    RunInduction(manifest, world, n, (s: State, k: nat) => EventsKept(s));
  }

  // ---------- what a run returns ----------

  /**
   What a successful run returns: its conversation, its totals, and either the text of the turn that
   ended it or, out of steps, no text.
   */
  ghost predicate OutcomeHolds(manifest: Manifest, world: World, o: Outcome, kinds: seq<EventKind>) {
    && Conversation(manifest.task, world, o.messages) && TotalsKept(world, o.totals, o.steps, o.messages, kinds)
    && if HasEnded(world, manifest.maxSteps)
       then 1 <= o.steps <= manifest.maxSteps && |o.messages| == 2 * o.steps && o.finalText == TextOf(ContentOf(world, o.steps - 1))
       else o.steps == manifest.maxSteps && |o.messages| == 2 * o.steps + 1 && o.finalText == ""
  }

  /** What `Run` returns, against the script alone: success iff nothing failed within the steps allowed. */
  lemma {:induction false} OutcomeLaw(manifest: Manifest, world: World)
    ensures var max, s := manifest.maxSteps, After(manifest, world, manifest.maxSteps);
            match Verdict(manifest, s)
            case Ok(o) => (AllGoOn(world, max) || HasEnded(world, max)) && OutcomeHolds(manifest, world, o, s.kinds)
            case Err(error) => !AllGoOn(world, max) && !HasEnded(world, max) && FailedAt(world, max, error)
  {
    var max := manifest.maxSteps;
    ErrorLaw(manifest, world, max);
    TotalsLaw(manifest, world, max);
    EndedMeansStopped(world, max);
  }
}
