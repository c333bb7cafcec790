/**
 The agent loop: ask the provider, run the tool calls it makes, feed the results back, until it is
 done or out of steps. Streams numbered events as it goes.
 */
module Agent {
  import opened Texts
  import opened Wrappers
  import opened Wrapping
  import opened Utf8

  datatype Block =
    | Text(text: string)
    | ToolUse(id: string, name: string, input: string)
    | ToolResult(toolUseId: string, content: string, isError: bool)

  datatype Message = User(content: seq<Block>) | Assistant(content: seq<Block>)

  datatype StopReason = EndTurn | MaxTokens | WantsTools | Other(reason: string)

  datatype Response = Response(content: seq<Block>, stop: StopReason, inputTokens: u32, outputTokens: u32)

  datatype ToolOut = ToolOut(content: string, rawBytes: nat, filteredBytes: nat, exit: int)

  datatype RunError = ProviderFailed | UnknownTool(name: string) | ToolFailed | UnexpectedStop(reason: string)

  /**
   Everything outside the loop, as scripts: what the provider answers on its n-th call, what a tool
   answers on the n-th call of any tool (`None` for a tool that is not registered), and what the
   output filter, if there is one, makes of the n-th tool output.
   */
  datatype World = World(
    provider: nat -> Result<Response, RunError>,
    tool: (nat, string, string) -> Option<Result<ToolOut, RunError>>,
    filter: Option<(nat, string, string) -> string>)

  datatype Manifest = Manifest(task: string, maxSteps: nat)

  /** Token counters wrap at 2^32; byte totals are `usize`, taken as unbounded. */
  datatype Totals = Totals(input: u32, output: u32, rawBytes: nat, filteredBytes: nat)

  datatype Outcome = Outcome(finalText: string, steps: nat, totals: Totals, messages: seq<Message>)

  // ---------- events ----------

  datatype EventKind =
    | StepEvent(step: nat, max: nat)
    | Token(text: string)
    | ToolStart(tool: string, args: string)
    | ToolOutput(tool: string, bytes: nat, text: string)
    | Done(exit: int, steps: nat)
    | Error(kind: string, msg: string)

  datatype Event = Event(seqNo: nat, kind: EventKind)

  /** Assigns sequence numbers, so that the loop never has to. */
  class SeqEmitter {
    var sink: seq<Event>
    var next: nat
    ghost var kinds: seq<EventKind>

    constructor ()
      ensures Valid() && kinds == []
    {
      sink, next, kinds := [], 0, [];
    }

    /** The events so far are numbered from zero, without gaps. */
    ghost predicate Valid()
      reads this
    {
      && |sink| == |kinds| == next
      && forall i {:trigger sink[i]} :: 0 <= i < next ==> sink[i] == Event(i, kinds[i])
    }

    method Emit(kind: EventKind)
      requires Valid()
      modifies this
      ensures Valid() && kinds == old(kinds) + [kind]
    {
      var seqNo := next;
      next := next + 1;
      sink := sink + [Event(seqNo, kind)];
      kinds := kinds + [kind];
    }
  }

  // ---------- what a run is ----------

  /** A call a turn asks for. */
  datatype Use = Use(id: string, name: string, input: string)

  /** The tool calls among the first `n` blocks, in order. */
  function UsesIn(blocks: seq<Block>, n: nat): seq<Use>
    requires n <= |blocks|
  {
    if n == 0 then []
    else match blocks[n - 1]
         case ToolUse(id, name, input) => UsesIn(blocks, n - 1) + [Use(id, name, input)]
         case _ => UsesIn(blocks, n - 1)
  }

  function ToolUses(blocks: seq<Block>): seq<Use> {
    UsesIn(blocks, |blocks|)
  }

  function TextsIn(blocks: seq<Block>, n: nat): seq<string>
    requires n <= |blocks|
  {
    if n == 0 then []
    else if blocks[n - 1].Text? then TextsIn(blocks, n - 1) + [blocks[n - 1].text]
    else TextsIn(blocks, n - 1)
  }

  /** `collect_text` */
  function TextOf(blocks: seq<Block>): string {
    Joined(TextsIn(blocks, |blocks|), "\n")
  }

  /** One executed call: its id, what the tool said, and the tool's name. */
  datatype Ran = Ran(id: string, out: ToolOut, name: string)

  /** The events up to here, and the results of the calls made so far or the error that stopped them. */
  datatype Phase = Phase(kinds: seq<EventKind>, ran: Result<seq<Ran>, RunError>)

  /** What the `n`-th call of the run comes to. */
  function Answered(world: World, use: Use, n: nat): Result<ToolOut, RunError> {
    match world.tool(n, use.name, use.input)
    case None => Err(UnknownTool(use.name))
    case Some(result) => result
  }

  function CallKinds(world: World, use: Use, n: nat): seq<EventKind> {
    match Answered(world, use, n)
    case Err(_) => [ToolStart(use.name, use.input)]
    case Ok(out) => [ToolStart(use.name, use.input), ToolOutput(use.name, out.rawBytes, out.content)]
  }

  function Call(world: World, use: Use, n: nat, earlier: Phase): Phase
    requires earlier.ran.Ok?
  {
    Phase(earlier.kinds + CallKinds(world, use, n),
          match Answered(world, use, n)
          case Err(error) => Err(error)
          case Ok(out) => Ok(earlier.ran.value + [Ran(use.id, out, use.name)]))
  }

  /** The first `n` calls of a turn, in order, up to the first that is unknown or fails. */
  function PhaseIn(world: World, before: seq<EventKind>, uses: seq<Use>, n: nat, first: nat): Phase
    requires n <= |uses|
  {
    if n == 0 then Phase(before, Ok([]))
    else
      var earlier := PhaseIn(world, before, uses, n - 1, first);
      if earlier.ran.Err? then earlier else Call(world, uses[n - 1], first + n - 1, earlier)
  }

  function ToolPhase(world: World, before: seq<EventKind>, turn: seq<Block>, first: nat): Phase {
    PhaseIn(world, before, ToolUses(turn), |ToolUses(turn)|, first)
  }

  /** The `n`-th output as the model gets to see it. */
  function Shown(world: World, ran: Ran, n: nat): string {
    match world.filter
    case Some(filter) => filter(n, ran.name, ran.out.content)
    case None => ran.out.content
  }

  function ReplyIn(world: World, ran: seq<Ran>, n: nat, first: nat): (r: seq<Block>)
    requires n <= |ran|
    ensures |r| == n
  {
    if n == 0 then []
    else
      ReplyIn(world, ran, n - 1, first)
      + [ToolResult(ran[n - 1].id, Shown(world, ran[n - 1], first + n - 1), ran[n - 1].out.exit != 0)]
  }

  function RawIn(ran: seq<Ran>, n: nat): nat
    requires n <= |ran|
  {
    if n == 0 then 0 else RawIn(ran, n - 1) + ran[n - 1].out.rawBytes
  }

  /** With a filter the bytes are those of its output, otherwise what the tool reported. */
  function FilteredIn(world: World, ran: seq<Ran>, n: nat, first: nat): nat
    requires n <= |ran|
  {
    if n == 0 then 0
    else FilteredIn(world, ran, n - 1, first)
         + if world.filter.Some? then ByteLen(Shown(world, ran[n - 1], first + n - 1)) else ran[n - 1].out.filteredBytes
  }

  datatype State =
    | Going(ran: nat, messages: seq<Message>, totals: Totals, kinds: seq<EventKind>)
    | Finished(outcome: Outcome, kinds: seq<EventKind>)
    | Failed(error: RunError, kinds: seq<EventKind>)

  function ToolTurn(world: World, ran: nat, asked: seq<Message>, totals: Totals, kinds: seq<EventKind>, turn: seq<Block>): State {
    var phase := ToolPhase(world, kinds, turn, ran);
    match phase.ran
    case Err(error) => Failed(error, phase.kinds)
    case Ok(results) =>
      var n := |results|;
      var sums := Totals(totals.input, totals.output, totals.rawBytes + RawIn(results, n),
                         totals.filteredBytes + FilteredIn(world, results, n, ran));
      Going(ran + n, asked + [User(ReplyIn(world, results, n, ran))], sums, phase.kinds)
  }

  function Spoken(kinds: seq<EventKind>, turn: seq<Block>): seq<EventKind> {
    if TextOf(turn) == "" then kinds else kinds + [Token(TextOf(turn))]
  }

  /** What the reason for stopping leads to, once the answer is part of the conversation. */
  function Act(world: World, ran: nat, asked: seq<Message>, totals: Totals, kinds: seq<EventKind>, resp: Response, steps: nat): State {
    match resp.stop
    case EndTurn | MaxTokens => Finished(Outcome(TextOf(resp.content), steps, totals, asked), kinds + [Done(0, steps)])
    case WantsTools => ToolTurn(world, ran, asked, totals, kinds, resp.content)
    case Other(reason) => Failed(UnexpectedStop(reason), kinds + [Error("stop_reason", reason)])
  }

  function Counted(totals: Totals, resp: Response): Totals {
    Totals(AddU32(totals.input, resp.inputTokens), AddU32(totals.output, resp.outputTokens), totals.rawBytes, totals.filteredBytes)
  }

  /** Turn number `n`, counted from zero. */
  function Turn(manifest: Manifest, world: World, s: State, n: nat): State
    requires s.Going?
  {
    var stepped := s.kinds + [StepEvent(n + 1, manifest.maxSteps)];
    match world.provider(n)
    case Err(error) => Failed(error, stepped)
    case Ok(resp) =>
      Act(world, s.ran, s.messages + [Assistant(resp.content)], Counted(s.totals, resp), Spoken(stepped, resp.content), resp, n + 1)
  }

  /** The state after `n` rounds; round `k` is the `k`-th from zero. */
  function Rounds(round: (State, nat) -> State, start: State, n: nat): State {
    if n == 0 then start else round(Rounds(round, start, n - 1), n - 1)
  }

  lemma {:induction false} RoundsSettle(round: (State, nat) -> State, start: State, n: nat, k: nat)
    requires k <= n && !Rounds(round, start, k).Going?
    requires forall s: State, i: nat :: !s.Going? ==> round(s, i) == s
    ensures Rounds(round, start, n) == Rounds(round, start, k)
  {
    if k < n { RoundsSettle(round, start, n - 1, k); }
  }

  /** A run that has ended stays as it is. */
  function Round(manifest: Manifest, world: World): (State, nat) -> State {
    (s: State, n: nat) => if s.Going? then Turn(manifest, world, s, n) else s
  }

  function Start(manifest: Manifest): State {
    Going(0, [User([Text(manifest.task)])], Totals(0, 0, 0, 0), [])
  }

  /** Where the run is after at most `n` turns. */
  function After(manifest: Manifest, world: World, n: nat): State {
    Rounds(Round(manifest, world), Start(manifest), n)
  }

  lemma {:induction false} RoundTaken(round: (State, nat) -> State, start: State, n: nat, max: nat)
    requires n < max && forall s: State, i: nat :: !s.Going? ==> round(s, i) == s
    ensures var next := round(Rounds(round, start, n), n);
            && Rounds(round, start, n + 1) == next
            && (!next.Going? ==> Rounds(round, start, max) == next)
  {
    if !Rounds(round, start, n + 1).Going? { RoundsSettle(round, start, max, n + 1); }
  }

  /** Out of steps, the run returns what it has, with no final text. */
  function Verdict(manifest: Manifest, s: State): Result<Outcome, RunError> {
    match s
    case Going(_, messages, totals, _) => Ok(Outcome("", manifest.maxSteps, totals, messages))
    case Finished(outcome, _) => Ok(outcome)
    case Failed(error, _) => Err(error)
  }

  // ---------- the loop ----------

  /** A call in the list of blocks is the next one in the list of calls. */
  lemma {:induction false} NextUse(blocks: seq<Block>, i: nat, n: nat)
    requires i < n <= |blocks| && blocks[i].ToolUse?
    ensures |UsesIn(blocks, i)| < |UsesIn(blocks, n)|
    ensures UsesIn(blocks, n)[|UsesIn(blocks, i)|] == Use(blocks[i].id, blocks[i].name, blocks[i].input)
  {
    if i < n - 1 { NextUse(blocks, i, n - 1); }
  }

  /** The first failure ends the phase. */
  lemma {:induction false} PhaseStops(world: World, before: seq<EventKind>, uses: seq<Use>, k: nat, n: nat, first: nat)
    requires k <= n <= |uses| && PhaseIn(world, before, uses, k, first).ran.Err?
    ensures PhaseIn(world, before, uses, n, first) == PhaseIn(world, before, uses, k, first)
  {
    if k < n { PhaseStops(world, before, uses, k, n - 1, first); }
  }

  method RunCall(world: World, use: Use, n: nat, emitter: SeqEmitter) returns (r: Result<ToolOut, RunError>)
    requires emitter.Valid()
    modifies emitter
    ensures emitter.Valid() && r == Answered(world, use, n)
    ensures emitter.kinds == old(emitter.kinds) + CallKinds(world, use, n)
  {
    emitter.Emit(ToolStart(use.name, use.input));
    var tool := world.tool(n, use.name, use.input);
    if tool.None? {
      return Err(UnknownTool(use.name));
    }
    if tool.value.Err? {
      return Err(tool.value.error);
    }
    emitter.Emit(ToolOutput(use.name, tool.value.value.rawBytes, tool.value.value.content));
    return Ok(tool.value.value);
  }

  /** `run_tool_calls_with_events` */
  method RunToolCalls(world: World, blocks: seq<Block>, first: nat, emitter: SeqEmitter)
    returns (r: Result<seq<Ran>, RunError>)
    requires emitter.Valid()
    modifies emitter
    ensures emitter.Valid()
    ensures Phase(emitter.kinds, r) == ToolPhase(world, old(emitter.kinds), blocks, first)
  {
    ghost var start := emitter.kinds;
    ghost var uses := ToolUses(blocks);
    var out: seq<Ran> := [];
    for i := 0 to |blocks|
      invariant emitter.Valid() && |out| == |UsesIn(blocks, i)| <= |uses|
      invariant Phase(emitter.kinds, Ok(out)) == PhaseIn(world, start, uses, |out|, first)
    {
      if blocks[i].ToolUse? {
        NextUse(blocks, i, |blocks|);
        var use, n := Use(blocks[i].id, blocks[i].name, blocks[i].input), first + |out|;
        var res := RunCall(world, use, n, emitter);
        assert Phase(emitter.kinds, if res.Ok? then Ok(out + [Ran(use.id, res.value, use.name)]) else Err(res.error))
            == PhaseIn(world, start, uses, |out| + 1, first);
        if res.Err? {
          PhaseStops(world, start, uses, |out| + 1, |uses|, first);
          return Err(res.error);
        }
        out := out + [Ran(use.id, res.value, use.name)];
      }
    }
    return Ok(out);
  }

  /** Turns raw results into the reply, through the filter if there is one, and counts bytes. */
  method Reply(world: World, raw: seq<Ran>, first: nat) returns (blocks: seq<Block>, rawBytes: nat, filteredBytes: nat)
    ensures blocks == ReplyIn(world, raw, |raw|, first)
    ensures rawBytes == RawIn(raw, |raw|) && filteredBytes == FilteredIn(world, raw, |raw|, first)
  {
    blocks, rawBytes, filteredBytes := [], 0, 0;
    for i := 0 to |raw|
      invariant blocks == ReplyIn(world, raw, i, first)
      invariant rawBytes == RawIn(raw, i) && filteredBytes == FilteredIn(world, raw, i, first)
    {
      var content := raw[i].out.content;
      var bytes := raw[i].out.filteredBytes;
      rawBytes := rawBytes + raw[i].out.rawBytes;
      if world.filter.Some? {
        content := world.filter.value(first + i, raw[i].name, content);
        bytes := ByteLen(content);
      }
      filteredBytes := filteredBytes + bytes;
      blocks := blocks + [ToolResult(raw[i].id, content, raw[i].out.exit != 0)];
    }
  }

  /** Asks the provider for one turn, with the events around it. */
  method Ask(manifest: Manifest, world: World, steps: nat, emitter: SeqEmitter)
    returns (r: Result<(Response, string), RunError>)
    requires emitter.Valid() && steps > 0
    modifies emitter
    ensures emitter.Valid()
    ensures match world.provider(steps - 1)
            case Err(error) =>
              r == Err(error) && emitter.kinds == old(emitter.kinds) + [StepEvent(steps, manifest.maxSteps)]
            case Ok(resp) =>
              && r == Ok((resp, TextOf(resp.content)))
              && emitter.kinds == Spoken(old(emitter.kinds) + [StepEvent(steps, manifest.maxSteps)], resp.content)
  {
    emitter.Emit(StepEvent(steps, manifest.maxSteps));
    var answer := world.provider(steps - 1);
    if answer.Err? {
      return Err(answer.error);
    }
    var text := TextOf(answer.value.content);
    if text != "" {
      emitter.Emit(Token(text));
    }
    return Ok((answer.value, text));
  }

  /** The end of the loop body: acts on the reason the provider stopped. `ended` is an early return. */
  method ActOn(world: World, ran: nat, asked: seq<Message>, totals: Totals, resp: Response, text: string, steps: nat, emitter: SeqEmitter)
    returns (ended: Option<Result<Outcome, RunError>>, calls: nat, messages: seq<Message>, sums: Totals)
    requires emitter.Valid() && text == TextOf(resp.content)
    modifies emitter
    ensures emitter.Valid()
    ensures var next := Act(world, ran, asked, totals, old(emitter.kinds), resp, steps);
            && emitter.kinds == next.kinds
            && match next
               case Going(ran, ms, totals, _) => ended == None && calls == ran && messages == ms && sums == totals
               case Finished(outcome, _) => ended == Some(Ok(outcome))
               case Failed(error, _) => ended == Some(Err(error))
  {
    ended, calls, messages, sums := None, ran, asked, totals;
    match resp.stop {
      case EndTurn | MaxTokens =>
        emitter.Emit(Done(0, steps));
        ended := Some(Ok(Outcome(text, steps, totals, asked)));
      case WantsTools =>
        var raw := RunToolCalls(world, resp.content, ran, emitter);
        if raw.Err? {
          ended := Some(Err(raw.error));
          return;
        }
        var blocks, rawBytes, filteredBytes := Reply(world, raw.value, ran);
        sums := Totals(totals.input, totals.output, totals.rawBytes + rawBytes, totals.filteredBytes + filteredBytes);
        calls := ran + |raw.value|;
        messages := asked + [User(blocks)];
      case Other(reason) =>
        emitter.Emit(Error("stop_reason", reason));
        ended := Some(Err(UnexpectedStop(reason)));
    }
  }

  lemma {:induction false} Taken(manifest: Manifest, world: World, n: nat)
    requires After(manifest, world, n).Going? && n < manifest.maxSteps
    ensures var next := Turn(manifest, world, After(manifest, world, n), n);
            && After(manifest, world, n + 1) == next
            && (!next.Going? ==> After(manifest, world, manifest.maxSteps) == next)
  {
    RoundTaken(Round(manifest, world), Start(manifest), n, manifest.maxSteps);
  }

  method Run(manifest: Manifest, world: World, emitter: SeqEmitter) returns (r: Result<Outcome, RunError>)
    requires emitter.Valid() && emitter.kinds == []
    modifies emitter
    ensures emitter.Valid() && emitter.kinds == After(manifest, world, manifest.maxSteps).kinds
    ensures r == Verdict(manifest, After(manifest, world, manifest.maxSteps))
  {
    var messages: seq<Message> := [User([Text(manifest.task)])];
    var steps, ran := 0, 0;
    var totals := Totals(0, 0, 0, 0);
    while steps < manifest.maxSteps
      invariant steps <= manifest.maxSteps && emitter.Valid() && ran >= 0
      invariant After(manifest, world, steps) == Going(ran, messages, totals, emitter.kinds)
    {
      Taken(manifest, world, steps);
      steps := steps + 1;
      var answer := Ask(manifest, world, steps, emitter);
      if answer.Err? {
        return Err(answer.error);
      }
      var (resp, text) := answer.value;
      totals := Counted(totals, resp);
      messages := messages + [Assistant(resp.content)];
      var ended;
      ended, ran, messages, totals := ActOn(world, ran, messages, totals, resp, text, steps, emitter);
      if ended.Some? {
        return ended.value;
      }
    }
    return Ok(Outcome("", steps, totals, messages));
  }
}
