# Verified models of the jkr core

Dafny models of the algorithmic cores of jkr, with proofs about them: the code index and the tools
that query it, the output filter, the redaction of LLM traffic, the queues and protocols of the
server, the sandbox's output collector, and the agent loop with its message translation.

Run `dafny verify dfyconfig.toml` to check everything.

## How it is put together

| area | files | main results |
|---|---|---|
| call paths | `CallPath`, over `Schema` | the reported chain is real and shortest; "no path" is exact; both loops end |
| index | `Indexer`, `IndexerSteps`, `IndexDb`, `Schema` | when a history of `index_file` calls leaves the rows of a fresh build |
| filter | `Filter`, `FilterFusion`, `FilterRules`, `FilterLaws`, `GroupLaws`, `FilterRuns`, `FilterFlush`, `Utf8`, `Wrapping`, `Numerals`, `Texts` | fusing rules cannot be observed; what each kind of rule says about a line, wherever it stands; what each stateful rule amounts to over a run, and flushes |
| redaction | `Redaction`, `DefaultRules`, `Json`, `BodyScrub`, `RedactedTrees` | nothing is left to find; nothing but matches goes, in content slots only; clean bodies are forwarded as they came |
| event streams | `Sse`, `SseRewrite`, `StreamLines`, `SseUsage`, `UsageEvents`, `SseLongEvents` | chunking cannot be observed; framing is kept; what becomes of each line; nothing is left to find; what becomes of events over the limit |
| receipts | `Receipts`, `Draining`, `Seqs` | each receipt leaves the queue once, and each readable one is answered once, over every interleaving of drainers |
| registry | `Registry` | sweeping cannot be observed; accepted timestamps go up; arrival order matters for ties only |
| broker | `Broker`, `BrokerSessions`, `BrokerRouting` | frames go where they are addressed, once, in order; what becomes of every send; when a session stays reachable |
| sandbox | `Collect` | buffers are bounded prefixes; `Ok` means whole |
| agent | `Agent`, `AgentLaws`, `Translate` | every call is answered once, in order, in the conversation and in its translation |
| listings | `Toon`, `Grouping` | tables and path tables read back to the rows they show |

Code that works by changing things step by step is a method with its loops and invariants, or a class
whose methods state their new state through a function of the old one; what is promised is then proved
about that function. Protocols are state machines: a state, an enabledness predicate, a step function,
and theorems about every run. Values that outside code produces (regular expressions, hashing,
extraction by tree-sitter, signature checks, JSON text, tool and provider answers) are parameters.

Facts that turned out other than the code or its comments suggest:

- A read error in the sandbox's readers is treated as end of file, so `Ok` can carry a stream cut short
  (`Collect.ReadErrorCanCutShort`). A stream in an `Ok` answer is whole iff its reader did not fail, or
  failed behind the last byte (`Collect.OkMeansWhole`).
- Re-indexing trusts the content hash. The index matches a rebuild after every call iff no call ever came
  with contents that hash like the path's last ones and build differently (`IndexDb.HistoryMatchesRebuild`);
  such a call leaves the rows of the old contents (`IndexDb.CollisionLeavesStaleRows`).
- The usage counter reads every event whole iff the bytes pending at each read, with the read itself, stay
  within 1 MiB (`SseUsage.ReadWholeIffWithinLimit`). The proxy reads 8 KiB at a time. Then every event is
  processed, in order, as a suffix of itself: events of up to 1 MiB less 8 KiB whole, events of more than
  1 MiB never (`SseLongEvents.EventsAreReadAsSuffixes`). The suffix has the data of the event iff what is
  left of the line that was cut has the data of the lines that start before the cut
  (`SseLongEvents.LongEventLaw`). So a long event may be counted right, as when a long comment stands in
  front of its data (`SseLongEvents.LongCommentIsHarmless`); it is lost if no `data:` line is left, as with
  one long line that holds no other `data:` (`SseLongEvents.LongEventIsNotCounted`); and it is counted
  wrong if what is left happens to look like a `data:` line (`SseLongEvents.LongEventIsMiscounted`).
- Order of arrival at the registry matters exactly when two announces are newest for one key: then the
  first one wins (`Registry.ArrivalOrderIrrelevant`).
- Ending a broker session detaches whoever is registered under its address. An open session is the one
  registered iff no other session of its address was attached, or ended, since its own attach
  (`BrokerSessions.RegisteredUntilDisplaced`), so a newer connection can be cut off
  (`BrokerSessions.EndReadCutsOffAddress`).
- A broker session that is done reading waits for its writer, but holds a sender of the writer's channel
  itself. Its task can end iff the writer has failed, or still has a frame to fail on or will get one;
  otherwise it waits for good (`BrokerSessions.EndedSessionCanEnd`).
- Fusing filter rules brings one new way to fail: a run whose patterns compile one by one but are too big
  for one set (`FilterFusion.CompileGroup`).
- Release builds do not check overflow, so the filter's and the agent's `u32` counters wrap. A grouping
  rule's counters account for every matching line iff none of them had to count 2^32 lines
  (`GroupLaws.GroupLaw`), and likewise the counts of a deduplicating rule (`FilterLaws.DedupConserves`).
- A table row without cells is written like a row with one empty cell; no other two lists of rows are
  written alike (`Toon.EmptyRowIsAmbiguous`).
- A conversation whose last turn ends the run although it makes tool calls translates to an unpaired
  message list; every other history translates to a paired one (`Translate.HistoryPaired`).

## Model

| member | source | states |
|---|---|---|
| CallPath.TryCallPath | crates/jkr-mcp/src/index_backed.rs:447-528 | `Found` gives a real chain of exactly `depth` calls between the two names, no more than the cap, and no shorter chain exists; `NoPath` is answered iff no chain within the cap exists; missing and equal names are answered exactly when they occur, with the number of candidates |
| CallPath.SearchLoop | crates/jkr-mcp/src/index_backed.rs:481-522 | the breadth-first loop ends, and where it stops there is no shorter chain; without a hit there is no chain within the cap at all |
| CallPath.ExpandHead | crates/jkr-mcp/src/index_backed.rs:490-521 | one turn of the loop keeps the joint invariant over queue order, levels, parents and visited symbols |
| CallPath.ScanRows | crates/jkr-mcp/src/index_backed.rs:506-521 | unseen callees are visited one level down with a parent on record, stopping at the first one with the goal's name |
| CallPath.ChainStaysVisited | crates/jkr-mcp/src/index_backed.rs:481-522 | recorded levels are lower bounds: a chain of `i` calls from a start stays among symbols at level `i` or less |
| CallPath.ExpandedMeansNoChain | crates/jkr-mcp/src/index_backed.rs:481-528 | once every level below `d` is expanded and no goal was met, no chain of `d` calls or fewer exists |
| CallPath.WalkBack | crates/jkr-mcp/src/index_backed.rs:547-557 | the parent walk ends at a start symbol and its reverse is a chain of as many calls as the recorded level |
| CallPath.RenderPath | crates/jkr-mcp/src/index_backed.rs:541-584 | the rendered hops are database rows, consecutive hops show the line of a real call, and the "vanished mid-walk" error cannot occur while foreign keys hold |
| CallPath.StepRows | crates/jkr-mcp/src/index_backed.rs:473-505 | the join returns only real call sites of the symbol and covers every symbol it calls |
| CallPath.SymbolsNamed | crates/jkr-mcp/src/index_backed.rs:531-537 | the ids are exactly those of the symbols with the name, one per row |
| Indexer.InnermostIsNarrowest | crates/jkr-index/src/indexer.rs:79-89 | a call resolves iff some symbol encloses its line, and then to the first of the narrowest ones |
| Indexer.RefsPointToNarrowest | crates/jkr-index/src/indexer.rs:76-97 | one ref per enclosed call, in call order, each from a narrowest symbol of the file around its line; calls outside every symbol get none |
| IndexDb.IndexDb.IndexFile | crates/jkr-index/src/indexer.rs:21-104 | unsupported, unreadable, fresh and unparsable files change nothing and answer accordingly; otherwise the file's rows become those of a build from scratch with the new time stamps, no other file's rows change, and all constraints still hold |
| IndexDb.IndexDb.DeleteFile | crates/jkr-index/src/schema.rs:31-70 | deleting a file row removes its symbols, their refs and their full-text entries, and nothing else |
| IndexDb.IndexDb.FireDeleteTriggers | crates/jkr-index/src/schema.rs:67-70 | the delete trigger, fired symbol by symbol, removes exactly the projection of the deleted symbols |
| IndexDb.IndexDb.ResolveCall | crates/jkr-index/src/indexer.rs:80-89 | the query's answer is the id of the innermost symbol of the file |
| IndexDb.IndexDb.InsertSymbols | crates/jkr-index/src/indexer.rs:67-74 | the loop adds the extracted symbols in order to this file only and keeps full text in step |
| IndexDb.IndexDb.InsertRefs | crates/jkr-index/src/indexer.rs:79-97 | the loop adds the resolved calls in order to this file only |
| IndexDb.HistoryMatchesRebuild | crates/jkr-index/src/indexer.rs:20-104 | over any history from an empty index, the rows of a path equal, row ids aside, a fresh build of its last indexed contents after every call, iff no call came with contents that hash like the path's last ones and build differently |
| IndexDb.HistoryStaysConsistent | crates/jkr-index/src/schema.rs:22-70 | no history breaks a key, leaves a dangling row although ids are reused, or lets full text drift from `symbols` |
| IndexDb.CollisionLeavesStaleRows | crates/jkr-index/src/indexer.rs:36-41 | the run behind it: two calls with contents that share a hash and build differently leave the rows of the first |
| IndexerSteps.DeleteViews | crates/jkr-index/src/indexer.rs:59 | the delete empties the path and leaves every other file's rows as they were |
| IndexerSteps.DeleteKeepsConsistent | crates/jkr-index/src/schema.rs:31-70 | cascades leave nothing dangling and the triggers leave the projection |
| IndexerSteps.ProjectionSplits | crates/jkr-index/src/schema.rs:56-70 | the full-text projection is that of a file's symbols plus that of all others |
| Filter.FilterPlugin.Filter | crates/jkr-filter/src/lib.rs:129-142 | the first opinion of the first rule of a matching group wins, and rules after it do not see the line |
| Filter.FilterPlugin.RunGroup | crates/jkr-filter/src/lib.rs:135-139 | the inner loop gives the answer and the rule states of first-opinion-wins |
| Filter.FilterPlugin.Flush | crates/jkr-filter/src/lib.rs:144-159 | summaries in rule order, one per line, empty ones left out, no state changed |
| Filter.ApplyRule | crates/jkr-filter/src/rules.rs:425-463 | for the two rules whose code has a loop or a shortcut, overlong lines and common prefixes, the code answers and updates as the rule is specified |
| Filter.TruncateLongLine | crates/jkr-filter/src/rules.rs:510-540 | a line is replaced iff it has more than `max_len` characters, the result has exactly max(`max_len`, ellipsis) characters, a prefix and the ellipsis; both byte-length shortcuts and the saturating multiply are sound |
| Filter.PrefixCutoff | crates/jkr-filter/src/rules.rs:435-450 | the loop sees min(characters, `prefix_len`) characters and cuts at exactly the byte offset behind them |
| Filter.ByteOffsetOf | crates/jkr-filter/src/rules.rs:531-535 | the byte offset of a character, or the length of a shorter line |
| Filter.FirstMatch | crates/jkr-filter/src/rules.rs:414-418 | the lowest index of a pattern set that matches, none iff none does |
| Utf8.FewestBytes | crates/jkr-filter/src/rules.rs:441-450 | a character takes the fewest bytes whose payload bits hold its code point |
| Utf8.ByteLenBounds | crates/jkr-filter/src/rules.rs:515-519 | a text has at least as many bytes as characters and at most four times as many |
| Utf8.SliceAtChar | crates/jkr-filter/src/rules.rs:529-537 | slicing at the byte offset behind `k` characters never hits the middle of one and gives exactly those characters |
| FilterFusion.CompilesIffWellFormed | crates/jkr-filter/src/rules.rs:212-316 | a rule compiles on its own iff its pattern, if it has one, is valid and its dictionary, if it has one, is not empty; the error says which |
| FilterFusion.CompileGroup | crates/jkr-filter/src/rules.rs:322-371 | compilation fails iff some rule is not well formed or the patterns of some run of several fusible rules are too big for one set; otherwise unfusing the result gives the separately compiled rules in order, and no two neighbours could still be fused |
| FilterFusion.FusedLine | crates/jkr-filter/src/rules.rs:384-424 | on every line, fused and separate rules answer alike and their states keep corresponding |
| FilterFusion.FusedTranscript | crates/jkr-filter/src/lib.rs:129-142 | the same over whole transcripts through all groups, stateful rules included |
| FilterFusion.FusedFlush | crates/jkr-filter/src/rules.rs:644-699 | fused and separate rules flush the same text |
| FilterFusion.LoadGroups | crates/jkr-filter/src/lib.rs:78-95 | loading succeeds iff every rule of every file compiles and every run fits into its set, and gives the fused form of those groups |
| FilterFusion.FusionPreservesMeaning | crates/jkr-filter/src/rules.rs:318-371 | for all rule lists and transcripts the fused groups give the answers and the flush text of the separately compiled ones |
| FilterLaws.CollapseRunLaw | crates/jkr-filter/src/rules.rs:464-483 | a line is suppressed iff it matches and its place among the matching lines of its run, modulo 2^32, is past `keep_first`; ignored blanks neither count nor end a run |
| FilterLaws.CollapseCommonPrefixLaw | crates/jkr-filter/src/rules.rs:425-463 | a line is suppressed iff its place in the longest stretch of lines sharing its prefix, modulo 2^32, is past `keep_first`; shorter lines never are |
| FilterLaws.CollapseRepeatsLaw | crates/jkr-filter/src/rules.rs:484-509 | a line is suppressed iff it and the line before it match with the same captured text |
| FilterLaws.KeyIsCaptured | crates/jkr-filter/src/rules.rs:590-592 | the key of a line is the group asked for, group 1 by default, if it took part in the match, else the whole match, and empty if there is neither |
| FilterLaws.EmptyResultLaw | crates/jkr-filter/src/rules.rs:576-581 | the message is flushed iff no line reached the rule |
| FilterLaws.DedupLaw | crates/jkr-filter/src/rules.rs:582-602 | over every run the map holds exactly the keys seen, in first-appearance order, each with its first line and its number of lines modulo 2^32 |
| FilterLaws.DedupConserves | crates/jkr-filter/src/rules.rs:582-602 | the counts never exceed the matching lines and add up to them iff no key has 2^32 lines or more |
| GroupLaws.GroupLaw | crates/jkr-filter/src/rules.rs:603-638 | over every run: one bucket per key, holding the first lines of its key that come until the total is full, up to the cap, its overflow being the other such lines modulo 2^32; the global overflow is the matching lines after that, modulo 2^32; kept lines and overflows add up to the matching lines up to whole wraps, and exactly iff no counter had to count 2^32 lines |
| FilterRuns.RuleAfterTranscript | crates/jkr-filter/src/lib.rs:129-142 | after any transcript, a rule is what the lines that reach it make of it: those on which its group is selected and no rule or selected group in front had an opinion |
| FilterRuns.AnswerIsOpinion | crates/jkr-filter/src/lib.rs:129-142 | an answer is the opinion of a rule that the line reaches |
| FilterRules.FirstWordIs | crates/jkr-filter/src/lib.rs:130 | the subcommand is the first word of the arguments, and empty iff they hold none |
| FilterRules.FrontDecides | crates/jkr-filter/src/lib.rs:129-142 | once the definitions and rules up to some point say something about a line, the rest cannot change the answer |
| FilterRules.DropLaw | crates/jkr-filter/src/rules.rs:377-404 | wherever a stretch of prefix, suppress and keep rules stands, and after any transcript: a line that passed everything in front is suppressed iff the definition is selected and a prefix fits it, a suppress pattern matches it or a keep pattern does not; otherwise it passes the stretch |
| FilterRules.KeepLaw | crates/jkr-filter/src/rules.rs:398-404 | a loaded definition of keep rules only passes a line iff every pattern matches it, and suppresses every other line |
| FilterRules.TruncateLaw | crates/jkr-filter/src/rules.rs:405-424 | a run of truncation rules rewrites a line by the first whose pattern matches, with that rule's replacement, and passes it iff none matches |
| FilterRules.WindowLaw | crates/jkr-filter/src/rules.rs:541-562 | a context window shows the match and up to `around` characters on either side, all there are if fewer, with an ellipsis on a side iff something was cut off there; lines without a match pass |
| FilterRules.TruncateLongLaw | crates/jkr-filter/src/rules.rs:510-540 | a line over the limit becomes a prefix and the ellipsis, of max(`max_len`, ellipsis) characters; every other line passes |
| FilterRules.SubstituteLaw | crates/jkr-filter/src/rules.rs:563-575 | a line with words of the dictionary is replaced by its substitution, every other line passes, and a rule without words does not load |
| FilterRules.RuleSays | crates/jkr-filter/src/lib.rs:129-142 | any rule, wherever it stands: its answer to a line that reaches it is its opinion on the last of the lines that have reached it, starting from its freshly compiled state |
| FilterRules.RuleAfterCalls | crates/jkr-filter/src/lib.rs:129-142 | after any transcript a rule is what the lines that passed everything in front of it make of its freshly compiled state |
| FilterFlush.DedupFlushLaw | crates/jkr-filter/src/rules.rs:656-672 | counted dedup flushes one row per key in first-appearance order, the first line of the key with its number behind it if that is more than one, and nothing iff no line matched |
| FilterFlush.GroupFlushLaw | crates/jkr-filter/src/rules.rs:673-697 | grouping flushes its header, a row per key with the lines kept and the number left out, and the number of lines that came once the total was full; nothing iff no line matched |
| FilterFlush.FlushLaw | crates/jkr-filter/src/lib.rs:144-159 | a plugin flushes the summaries of its rules that have one, in order, with a line break between them |
| Redaction.ReplaceKeepsTheRest | crates/jkr-server/src/main.rs:2916-2927 | one rule: the text falls into pieces without a match and matches between them, and the result is the same pieces in the same order with `[REDACTED:<name>]` in place of each match |
| Redaction.ScrubKeepsTheRest | crates/jkr-server/src/main.rs:2916-2927 | scrubbing leads from the text to the result by such replacements, rule after rule |
| Redaction.ScrubLeavesNothing | crates/jkr-server/src/main.rs:2916-2927 | after scrubbing, no rule matches anywhere in the text |
| Redaction.ScrubFixesExactlyClean | crates/jkr-server/src/main.rs:2916-2927 | a text is left as it is iff it holds no match |
| Redaction.ScrubTwice | crates/jkr-server/src/main.rs:2916-2927 | scrubbing again changes nothing |
| Redaction.ReplaceLeavesClean | crates/jkr-server/src/main.rs:2918-2921 | replacing by one rule removes its matches and brings back none of another rule, because matches hold no bracket and markers hold no match |
| Redaction.RedactionEngine.ScrubText | crates/jkr-server/src/main.rs:2916-2927 | the loop scrubs by every rule in turn, replacing matches by markers and keeping all text around them, and bumps each rule's counter once per text in which it fired |
| DefaultRules.DefaultIsSeparated | crates/jkr-server/src/main.rs:2878-2910 | the shipped patterns, written out as languages, meet what the scrubbing theorems ask for |
| DefaultRules.MarkersHoldNoToken | crates/jkr-server/src/main.rs:2886-2921 | no substring of a shipped rule's marker is as long and plain as a match must be |
| DefaultRules.MatchesAreLongTokens | crates/jkr-server/src/main.rs:2886-2909 | every match of a shipped rule is made of token characters and has at least 15 of them |
| DefaultRules.LanguagesAreAsWritten | crates/jkr-server/src/main.rs:2886-2909 | each shipped rule's language is exactly what its regular expression, built up construct by construct, matches; in particular the optional `proj-` adds no string |
| DefaultRules.AnthropicComesFirst | crates/jkr-server/src/main.rs:2893-2898 | what the OpenAI rule gets to see holds no Anthropic key, so none is ever marked as an OpenAI key |
| DefaultRules.CompileLawful | crates/jkr-server/src/main.rs:2882-2885 | the leftmost search over a language never skips a match |
| Json.GetFinds | crates/jkr-server/src/main.rs:2940-2946 | a lookup in an object gives the value of the first field with the key, and nothing iff there is none |
| BodyScrub.TreeScrubbed | crates/jkr-server/src/main.rs:2958-2979 | scrubbing a tree cleans every string in it, keeps its shape and every other value, and changes it iff some string held a match |
| BodyScrub.RequestScrubbed | crates/jkr-server/src/main.rs:2935-2953 | no match is left under the content of a message; with the strings under there emptied, the tree is the same before and after; and nothing changes iff nothing matched |
| BodyScrub.ResponseScrubbed | crates/jkr-server/src/main.rs:2993-3020 | the same for the content slots of both wire formats of a response |
| BodyScrub.RequestBodyLaw | crates/jkr-server/src/main.rs:2935-2953 | a request without a match is forwarded byte for byte, any other as the scrubbed tree, printed, which holds no match in its contents and differs in strings under them only |
| BodyScrub.ResponseBodyLaw | crates/jkr-server/src/main.rs:2993-3020 | the same for responses |
| RedactedTrees.TreeKeepsTheRest | crates/jkr-server/src/main.rs:2958-2979 | scrubbing a tree redacts each of its strings in that sense and changes nothing else |
| RedactedTrees.RequestKeepsTheRest | crates/jkr-server/src/main.rs:2935-2953 | what is forwarded for a request is its very bytes, or the print of the parsed tree in which each string under a message's content is redacted in that sense |
| RedactedTrees.ResponseKeepsTheRest | crates/jkr-server/src/main.rs:2993-3020 | the same for the content slots of both wire formats of a response |
| BodyScrub.ScrubValue | crates/jkr-server/src/main.rs:2958-2979 | the recursive walk scrubs every string below a value, reports whether anything changed, and counts every rule once per string it fired on |
| BodyScrub.ScrubRequestBody | crates/jkr-server/src/main.rs:2935-2953 | the loop over messages gives the request body specified, the original bytes when nothing changed, and counts every rule once per string it fired on |
| BodyScrub.ScrubResponseBody | crates/jkr-server/src/main.rs:2993-3020 | the same for both response formats |
| Sse.FindBlankIsFirst | crates/jkr-server/src/main.rs:2449-2453 | the position found is the first where two newlines meet, none iff there is none |
| Sse.CutAppend | crates/jkr-server/src/main.rs:2585-2598 | cutting a buffer into events and going on with more bytes is cutting all of them at once |
| Sse.CutLosesNothing | crates/jkr-server/src/main.rs:2588-2593 | events and remainder put together are the bytes that were cut |
| Sse.CutBack | crates/jkr-server/src/main.rs:2588-2593 | events put end to end, with a remainder without a blank line, are cut back into themselves |
| Sse.ChunkingIsInvisible | crates/jkr-server/src/main.rs:2441-2457 | any consumer that buffers and folds over complete events ends in a state that depends on the bytes only, not on the chunks |
| SseRewrite.SseRewriter.Process | crates/jkr-server/src/main.rs:2585-2598 | emits the rewritten complete events of what is pending and the chunk, keeps the rest, and counts every rule once per slot it fired on |
| SseRewrite.RewriteSseEvent | crates/jkr-server/src/main.rs:2612-2645 | the loop over the lines of an event gives the event specified and the hit counts |
| SseRewrite.SseRewriter.Flush | crates/jkr-server/src/main.rs:2603-2605 | hands out what is pending, raw |
| SseRewrite.RewriteSession | crates/jkr-server/src/main.rs:2575-2606 | however the bytes are cut into chunks, the outputs put together are the whole stream rewritten event by event, and the hit counts are those of the whole stream |
| SseRewrite.FramingPreserved | crates/jkr-server/src/main.rs:2612-2645 | the rewritten stream has exactly the rewritten events, in order, and the same unfinished tail |
| SseRewrite.RewrittenEvent | crates/jkr-server/src/main.rs:2612-2645 | a rewritten event is an event, line by line: one output line per line, in order |
| SseRewrite.RewrittenLine | crates/jkr-server/src/main.rs:2623-2642 | a line becomes one line, blank iff it was blank |
| SseRewrite.DeltaScrubbed | crates/jkr-server/src/main.rs:2652-2673 | delta texts of both formats come out clean; with them emptied, the delta is the same before and after; and it changes iff something matched |
| StreamLines.DeltaKeepsTheRest | crates/jkr-server/src/main.rs:2652-2673 | the strings in the delta slots of both formats lose their matches and nothing else, and the rest of the delta is as it was |
| StreamLines.DataLineRewritten | crates/jkr-server/src/main.rs:2624-2638 | on the bytes of a line `data: ` + payload: `[DONE]` and payloads that are not JSON are forwarded verbatim, any other becomes one `data: ` line with the print of the redacted delta, which holds no match and differs in its slots only |
| StreamLines.OtherLineKept | crates/jkr-server/src/main.rs:2639-2641 | a line that does not start with `data: ` is forwarded verbatim |
| StreamLines.StreamScrubbed | crates/jkr-server/src/main.rs:2575-2645 | over every stream: each line of a UTF-8 event becomes what its bytes call for, and no output line `data: ` + JSON other than the sentinel holds a match in its delta slots, given that what is printed is parsed back; events that are not UTF-8 and the unfinished tail leave as they came |
| SseRewrite.NothingToRedact | crates/jkr-server/src/main.rs:2612-2645 | with nothing to redact and an identical JSON round trip the stream is unchanged |
| SseUsage.SseUsageAccumulator.Feed | crates/jkr-server/src/main.rs:2441-2457 | one chunk: the 1 MiB guard, then every complete event processed in order, the rest kept |
| SseUsage.TotalsIgnoreChunking | crates/jkr-server/src/main.rs:2441-2457 | for every chunking whose pending bytes stay within 1 MiB the totals are those of the whole stream |
| SseUsage.ReadWholeIffWithinLimit | crates/jkr-server/src/main.rs:2441-2457 | every event is read whole and the unfinished tail kept iff at each chunk what is pending and the chunk stay within 1 MiB |
| SseUsage.ShortEventsAreReadWhole | crates/jkr-server/src/main.rs:2296-2316 | with reads of at most 8 KiB, as the proxy makes them, streams whose events are 8 KiB short of the limit are read whole |
| SseUsage.LongEventIsNeverReadWhole | crates/jkr-server/src/main.rs:2443-2448 | a stream with an event, or a tail, of more than 1 MiB is not read whole under any chunking |
| SseLongEvents.EventsAreReadAsSuffixes | crates/jkr-server/src/main.rs:2296-2457 | over every stream read in chunks of at most 8 KiB, as many events are processed as there are, in order, each as a suffix of itself: whole if it is 8 KiB short of the limit, not whole if it has more than 1 MiB |
| SseLongEvents.LongEventLaw | crates/jkr-server/src/main.rs:2441-2500 | an event of more than 1 MiB, in any chunks, is processed as what is behind the cut; that has the data of the event iff the rest of the cut line has the data of the lines that start before the cut; it counts like the event if neither holds any, and not at all if no data line is left |
| SseLongEvents.LongCommentIsHarmless | crates/jkr-server/src/main.rs:2441-2500 | counted right: a first line without `data:` that outgrows the limit, in front of less than 64 KiB, under any chunking |
| SseLongEvents.LongEventIsNotCounted | crates/jkr-server/src/main.rs:2441-2500 | lost: one `data: ` line of more than 1 MiB whose payload holds no `data:` changes no total under any chunking, although read whole it would |
| SseLongEvents.LongEventInShortReads | crates/jkr-server/src/main.rs:2296-2316 | in particular when it is read 8 KiB at a time |
| SseLongEvents.LongEventIsMiscounted | crates/jkr-server/src/main.rs:2441-2500 | counted wrong: read 8 KiB at a time, a line whose last 64 KiB look like a `data: ` line is counted as that line, not as itself |
| UsageEvents.DataOfLaw | crates/jkr-server/src/main.rs:2459-2483 | the data of an event: of its lines, exactly those that are UTF-8 and start with `data:` carry a payload, less one blank; the data is those payloads in order, from the first that is not empty on, with a newline between them |
| UsageEvents.EventLaw | crates/jkr-server/src/main.rs:2459-2545 | an event without data, with the sentinel, or with data that is not JSON counts nothing; any other sets each total to the low 32 bits of the count, or the model, at the first of its places that has one, and leaves it if none does |
| SseUsage.UpdateMeans | crates/jkr-server/src/main.rs:2497-2545 | which of the places that may carry a count or a model wins when several do |
| Receipts.ReceiptQueue.Push | crates/jkr-server/src/main.rs:2796-2807 | the queue becomes the newest 10,000 and what was dropped is counted |
| Receipts.ReceiptQueue.Drain | crates/jkr-server/src/main.rs:3382-3385 | hands out the whole queue and empties it |
| Receipts.QueueConserves | crates/jkr-server/src/main.rs:2796-2807 | over every run, pushed = queued + drained + dropped, and the queue is the newest pushes since the last drain, up to the cap |
| Receipts.EachReceiptDrainedOnce | crates/jkr-server/src/main.rs:3313-3381 | over every interleaving of inserts and drainers, no receipt is in two committed drains, none is lost, and for each drain there are ascending positions in its ids, exactly those whose row parses, at which the rows inserted are its answer |
| Receipts.ReadableReceiptAnsweredOnce | crates/jkr-server/src/main.rs:3313-3371 | every readable receipt that left the queue is in the answer of exactly one committed drain, at one place |
| Receipts.DrainTakesOldest | crates/jkr-server/src/main.rs:3331-3371 | with no other drain in flight, a drain takes the oldest rows, min(rows, 32) of them |
| Draining.EveryReceiptCanBeDrained | crates/jkr-server/src/main.rs:3313-3371 | in every run, every queued receipt can still be drained, whoever holds it now and however many are in front of it |
| Receipts.RollbackLosesNothing | crates/jkr-server/src/main.rs:3359-3366 | rolling a drain back at any point leaves all rows queued and unlocks the ones it held |
| Receipts.CommitTakesItsClaim | crates/jkr-server/src/main.rs:3344-3371 | a commit removes exactly the claimed rows |
| Registry.RegistryCache.IngestAnnounce | crates/jkr-model/src/registry.rs:162-177 | verdict and cache after one announce: signature, freshness window, then newer-wins per publisher and name |
| Registry.RegistryCache.SweepStale | crates/jkr-model/src/registry.rs:191-195 | keeps exactly the unexpired entries |
| Registry.IngestVerdict | crates/jkr-model/src/registry.rs:162-177 | an announce is accepted iff it is signed, at most the accepted age old, at most 60 s ahead of the clock, and newer than what is there for its publisher and name; otherwise the first of these that fails is the error and nothing changes |
| Registry.ResolveAnswers | crates/jkr-model/src/registry.rs:179-189 | over every run, a name resolves to the announces on file for it, one per publisher, that are within the accepted age |
| Registry.SweepLeavesNoneExpired | crates/jkr-model/src/registry.rs:191-195 | after a sweep no entry is older than the accepted age |
| Registry.SweepIsUnobservable | crates/jkr-model/src/registry.rs:162-195 | on every run with a nondecreasing clock, a cache that sweeps and one that never does give the same verdicts and answers |
| Registry.AcceptedTimestampsIncrease | crates/jkr-model/src/registry.rs:162-177 | accepted timestamps of a publisher and name strictly increase, even with sweeps in between |
| Registry.ArrivalOrderIrrelevant | crates/jkr-model/src/registry.rs:162-177 | at a fixed time, announces lead to the same cache in every order iff no two of them are newest for one key, counting those only that are newer than what is there |
| Registry.SameCacheWithoutTies | crates/jkr-model/src/registry.rs:162-177 | without such ties the cache is the same in any order and with any repetition |
| Registry.EqualTimestampsFirstWins | crates/jkr-model/src/registry.rs:170-174 | two different admissible announces for a key lead to the same cache in either order iff their timestamps differ or what is there is as new |
| Registry.IngestAllHoldsNewest | crates/jkr-model/src/registry.rs:162-177 | the cache holds, per key, a newest admissible announce |
| Broker.EnrollKeeps | crates/jkr-server/src/broker.rs:58-81 | enrolling adds the address to the mesh and never changes a record that is there |
| Broker.BrokerState.Enroll | crates/jkr-server/src/broker.rs:58-81 | returns the record now on file, and changes nothing if there was one |
| Broker.BrokerState.AttachPeer | crates/jkr-server/src/broker.rs:96-102 | registers the channel and gives back the one it replaces |
| Broker.BrokerState.DetachPeer | crates/jkr-server/src/broker.rs:104-110 | removes whatever is registered for the address, and no one else |
| Broker.BrokerState.Status | crates/jkr-server/src/broker.rs:124-145 | per mesh, in ascending order of the ids, the enrolled and the connected members, and the two totals |
| Broker.LessMeans | crates/jkr-server/src/broker.rs:124-145 | the order of the mesh ids: at the first difference the smaller character comes first, and a prefix comes before what it starts |
| Broker.TotalAtMostSum | crates/jkr-server/src/broker.rs:124-145 | if connected addresses are enrolled somewhere, the total is at most the sum of the per-mesh counts |
| BrokerSessions.QueuedFramesAreAddressed | crates/jkr-server/src/broker.rs:317-371 | over every interleaving, a frame queued to a session is the push of a send addressed to it, with an enrolled, hello-verified sender address |
| BrokerSessions.EachSendPushedAtMostOnce | crates/jkr-server/src/broker.rs:351-361 | a send is queued at most once over all sessions |
| BrokerRouting.UnroutedSendIsDropped | crates/jkr-server/src/broker.rs:351-363 | over every run, a send whose address is not connected when it is read is in no queue, and on its way to none, ever after |
| BrokerRouting.RoutedSendArrives | crates/jkr-server/src/broker.rs:351-363 | over every run, any other send is, ever after, on its way to the session registered for its address when it was read, or queued to that session once and to no other, or was given up when that session's channel was closed, and is then nowhere |
| BrokerRouting.WritersKeepOrder | crates/jkr-server/src/broker.rs:334-342 | over every run, a session's writer hands over what was queued to the session, in order, each frame once |
| BrokerRouting.ChannelsAreBounded | crates/jkr-server/src/broker.rs:334 | over every run, a session's channel never holds more than 128 frames its writer has not taken |
| BrokerRouting.SendCanGetThrough | crates/jkr-server/src/broker.rs:334-361 | in every run, a session that is open and between frames can send, and what it sends to a connected address whose writer is running can get to that session's socket, stamped with the sender's address |
| BrokerRouting.EnrolledCanConnect | crates/jkr-server/src/broker.rs:312-334 | an enrolled address can always say hello and attach, and is then the one registered, while all other registrations stay |
| BrokerSessions.PushesKeepOrder | crates/jkr-server/src/broker.rs:351-371 | pushes from one session to another keep the order of the sends |
| BrokerSessions.TotalConnectedBounded | crates/jkr-server/src/broker.rs:124-145 | in every reachable state connected addresses are enrolled and the status totals are consistent |
| BrokerSessions.RegisteredUntilDisplaced | crates/jkr-server/src/broker.rs:96-110 | over every run, an open session is the one registered for its address iff no other session of that address was attached, or ended, since its own attach |
| BrokerSessions.EndReadCutsOffAddress | crates/jkr-server/src/broker.rs:373-375 | the run in which it happens: a second session connects, the first ends, and the second is open but not reachable |
| BrokerSessions.EndedSessionCanEnd | crates/jkr-server/src/broker.rs:334-376 | in every run, the task of a session that is done reading can still end iff its writer has ended, or has a frame to write, or one is on its way; otherwise it never does |
| Collect.BuffersAreBoundedPrefixes | crates/jkr-sandbox/src/exec.rs:141-194 | at every moment of every interleaving each buffer is a prefix of what was written and at most half the cap, or one byte, long |
| Collect.OkMeansWhole | crates/jkr-sandbox/src/exec.rs:219-238 | a stream in an `Ok` answer is whole iff its reader did not fail or failed behind the last byte; a reader that did not fail saw the end, and its stream did not go over its half |
| Collect.CapErrorIffOverHalf | crates/jkr-sandbox/src/exec.rs:222-238 | of the two answers after joining the readers, the cap error is given iff some stream went over its half and its reader did not fail |
| Collect.AnswerFollowsDecision | crates/jkr-sandbox/src/exec.rs:196-238 | over every run exactly one step ends the wait and the answer follows it: `Ok` carries the status of a child that ended by itself, the cap error comes behind an end or a kill, a timeout behind the time being up |
| Collect.WithinHalvesCanBeOk | crates/jkr-sandbox/src/exec.rs:141-238 | any two streams of at most half the cap each (or one byte), and any exit status, can be answered whole |
| Collect.OverHalfCanBeKilled | crates/jkr-sandbox/src/exec.rs:160-203 | if either stream goes over its half, the child can be killed for it and the answer be the cap error |
| Collect.TimeCanBeUp | crates/jkr-sandbox/src/exec.rs:205-213 | as long as nothing tripped the cap, time can be up and the answer be a timeout |
| Collect.ReadErrorCanCutShort | crates/jkr-sandbox/src/exec.rs:151-152 | with a read error, `Ok` can carry a stream cut short |
| Agent.SeqEmitter.Emit | crates/jkr-agent/src/events.rs:23-27 | events are numbered from zero without gaps |
| Agent.RunToolCalls | crates/jkr-agent/src/loop_.rs:129-155 | calls run in order up to the first that is unknown or fails; events and results are those of the phase specified |
| Agent.Reply | crates/jkr-agent/src/loop_.rs:84-97 | one result per call, through the filter if there is one, and the byte sums |
| Agent.Run | crates/jkr-agent/src/loop_.rs:20-116 | the loop gives the outcome or error, and the events, of the run specified turn by turn |
| AgentLaws.ConversationLaw | crates/jkr-agent/src/loop_.rs:38-105 | for every script: roles alternate from the task on, assistant turns are the provider's answers, and every turn but the last is followed by exactly the results of its calls, in order, under their ids, with what the tool said |
| AgentLaws.ConversationIsHistory | crates/jkr-agent/src/loop_.rs:64-98 | such a conversation alternates roles and answers every call of a non-final turn once |
| AgentLaws.RunVerdict | crates/jkr-agent/src/loop_.rs:52-105 | the run is still going after `n` turns iff all of them asked for tools that worked, and has finished iff such turns were followed by one that ends; otherwise it failed |
| AgentLaws.ErrorLaw | crates/jkr-agent/src/loop_.rs:52-155 | a run that failed did so with the error of its first turn that fails: the provider's, that of the first tool call that fails, or the reason for stopping |
| AgentLaws.OutcomeLaw | crates/jkr-agent/src/loop_.rs:20-116 | what a run returns, against the script alone: success iff nothing failed within the steps allowed, then with the conversation, its totals, the number of steps, and the last turn's text or, out of steps, none; otherwise that error |
| AgentLaws.TextOfLaw | crates/jkr-agent/src/loop_.rs:118-127 | the text of a turn is that of its text blocks, all of them in order, with a line break between them |
| AgentLaws.TotalsLaw | crates/jkr-agent/src/loop_.rs:56-91 | token totals are the reported sums up to whole wraps of the `u32`; raw bytes are what the output events announced; with a filter, filtered bytes are those of the results in the conversation |
| AgentLaws.EventsLaw | crates/jkr-agent/src/loop_.rs:52-155 | starts and outputs of tools pair up; `Done` is there iff the run ended by itself, once and last, with the steps used; a failed run may leave only its very last start open |
| Translate.BuildMessages | crates/jkr-providers/src/ollama.rs:33-39 | the message fold gives the translation of the conversation behind the system prompt |
| Translate.TranslateUser | crates/jkr-providers/src/ollama.rs:103-130 | results become tool messages in order, marked when they are errors, with joined texts behind them |
| Translate.TranslateAssistant | crates/jkr-providers/src/ollama.rs:131-160 | texts and calls become one message, in order |
| Translate.HistoryPaired | crates/jkr-providers/src/ollama.rs:101-162 | a history translates to a list in which every tool message answers a call of the nearest assistant message, in call order, each call once and nothing in between, iff it does not end in a turn with calls |
| Translate.RequestsArePaired | crates/jkr-providers/src/ollama.rs:33-39 | every request the agent loop sends, in any run, is such a list |
| Translate.TranslationConserves | crates/jkr-providers/src/ollama.rs:101-162 | no call and no result of any conversation is lost, repeated or reordered |
| Translate.RequestConserves | crates/jkr-providers/src/ollama.rs:33-39 | a request holds exactly the calls and results of its conversation, in order |
| Toon.Table | crates/jkr-mcp/src/toon.rs:30-52 | the loops write the table specified |
| Toon.EscapeCell | crates/jkr-mcp/src/toon.rs:54-69 | the fast path and the character loop give the same escaped text |
| Toon.TableReadsBack | crates/jkr-mcp/src/toon.rs:28-69 | the text reads back as exactly the rows it shows iff no row is without cells |
| Toon.CellReadBack | crates/jkr-mcp/src/toon.rs:54-69 | an escaped cell, whatever it holds, reads back up to its unescaped end |
| Toon.EmptyRowIsAmbiguous | crates/jkr-mcp/src/toon.rs:30-52 | two lists of rows are written as the same table iff they are the same once every row without cells is taken for a row with one empty cell |
| Grouping.MaybePathTable | crates/jkr-mcp/src/index_backed.rs:23-44 | a table is made iff there are at least three rows and some path repeats; ids are 1..n in first-appearance order, one per distinct path |
| Grouping.PathStandsInTable | crates/jkr-mcp/src/index_backed.rs:33-43 | the table is its header and one line per distinct path, in first-appearance order, with the number of the path and the path |
| Grouping.PathTableLosesNothing | crates/jkr-mcp/src/index_backed.rs:166-177 | replacing ids by the paths of the table restores the rows |
| Grouping.FirstSeenAt | crates/jkr-mcp/src/index_backed.rs:33-42 | the k-th distinct path first appears behind all earlier ones |
| Grouping.CountDistinct | crates/jkr-mcp/src/index_backed.rs:29-32 | the set of paths is as large as their list iff none repeats |
| Grouping.GroupCallers | crates/jkr-mcp/src/index_backed.rs:277-291 | one entry per caller in first-appearance order, holding the lines of its rows in row order |
| Grouping.GroupingConserves | crates/jkr-mcp/src/index_backed.rs:277-291 | the groups hold as many lines as there are rows, and each row's line stands at its own place in its group |
| Grouping.GroupCallees | crates/jkr-mcp/src/index_backed.rs:374-403 | callees are grouped by caller and then by name, both in first-appearance order, with all their lines |

## Left out

- Regular expression matching, tree-sitter extraction, SHA-256, signatures and recovery, JSON parsing and printing, UTF-8 checking: parameters of the models, with the laws a proof needs stated as its preconditions.
- CallPath.TryCallPath: gives the answer as a value; its wording as text is not modelled, and the index does not change between its queries.
- CallPath.StepRows: does not model the join with `files`, which drops no row while foreign keys hold; row order is left to the database.
- Indexer.InnermostIsNarrowest: SQLite leaves the choice among equally narrow symbols open; the model takes the first.
- IndexDb.IndexDb.IndexFile: does not model SQLite errors inside the transaction, nor rowids beyond 2^63 - 1, where SQLite stops counting up.
- Filter.ApplyRule: the other thirteen kinds of rule have neither loop nor shortcut and are taken over from the specification.
- FilterRules.WindowLaw: a match is taken to lie inside its line, as the regex crate guarantees.
- FilterLaws.EmptyResultLaw: stated below 2^64 observed lines, where the counter has not wrapped.
- Redaction.RedactionEngine.ScrubText: the counters are unbounded instead of `u64`, and calls are one at a time instead of sharing a lock.
- A credential split across two events is not found by the streaming redactor; the code says so and nothing here claims otherwise.
- Receipts.EachReceiptDrainedOnce: a commit whose outcome is unknown to the drainer counts as either committed or rolled back; receipts that no longer parse leave the queue without being returned.
- The ring of recent calls and the aggregate counters beside the receipt queue.
- Broker sessions: checks of the join attestation and the hello signature come before the steps modelled; panics and the shutdown of the server are not modelled.
- Registry.RegistryCache.IngestAnnounce: the message digest and the reasons a signature can fail are not modelled.
- Collect.BuffersAreBoundedPrefixes: the child, pipes and threads are steps; spawning, rlimits and kernel sandboxes are not modelled.
- Agent.Run: the event sink is always there; the provider, the tools and the filter are scripts indexed by call, so how they use the conversation or their own state is left open.
- The line loop that feeds tool output to the filter plugin, and the repair and parsing of provider responses.
- Grouping.GroupCallers: the rendered list shows at most eight lines per entry and the number of the rest; only the grouping is claimed to lose nothing.
- Grouping.MaybePathTable: reading the table's own text back is not claimed, because a path that holds a line break is written as it is.
- HTTP routing, sessions, dashboards, configuration, the command line, the vault and the contracts.
