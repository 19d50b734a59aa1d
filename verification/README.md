# What this project verifies

A Dafny 4.11 model of the parts of the repository where small pieces of code carry a large claim: the differential
terminal renderer, the prompt-cache write gate, chunked terminal input, the price compilers, the SGR tracker and the
range painter, the Bedrock schema projection, and a handful of sequence algorithms. `dafny verify dfyconfig.toml` checks
everything.

Code that updates state is a class or a method with a loop, proved against a specification function or a predicate over
its old and new state; what the source promises is then proved about those. Code made of expressions is functions. The
outside world is a parameter: the terminal is a state machine over the control functions of ECMA-48 that the renderer
writes (CR, LF, CUU, CUD, CHA, ED, EL), timers and listeners are steps that may happen at any time, a price scaled to a
million tokens is an opaque function, and a text line is drawn by an opaque function from strings to cells.

| files | what they model |
|---|---|
| `Terminal`, `FrameRows`, `Painting`, `Renderer` | the differential renderer over a terminal with saved lines |
| `RenderCache`, `RenderRuns` | nested containers that cache their rendered lines, and runs of building and rendering them |
| `CacheGate` | the per-key write gate with waiters, releases, aborts and handoffs, in every interleaving |
| `BracketedPaste`, `EscapeSplitter`, `StdinBuffer` | paste collection and escape-sequence splitting across chunks |
| `InputGrammar`, `InputEvents` | the grammar of escape sequences, and which input becomes which event |
| `ModelCost`, `OpenRouterPricing`, `GatewayPricing` | two price compilers and the evaluator they compile for |
| `PriceMeaning` | what the vendors' price objects say, entry by entry |
| `Sgr`, `StyledRow` | the style tracker, its printer, range painting and slicing |
| `SgrCodes` | the table of what every code does to every attribute |
| `BedrockSchema` | projecting schemas with references and combinators to one flat object schema |
| `SchemaPaths` | what a schema declares on the paths through its references and branches |
| `Catalog`, `Shards`, `TextRanges`, `KillRing` | section replacement, transcript files, pasted ranges, the kill ring |
| `Results`, `Json`, `Strings`, `Fields` | shared data types, searching, joining and splitting |

## Where the code does not meet its claim

Each property is proved with the exact condition under which it holds; the lemmas whose names end in `Example` are
single inputs that show it fails.

- A line whose last visible cell would be half of a wide character is cut one cell short, but its width counts as the
  whole row, so no tail clear follows and the old last cell stays (`tui.ts:1606-1616`): `FrameRows.StaleExample`, and
  exactly when in `FrameRows.RepaintExact`.
- An empty frame in the branch for deleted lines leaves row 0 as it was (`tui.ts:1518-1562`):
  `Renderer.EmptyFrameExample`. A cursor marker above the screen, possible once a frame has become shorter, puts the
  renderer out of step with the cursor (`tui.ts:1350`, `1696-1727`): `Renderer.MarkerAboveExample`.
  `Renderer.Tui.DoRender` states both conditions with if and only if, and `Renderer.Tui.Play` for every frame of a run:
  a frame that is redrawn is always shown and in step. The guard `extraLines > height` (`tui.ts:1535`)
  never holds.
- Splitting input is independent of how it is cut except after a chunk that ends by emitting two escapes
  (`stdin-buffer.ts:216-229`): `EscapeSplitter.IncrementalTwo`, and exactly when in `EscapeSplitter.Incremental`.
- An empty chunk that arrives before the first character of a framed paste emits an empty data event ahead of it
  (`stdin-buffer.ts:345-348`): `StdinBuffer.EmptyChunkExample`, and exactly when in `StdinBuffer.FramedExactly`.
- A slice that starts right at a style change puts the codes before its range after the codes at its start, so its first
  grapheme has the wrong style (`utils.ts:1056-1065`): `StyledRow.SliceExample`, and exactly when in
  `StyledRow.SliceWithWidth`. Painting a range does not have this fault.
- An empty range inside rewritten text counts as pasted text although it covers none, and text typed where two pasted
  ranges touch does not, although both its neighbours are pasted (`editor-component.ts:81`):
  `TextRanges.EmptyRangeExample`, `TextRanges.TouchingRangesExample`, and exactly when in `TextRanges.TouchedExact`. For
  ranges in canonical form, which editors report, the test is right: `TextRanges.TouchedMeansCovered`.
- A definition whose name is empty or has a line terminator in it cannot be referred to (`amazon-bedrock.ts:769`):
  `BedrockSchema.PointerExample`, and exactly when in `BedrockSchema.PointerFinds`.
- A blank transcript that no open file can take leaves no trace (`transcript-shards.ts:43-65`): `Shards.LostExample`, and
  exactly when in `Shards.WriteTranscriptShards`, by `Shards.KeptAll`. The caller in `session-transcripts.ts` writes none.

## Model

| member | source | states |
|---|---|---|
| Terminal.PutOver | packages/tui/src/tui.ts:1418-1418 | Writing cells from the margin leaves the row as it was with the line laid over it, halves of wide characters mended |
| FrameRows.RepaintExact | packages/tui/src/tui.ts:1611-1615 | Painting a line over the previous one and clearing the tail shows exactly the new line if and only if no stale last cell is left |
| FrameRows.StaleExample | packages/tui/src/tui.ts:1611-1615 | A wide character cut at the right edge leaves the old last cell standing |
| Painting.PaintMany | packages/tui/src/tui.ts:1606-1616 | Painting a run of lines makes each shown row the repainted one and changes no other row |
| Painting.StartPainting | packages/tui/src/tui.ts:1576-1599 | Scrolling and moving reach the first changed line from wherever the cursor is, never clamped, and shift what is saved by what was scrolled |
| Painting.FinishPainting | packages/tui/src/tui.ts:1618-1635 | Rows of deleted lines are blank afterwards and the cursor is back at the end of the frame |
| Painting.EraseMany | packages/tui/src/tui.ts:1630-1632 | Each further row below the frame is blank, scrolling included |
| Painting.AllPainted | packages/tui/src/tui.ts:1416-1419 | Printing every line on an empty screen shows the whole frame |
| Renderer.DrawnExact | packages/tui/src/tui.ts:1606-1616 | A drawn difference shows the frame if and only if no row leaves something behind |
| Renderer.EmptyFrameExample | packages/tui/src/tui.ts:1374-1562 | One line of text and then an empty frame, rendered: the line still stands and the frame is not shown |
| Renderer.ChangedDrawn | packages/tui/src/tui.ts:1572-1680 | The repaint branch draws every line of the frame, and the tracked viewport and cursor row are right |
| Renderer.DeletedDrawn | packages/tui/src/tui.ts:1518-1550 | The branch for deleted lines blanks all of them, except the first when the frame is empty |
| Renderer.ReachDecided | packages/tui/src/tui.ts:1524-1570 | The two guards redraw exactly when a line above the screen changed or the frame ends above it |
| Renderer.FindChanges | packages/tui/src/tui.ts:1482-1503 | The first and last changed line: nothing differs outside them, and appended lines count as changed |
| Renderer.FindCursorMarker | packages/tui/src/tui.ts:1348-1361 | The last marker among the bottom lines, and its visible column |
| Renderer.ApplyLineResets | packages/tui/src/tui.ts:1232-1244 | The loop computes the lines as they are written |
| Renderer.LinesWritten | packages/tui/src/tui.ts:1232-1361 | The marked line is written as the text before and after its marker, normalised and reset, every other line as it is, normalised and reset; the cursor is asked for in the marked line behind the text before the marker |
| Renderer.MarkedOrNot | packages/tui/src/tui.ts:1348-1361 | Every frame has such a marked line or no marker among its bottom lines |
| FrameRows.FitLongest | packages/tui/src/tui.ts:1418-1418 | What is shown of a line splits no glyph, and no longer front that fits splits none either |
| Renderer.PaintLines | packages/tui/src/tui.ts:1606-1616 | The buffer the paint loop builds is the one whose effect is proved |
| Renderer.EraseBuffer | packages/tui/src/tui.ts:1540-1549 | The erase loop blanks its rows and comes back, whatever the screen cuts off |
| Renderer.MoveBuffer | packages/tui/src/tui.ts:1576-1599 | The moves and scrolls towards the first changed line, and the viewport they lead to |
| Renderer.ChangedBuffer | packages/tui/src/tui.ts:1572-1637 | The whole repaint buffer, the final cursor row and the new viewport |
| Renderer.FullBuffer | packages/tui/src/tui.ts:1408-1421 | Running the full-render buffer shows the frame from a cleared or fresh screen |
| Renderer.Tui.PositionHardwareCursor | packages/tui/src/tui.ts:1696-1727 | Only the cursor moves: to the asked cell, or to the nearest row of the screen |
| Renderer.Tui.FullRender | packages/tui/src/tui.ts:1408-1437 | After a full render the terminal shows the frame below whatever was kept |
| Renderer.Tui.DrawDeleted | packages/tui/src/tui.ts:1518-1562 | The deleted-lines branch draws the frame and keeps what stands above it |
| Renderer.Tui.DrawChanged | packages/tui/src/tui.ts:1572-1688 | The repaint branch draws the frame and keeps what stands above it |
| Renderer.Tui.KeepFrame | packages/tui/src/tui.ts:1509-1515 | With no change only the cursor moves |
| Renderer.Tui.DrawDifference | packages/tui/src/tui.ts:1482-1688 | Difference or redraw, decided by whether the screen reaches the first change |
| Renderer.Tui.DoRender | packages/tui/src/tui.ts:1374-1689 | The lines written are those of the frame without its marker, and the cursor is placed where the text before the marker ends; the terminal shows the frame if and only if it was redrawn or nothing was left behind, and stays in step if and only if the marker was on the screen; which frames redraw, how far the screen is scrolled, and what is kept above |
| Renderer.Tui.RequestFullRender | packages/tui/src/tui.ts:881-893 | The next frame is redrawn whatever the terminal shows, and the stronger clear mode wins |
| Renderer.Tui.Play | packages/tui/src/tui.ts:881-1727 | Over every run of frames, redraw requests, resizes to any screen contents and overlays: each frame is shown if and only if it is redrawn or leaves nothing behind, and the renderer is in step after it if and only if moreover its marker is not above what the screen is scrolled to; after a step that puts it out of step comes a request or a resize |
| Renderer.Tui.PlayStep | packages/tui/src/tui.ts:1374-1727 | One such step: what the renderer keeps is what the run so far determines |
| Renderer.RedrawnIsGood | packages/tui/src/tui.ts:1408-1437 | A redrawn frame is always shown and in step, whatever its marker |
| Renderer.UncutIsGood | packages/tui/src/tui.ts:1606-1616 | So is a non-empty frame of which no line is cut within a glyph, unless its marker is above what the screen had scrolled to |
| Renderer.MarkerAboveExample | packages/tui/src/tui.ts:1374-1727 | Ten lines on a screen of five and then seven with the marker in the third: the renderer ends with the cursor tracked in a row where it is not |
| Renderer.MarkerLow | packages/tui/src/tui.ts:1348-1361 | A found marker is among the bottom lines of the frame |
| RenderCache.Component.Render | packages/tui/src/tui.ts:325-359 | Rendering returns the concatenation of what the children freshly show, shared children included, and the revision stands for it; it leaves a cache exactly when every child states a revision, and rendering a tree whose caches are all current changes no cache and no revision |
| RenderCache.Component.RenderChild | packages/tui/src/tui.ts:334-345 | One step of the comparison of children and revisions with the cache |
| RenderCache.Component.Store | packages/tui/src/tui.ts:348-358 | The next revision, a cache of these lines exactly when every child has a revision, and every other cache stays true |
| RenderCache.Component.Reuse | packages/tui/src/tui.ts:346-346 | Cached lines are what the children show now |
| RenderCache.Component.AddChild | packages/tui/src/tui.ts:299-302 | The child is added and the revision is one never rendered |
| RenderCache.Component.RemoveChild | packages/tui/src/tui.ts:304-310 | The first occurrence is removed, or nothing changes |
| RenderCache.Component.Clear | packages/tui/src/tui.ts:312-315 | No children, and a revision never rendered |
| RenderCache.Component.Invalidate | packages/tui/src/tui.ts:317-323 | The caches here and below are dropped, and all others stay true |
| RenderCache.FreshDepths | packages/tui/src/tui.ts:325-359 | What a tree freshly shows does not depend on the witness that it has no cycle |
| RenderCache.Component.Container | packages/tui/src/tui.ts:285-297 | A new container has no children, no cache and revision 0, and is in order |
| RenderCache.Component.Change | packages/tui/src/tui.ts:56-66 | A leaf that changes under a new revision, or back to what it showed at that revision, leaves every cache true |
| RenderRuns.Play | packages/tui/src/tui.ts:285-360 | Over every run of making, adding, removing, clearing, invalidating, changing and rendering components, every render returns what an interpreter without caches returns |
| RenderRuns.RankedAfter | packages/tui/src/tui.ts:299-323 | Only adding a child can make a cycle |
| RenderRuns.DrawDepths | packages/tui/src/tui.ts:325-359 | What the interpreter returns does not depend on the witness that there is no cycle |
| CacheGate.StepKeepsInv | packages/ai/src/prompt-cache-reservation.ts:22-69 | Every step keeps: a key is held exactly while one request owns it, and its waiters are queued in order of arrival |
| CacheGate.AcquireDecides | packages/ai/src/prompt-cache-reservation.ts:22-44 | An acquire is rejected with no key changed if its signal has fired; else it owns its key if that was free, and is its last waiter behind the same owner if it was not; nobody else is touched |
| CacheGate.WaiterAborts | packages/ai/src/prompt-cache-reservation.ts:34-39 | The abort of a waiter takes it off the list and rejects it, and changes nothing else |
| CacheGate.ResumeDecides | packages/ai/src/prompt-cache-reservation.ts:45-50 | A waiter that was let go proceeds; one that was handed the key holds it, unless its signal fired |
| CacheGate.NotDue | packages/ai/src/prompt-cache-reservation.ts:22-69 | An event that is not due does nothing, and a signal that fires is only remembered |
| CacheGate.ProceedsOnlyReleased | packages/ai/src/prompt-cache-reservation.ts:45-63 | In every run, a request that proceeds without its key had waited when the holder of the key released it |
| CacheGate.MutualExclusion | packages/ai/src/prompt-cache-reservation.ts:16-69 | In every state of every run a key is present exactly when one request holds it or is being handed it, never two |
| CacheGate.NoWaiterLost | packages/ai/src/prompt-cache-reservation.ts:29-44 | Every waiting request is queued once, behind an owner |
| CacheGate.StepCloser | packages/ai/src/prompt-cache-reservation.ts:29-69 | No event puts a waiting request back, and every turn of the owner of its key brings it closer |
| CacheGate.BoundedWait | packages/ai/src/prompt-cache-reservation.ts:29-69 | In every interleaving, while a request still waits the owners of its key have had at most two turns for each waiter that was ahead of it, and one more |
| CacheGate.WaitEnds | packages/ai/src/prompt-cache-reservation.ts:29-69 | From every state, turns of the owners alone end a wait, with the request let go or handed the key |
| CacheGate.StepForward | packages/ai/src/prompt-cache-reservation.ts:29-69 | A request only moves forward and its fate, once decided, never changes |
| CacheGate.RunForward | packages/ai/src/prompt-cache-reservation.ts:29-69 | The same over every run: no waiter is woken twice |
| CacheGate.LateReleaseIsIdle | packages/ai/src/prompt-cache-reservation.ts:50-53 | A late or repeated release changes nothing, whoever holds the key by then |
| CacheGate.LetGoNeverOwns | packages/ai/src/prompt-cache-reservation.ts:45-45 | A waiter woken by a release never becomes a holder |
| CacheGate.HandoffToEarliest | packages/ai/src/prompt-cache-reservation.ts:57-60 | A handoff goes to the earliest request still waiting, and leaves the others waiting |
| CacheGate.ReleaseWakesAll | packages/ai/src/prompt-cache-reservation.ts:61-62 | A release after the write ends the hold, frees the key and wakes every waiter, and nobody else |
| CacheGate.OwnerAbortPasses | packages/ai/src/prompt-cache-reservation.ts:56-67 | An abort of the owner makes the first waiter the owner or frees the key, and touches nobody else |
| CacheGate.CascadeFreesKey | packages/ai/src/prompt-cache-reservation.ts:56-67 | A cascade of aborts ends with the key free and exactly its requests settled |
| CacheGate.PromptCacheGate.AcquirePromptCacheWrite | packages/ai/src/prompt-cache-reservation.ts:22-45 | The class takes the acquire step: the new request is rejected, waiting or holding, and the map of held keys changes accordingly |
| CacheGate.PromptCacheGate.SettleHold | packages/ai/src/prompt-cache-reservation.ts:51-63 | Settling shifts the first waiter or frees the key and wakes all, as the protocol step does |
| CacheGate.PromptCacheGate.RunAbortListener | packages/ai/src/prompt-cache-reservation.ts:34-39 | A waiter's abort takes it out of the queue, a holder's settles its hold |
| CacheGate.PromptCacheGate.ResumeWaiter | packages/ai/src/prompt-cache-reservation.ts:45-67 | A woken waiter proceeds, or takes the hold and passes it on at once if its signal fired |
| BracketedPaste.ClosingMarkerPrefixLength | packages/tui/src/bracketed-paste.ts:34-42 | The longest end of the text that is a proper prefix of the closing marker |
| BracketedPaste.SearchHeld | packages/tui/src/bracketed-paste.ts:103-104 | Searching the kept end and the new input finds the first marker of all text so far |
| BracketedPaste.HoldHeld | packages/tui/src/bracketed-paste.ts:113-116 | The kept end of all text is that of the kept end and the new input |
| BracketedPaste.BracketedPasteBuffer.ConsumeActive | packages/tui/src/bracketed-paste.ts:100-118 | The paste completes with the chunk that completes the first marker; content and remainder are cut exactly there |
| BracketedPaste.BracketedPasteBuffer.Consume | packages/tui/src/bracketed-paste.ts:58-65 | The same from any state, text before a start marker counting as content |
| BracketedPaste.BracketedPasteBuffer.DrainPending | packages/tui/src/bracketed-paste.ts:87-94 | An idle drain gives out everything but the kept end, each character once |
| BracketedPaste.BracketedPasteBuffer.FlushPending | packages/tui/src/bracketed-paste.ts:78-84 | Giving up gives out everything not given out yet |
| EscapeSplitter.ExtractCompleteSequences | packages/tui/src/stdin-buffer.ts:191-254 | The loop computes the extraction and terminates |
| InputGrammar.SplitsByGrammar | packages/tui/src/stdin-buffer.ts:27-254 | What is emitted and kept is determined by where sequences end: a control sequence at its first final byte, mouse reports in their two forms, OSC at BEL or ST, DCS and APC at ST, SS3 and other keys after one character; a remainder has no end in it |
| InputGrammar.CompleteEnds | packages/tui/src/stdin-buffer.ts:27-181 | A front of the input counts as complete exactly when a sequence may end there |
| InputGrammar.DividesOnce | packages/tui/src/stdin-buffer.ts:191-254 | There is only one way to cut a buffer by that grammar |
| InputGrammar.ArrowsExample | packages/tui/src/stdin-buffer.ts:88-123 | Two arrow keys in one chunk are two sequences |
| EscapeSplitter.Conserved | packages/tui/src/stdin-buffer.ts:191-254 | Sequences and remainder together are the buffer |
| EscapeSplitter.RemainderIsIncomplete | packages/tui/src/stdin-buffer.ts:243-245 | No sequence is empty, and the remainder starts with an escape and yields nothing again |
| EscapeSplitter.Incremental | packages/tui/src/stdin-buffer.ts:191-254 | Extracting more input later gives the same sequences, if and only if no double escape was emitted that the new input separates |
| EscapeSplitter.IncrementalTwo | packages/tui/src/stdin-buffer.ts:216-229 | Two escapes emitted at the end of a chunk stay together if and only if the next chunk does not begin a longer sequence |
| StdinBuffer.FramedPaste | packages/tui/src/stdin-buffer.ts:302-427 | On any empty buffer, start marker, content, end marker and tail, cut anywhere, with any empty chunks and with pauses anywhere but within the start marker: an empty data event for each empty chunk before the first character, at least one paste event, together giving the content, then the tail as a fresh buffer takes it |
| StdinBuffer.FramedExactly | packages/tui/src/stdin-buffer.ts:302-427 | Nothing but pastes comes before the tail if and only if no empty chunk comes before the first character and no pause within the start marker |
| StdinBuffer.PausedGivesData | packages/tui/src/stdin-buffer.ts:382-388 | A pause within the start marker gives out the part that is there as input |
| StdinBuffer.RunClean | packages/tui/src/stdin-buffer.ts:392-427 | In every run, a buffer that is empty outside a paste is in a state that the framing theorem starts from |
| StdinBuffer.EmptyChunkExample | packages/tui/src/stdin-buffer.ts:345-348 | An empty chunk ahead of a paste is an empty data event |
| StdinBuffer.CollectPhase | packages/tui/src/stdin-buffer.ts:392-417 | The same from the middle of a paste |
| StdinBuffer.OpeningPhase | packages/tui/src/stdin-buffer.ts:350-372 | From its first character on, a start marker cut anywhere but not paused in opens the paste with nothing emitted |
| StdinBuffer.StdinBuffer.ProcessInput | packages/tui/src/stdin-buffer.ts:302-390 | The class does to a chunk what its meaning says, in every branch |
| StdinBuffer.StdinBuffer.ConsumeFramedPaste | packages/tui/src/stdin-buffer.ts:392-406 | Paste text is collected or completed, and what follows is ordinary input again |
| StdinBuffer.StdinBuffer.PasteIdle | packages/tui/src/stdin-buffer.ts:412-416 | The idle timer emits what is certainly content and stays in the paste |
| StdinBuffer.StdinBuffer.SequenceTimeout | packages/tui/src/stdin-buffer.ts:382-388 | The sequence timer emits an unfinished sequence and empties the buffer |
| InputEvents.CodepointIsReported | packages/tui/src/stdin-buffer.ts:183-189 | The remembered code point is the one of an unmodified key report, and of nothing else |
| InputEvents.EmittedInOrder | packages/tui/src/stdin-buffer.ts:429-438 | Every sequence is given out as it is and in order, except a single character that the report right before it types |
| InputEvents.PlainChunk | packages/tui/src/stdin-buffer.ts:323-390 | Text without escapes is one paste if unframed pastes are looked for and it has a line break and more; else it is typed character by character |
| InputEvents.MixedChunk | packages/tui/src/stdin-buffer.ts:350-406 | Input ahead of a paste comes first, an unfinished sequence of it goes on behind the paste, and a lone escape is a key |
| ModelCost.ResolveModelCost | packages/ai/src/usage.ts:13-42 | The active tier is the one with the greatest threshold below the size, the first of equals; missing rates are the base rates; the long-context multipliers apply only without tiers |
| ModelCost.ActiveUnique | packages/ai/src/usage.ts:25-32 | There is one active tier, so what resolving gives is determined |
| ModelCost.ResolvedIs | packages/ai/src/usage.ts:13-42 | Rates that a cost is proved to resolve to, by either compiler, are the rates of its active tier; so resolving returns them, multiplied when there are no tiers and the request is beyond the long-context threshold |
| OpenRouterPricing.ParseOpenRouterCatalogCost | packages/ai/scripts/openrouter-catalog-metadata.ts:15-46 | Compiling succeeds exactly when the direct prices of requests of every size are valid, and then the tiers resolve to them for every size |
| PriceMeaning.DirectIs | packages/ai/scripts/openrouter-catalog-metadata.ts:15-62 | The direct prices of a request: which entries are errors or passed over, the last applicable one deciding each key, and which key feeds which rate |
| PriceMeaning.AppliedPrice | packages/ai/scripts/openrouter-catalog-metadata.ts:36-42 | The price at a key is that of the last override that applies and has it, else the base price |
| OpenRouterPricing.CompileTiers | packages/ai/scripts/openrouter-catalog-metadata.ts:36-45 | One tier for each distinct threshold is enough for every request size |
| OpenRouterPricing.TiersResolve | packages/ai/scripts/openrouter-catalog-metadata.ts:36-44 | Resolving such tiers gives the rates of applying the overrides in listed order |
| OpenRouterPricing.Effective | packages/ai/scripts/openrouter-catalog-metadata.ts:38-42 | The loop applies every override up to the threshold, later ones winning per key |
| GatewayPricing.MergeGatewayPrices | packages/ai/scripts/generate-models.ts:792-827 | Merging succeeds exactly when all prices and thresholds are valid, and then each field resolves to its own entry's rate for every size |
| PriceMeaning.GatewayIs | packages/ai/scripts/generate-models.ts:776-827 | The rate of a request is that of the entry reaching furthest, the last of equals, else the base rate |
| PriceMeaning.PricedIs | packages/ai/scripts/generate-models.ts:776-815 | Merging fails exactly for a bad price, a bad threshold or an entry without a price |
| GatewayPricing.CollectField | packages/ai/scripts/generate-models.ts:799-820 | After each field the base rates and partial tiers say what its entries say |
| GatewayPricing.FillTiers | packages/ai/scripts/generate-models.ts:822-827 | Every filled tier has all four direct rates just above its threshold |
| GatewayPricing.BestIsGreatest | packages/ai/scripts/generate-models.ts:805-820 | The deciding entry is the one with the greatest minimum not above the size, the last listed of equals |
| GatewayPricing.FilledResolves | packages/ai/scripts/generate-models.ts:821-827 | Between thresholds nothing changes, so the filled tiers resolve to the direct rate |
| Sgr.CodeFound | packages/tui/src/utils.ts:359-391 | A sequence found at the start of a text is complete by itself, and is found again before any other text |
| Sgr.LinkReprinted | packages/tui/src/utils.ts:401-423 | Printing a parsed hyperlink gives back its code, with the terminator it came with |
| Sgr.MatchIsWhole | packages/tui/src/utils.ts:457-463 | The unanchored pattern for SGR codes can match nothing but the whole code |
| Sgr.StateReprinted | packages/tui/src/utils.ts:600-623 | Reading the printed state from a clear start gives the state |
| Sgr.RoundTrip | packages/tui/src/utils.ts:432-670 | The same for the state after every text: colours, attributes and links together |
| Sgr.ProcessedAlike | packages/tui/src/utils.ts:446-578 | Every code sets each attribute or keeps it, whatever the state |
| SgrCodes.CodeTable | packages/tui/src/utils.ts:503-577 | For every code with one number, what it makes of each attribute, of the colours and of the link |
| SgrCodes.ColorUndone | packages/tui/src/utils.ts:559-575 | A colour followed by the default code of its kind is as the default code alone |
| SgrCodes.ExtendedSets | packages/tui/src/utils.ts:477-501 | Palette and RGB colours are kept as they were given |
| SgrCodes.OneByOne | packages/tui/src/utils.ts:472-577 | A list of parameters acts as its first number or colour and then the rest, each in a code of its own |
| SgrCodes.LinkCode | packages/tui/src/utils.ts:401-452 | An OSC 8 code opens the link it names or closes the link, and keeps the style |
| SgrCodes.OtherwiseKept | packages/tui/src/utils.ts:446-470 | Nothing but such codes changes the state |
| SgrCodes.CodeIsFirstEnd | packages/tui/src/utils.ts:359-391 | A sequence found in a text goes up to its first final byte, BEL or ST |
| SgrCodes.AfterPlain | packages/tui/src/utils.ts:659-670 | Text between sequences changes nothing |
| Sgr.AnsiCodeTracker.Process | packages/tui/src/utils.ts:446-578 | The fields become those of the processed state |
| Sgr.AnsiCodeTracker.ProcessParams | packages/tui/src/utils.ts:472-577 | Parameters one after another, extended colours taking three or five |
| Sgr.AnsiCodeTracker.GetActiveCodes | packages/tui/src/utils.ts:600-606 | The printed state |
| Sgr.AnsiCodeTracker.GetActiveSgr | packages/tui/src/utils.ts:609-623 | The printed style, without the link |
| Sgr.AnsiCodeTracker.HasActiveCodes | packages/tui/src/utils.ts:625-639 | True exactly when the state is not clear |
| Sgr.AnsiCodeTracker.UpdateFromText | packages/tui/src/utils.ts:659-670 | Reading a text processes its sequences in order |
| StyledRow.StyleColumnRange | packages/tui/src/utils.ts:1110-1151 | The row shows the same graphemes up to the edge with the same links and styles, except the paint over exactly those that begin in the range; the final state is the row's own, or clear when clipped |
| StyledRow.Repainted | packages/tui/src/utils.ts:1128-1132 | Paint, a code of the row and the paint again are as the code and then the paint |
| StyledRow.PaintLeave | packages/tui/src/utils.ts:1122-1125 | A reset and the active codes restore the row's own style |
| StyledRow.PaintedAreSliced | packages/tui/src/utils.ts:1101-1138 | The graphemes painting changes are exactly those a slice of the range returns |
| StyledRow.SliceWithWidth | packages/tui/src/utils.ts:1041-1073 | The graphemes of the range and their width; their states are the row's if and only if the codes before the range and those at its start commute, and the first has them read in the wrong order |
| StyledRow.SliceExample | packages/tui/src/utils.ts:1041-1073 | A slice that starts at the change from colour 31 to 32 shows its grapheme in 31 |
| BedrockSchema.RequiredIsForced | packages/ai/src/providers/amazon-bedrock.ts:811-858 | A property name is in the projection's required set if and only if every object accepted by every validator that enforces the schema has that key |
| BedrockSchema.Sound | packages/ai/src/providers/amazon-bedrock.ts:811-858 | Every projected required key is present in every accepted object, through references and combinators |
| BedrockSchema.TolerantEnforces | packages/ai/src/providers/amazon-bedrock.ts:811-858 | The validator that tolerates objects without a given key, wherever the projection does not require it, enforces every schema; `RequiredIsForced` shows the object it accepts |
| BedrockSchema.Project | packages/ai/src/providers/amazon-bedrock.ts:811-858 | The recursion ends on cyclic references by (references not followed yet, schema), and yields only valid names with record schemas |
| BedrockSchema.ProjectObject | packages/ai/src/providers/amazon-bedrock.ts:811-858 | The loops over combinators and branches compute the projection |
| BedrockSchema.MergeMissing | packages/ai/src/providers/amazon-bedrock.ts:797-801 | The target keeps its properties, and takes from the source every name it neither has nor inherits |
| SchemaPaths.PropertiesExactly | packages/ai/src/providers/amazon-bedrock.ts:788-858 | A name is among the projected properties if and only if a schema reached through references and branches declares it, the schema itself for names every object inherits; its value is the first declared in the order own, reference, anyOf, oneOf, allOf |
| SchemaPaths.ProjectsExactly | packages/ai/src/providers/amazon-bedrock.ts:811-858 | A schema has a projection if and only if every schema reached from it is an object schema with a good reference and good branches |
| SchemaPaths.SentProperties | packages/ai/src/providers/amazon-bedrock.ts:884-899 | The properties sent are those declared on some path, each as first declared |
| SchemaPaths.RewritableExactly | packages/ai/src/providers/amazon-bedrock.ts:866-886 | Which schemas are rewritten |
| SchemaPaths.DeclaredOnce | packages/ai/src/providers/amazon-bedrock.ts:797-801 | Paths give each property one value |
| BedrockSchema.IntersectRequired | packages/ai/src/providers/amazon-bedrock.ts:803-809 | The keys that all branches require |
| BedrockSchema.PointerFinds | packages/ai/src/providers/amazon-bedrock.ts:768-778 | The pointer of any path resolves to what the path leads to if the path goes below a section, none of its names has a line terminator and it is not one empty name; otherwise to nothing |
| BedrockSchema.PointerExample | packages/ai/src/providers/amazon-bedrock.ts:769-769 | Definitions named with the empty string or with a line feed are there and cannot be referred to |
| BedrockSchema.EscapeRoundTrip | packages/ai/src/providers/amazon-bedrock.ts:774-774 | Unescaping undoes the escaping of RFC 6901 |
| BedrockSchema.Normalize | packages/ai/src/providers/amazon-bedrock.ts:866-904 | What is rewritten and how; a rewritten schema requires exactly the declared keys that are forced, and no schema that goes out requires a key some accepted object lacks |
| Catalog.SectionFound | packages/ai/scripts/model-catalog-provider-update.ts:8-22 | The found section is the one marker, the first terminator after it and no header between; it is found if and only if there is one |
| Catalog.PutGet | packages/ai/scripts/model-catalog-provider-update.ts:2-6 | The section found in the result is the generated one, and the text before and after is unchanged |
| Catalog.PutPut | packages/ai/scripts/model-catalog-provider-update.ts:2-6 | Replacing again changes nothing, and a later replacement hides an earlier one |
| Catalog.GetPut | packages/ai/scripts/model-catalog-provider-update.ts:2-6 | Putting the old section back restores the catalog |
| Catalog.NoneBefore | packages/ai/scripts/model-catalog-provider-update.ts:11-13 | No marker straddles the beginning of the new section |
| Catalog.NoneBeyond | packages/ai/scripts/model-catalog-provider-update.ts:11-14 | No marker straddles its end |
| Shards.WriteTranscriptShards | scripts/lib/transcript-shards.ts:25-70 | Every file holds a group that fits or one oversized transcript, with its line count; the files hold exactly the kept transcripts in order, which are all of them if and only if no blank one comes when no open file takes it; when none is blank no cut of them into fitting files has fewer |
| Shards.KeptAll | scripts/lib/transcript-shards.ts:43-66 | All transcripts are kept if and only if no blank one comes when no open file takes it |
| Shards.KeptNonBlank | scripts/lib/transcript-shards.ts:43-66 | What is lost is blank |
| Shards.LostExample | scripts/lib/transcript-shards.ts:43-66 | A blank first transcript is lost |
| Shards.NoFewer | scripts/lib/transcript-shards.ts:50-68 | Any grouping into files that fit needs at least as many as filling greedily |
| Shards.BegunFuller | scripts/lib/transcript-shards.ts:57-66 | A fuller open file never saves a file and costs at most one |
| Shards.CountNewlines | scripts/lib/transcript-shards.ts:17-23 | The number of line feeds |
| Shards.NewlinesCount | scripts/lib/transcript-shards.ts:17-23 | That number is how many places hold one |
| TextRanges.MergeTextRanges | packages/tui/src/editor-component.ts:22-32 | The canonical form of the same set of offsets |
| TextRanges.CanonicalUnique | packages/tui/src/editor-component.ts:22-32 | A set of offsets has one canonical form |
| TextRanges.ReplaceTextRanges | packages/tui/src/editor-component.ts:38-57 | Exactly the image of the set under the edit, in canonical form |
| TextRanges.CarryTextRanges | packages/tui/src/editor-component.ts:64-83 | The longest common prefix and suffix keep their flags, and the rewritten text is pasted exactly when asked and touched |
| TextRanges.TouchedExact | packages/tui/src/editor-component.ts:81-81 | For any ranges, touched means pasted offsets in the part, or on both sides of an insertion, if and only if not all ranges that pass the test are empty and the insertion is not just where one range ends and another begins |
| TextRanges.TouchedMeansCovered | packages/tui/src/editor-component.ts:81-81 | For canonical ranges that is always so |
| TextRanges.EmptyRangeExample | packages/tui/src/editor-component.ts:81-81 | An empty range counts as touched |
| TextRanges.TouchingRangesExample | packages/tui/src/editor-component.ts:81-81 | An insertion between two touching ranges does not |
| KillRing.ByteLengthConcat | packages/tui/src/kill-ring.ts:14-14 | UTF-8 lengths add up, except that cutting a surrogate pair costs two bytes |
| KillRing.LongerCut | packages/tui/src/kill-ring.ts:17-22 | A longer cut has at least as many bytes, from either end |
| KillRing.ClampUtf8 | packages/tui/src/kill-ring.ts:13-27 | The binary search finds the greatest cut within the budget |
| KillRing.ClampWellFormed | packages/tui/src/kill-ring.ts:13-27 | Of well-formed text the longest well-formed cut within the budget is kept: never half of a pair |
| KillRing.KillRing.Push | packages/tui/src/kill-ring.ts:48-67 | The byte count is exact, both limits hold, the newest entry survives, and no more of the oldest are dropped than must be |
| KillRing.KillRing.Rotate | packages/tui/src/kill-ring.ts:75-80 | The last entry moves to the front, nothing else changes |
| KillRing.RotatedRound | packages/tui/src/kill-ring.ts:75-80 | As many rotations as entries are the identity |
| KillRing.KillRing.Peek | packages/tui/src/kill-ring.ts:70-72 | The newest entry |

## Left out

- Renderer: image lines and Kitty placements, the Termux branch, overlay composition, synchronized-output markers, logging and render scheduling.
- Renderer: the pen state between rows, and what `fitToWidth` appends to a clipped line; a cell carries a glyph and no style.
- Renderer.Tui.DoRender: `fitToWidth` and `visibleWidth` are the cut and the length of an opaque list of cells, so grapheme widths are not computed.
- Renderer.Tui.Play: a screen whose contents change while its size stays the same, which the renderer cannot notice.
- RenderRuns.Play: rendering a tree with a cycle, which does not end in the source.
- RenderCache: a component that draws itself may change only between renders; its own invalidate hook is not modelled.
- CacheGate: the check of a signal right after its listener is registered, which no interleaving of single-threaded steps can reach; an abort sets the signal in one step and each listener runs in a later one.
- StdinBuffer.StdinBuffer.ProcessInput: the conversion of a single high byte given as a buffer, and events other than data and paste; timers are steps.
- EscapeSplitter: the regular expression and the field check for mouse reports are one predicate.
- Characters are Dafny characters; only the kill ring works on UTF-16 code units.
- ModelCost: `calculateCost`, and rounding: rates are real numbers.
- OpenRouterPricing, GatewayPricing: which numbers and texts are finite prices, and rounding to 15 digits, are inside the opaque scale; error messages do not name the field or model.
- Sgr: SGR codes the tracker does not know, colon-separated parameters among them, change nothing.
- StyledRow: a row is its escape sequences and graphemes in order; that inserting codes does not change grapheme segmentation is taken for granted.
- `wrapTextWithAnsi`, truncation, `extractSegments` and the East Asian width tables.
- BedrockSchema: a schema key `__proto__`, cloning of shared or cyclic values, and the constraint description.
- BedrockSchema: which branch's property schema wins is computed, but that the projected properties accept what the original accepts is not claimed, because it does not hold.
- Catalog: that a JSON-encoded name has no raw line break or tab is an assumption about `JSON.stringify`.
- Shards: file names beyond their index, the file system and the callback.
- The rest of `amazon-bedrock.ts`, `generate-models.ts` and the other packages: network clients, registries, command line and plumbing.
