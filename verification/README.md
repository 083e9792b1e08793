# Models of a terminal multiplexer

The program runs shells in panes on a daemon and shows them on remote clients.
This project models the parts of it that have to agree with each other and
proves that they do. There are four groups.

**The render pipeline.** A pane's publication state collects damage, one
pending scroll and a shadow snapshot; a compiler turns each publication into
stateful display commands (implicit position and style, coalesced text and
fills, bridged blanks); the client interprets them and applies the result to a
ring buffer of rows. `RenderRuns.ClientShowsTerminal` is the statement about
all of it: after any run, a pane with nothing owed is shown by the client
exactly as its terminal has it. It is built from five layers:
`Damage` (what a terminal records covers what it changed), `PublicationRun`
and `PaneRenderState` (a publication repaints everything that differs from the
scrolled snapshot, closed under double-width pairs of both rows),
`FrameCompiler` (every optimised frame denotes the plain list of cell writes),
`DisplayInterpreter` and `ScanoutCache` (the client executes exactly that) and
`RenderPipeline`/`RenderRuns` (one delivery, and all of them).

**The client's own display.** `Prediction` overlays unconfirmed typing on the
authoritative cells and takes it away again; the invariant of `PredictedPane`
is that the painted screen is the cache overlaid with exactly the visible
predictions. `Activation` joins the layout stream with the frame streams.
`InputDecoders` relates three decoders of the same byte stream.

**Daemon state machines.** `WindowGroups` (windows, panes and layouts shared
by the sessions of a group), `WindowLeases` (who views which window),
`Delivery` (the ordered mailbox of a client), `BufferCirculation` (two
publication buffers between two goroutines), `PtyPacing` (read admissions).

**Formats.** `TileLayout` (layout trees and their 100 by 100 tiles),
`WireCodec` (display commands and frame headers as bytes).

Classes follow the program's objects: each method is proved against a function
of the old state, or against the relation the state machine uses, and the
properties are lemmas about those. `Display` and `Publication` hold the shared
entities. The style of a continuation cell is never compared, an empty text
and a single space are one blank, and two styles may stand for each other on a
blank when a space looks the same in both, but for the default colours;
`Painting.Shows` is that relation and `Painting.ShownLooks` what it says about
the look of a cell. Where the
code does not keep a property in every state, the section "Where a property
needs a condition" gives the exact condition.

## Model

| member | source | states |
|---|---|---|
| RenderRuns.ClientShowsTerminal | internal/server/pane_render_state.go:810-1068 | After every run of mutations, attaches, detaches, invalidations, cancellations, preparations and hand-offs, when an attached pane has no pending publication and no mutation left, a client that was delivered the compiled log shows the terminal's grid and cursor, and holds the layout revision the last attach named |
| RenderRuns.ClientLooksLikeTerminal | internal/server/pane_render_state.go:810-1068 | There, cell by cell: what the client draws has the characters, colours, underline and attributes of the terminal's cell, except exactly where a default foreground and a default background stand for each other |
| RenderRuns.SmallUpdateIsDelta | internal/server/pane_render_state.go:497-539 | From a pane with nothing owed, an update that leaves half of the screen clean and scrolls less than its region is published as a delta over the last publication with that scroll, except at an anchor version |
| RenderRuns.RevisionAttached | internal/server/pane_render_state.go:402-409 | In every run the pane carries the layout revision its last attach named |
| RenderRuns.LogShows | internal/server/output_lease.go:434-514 | Along the whole delivered log: the client accepts every frame, shows the screen that publication was made from, and stays in step with the confirmer's style table |
| RenderRuns.ConfirmLog | internal/server/output_lease.go:593-641 | A confirmer in any state compiles the publications of a log one after another: all it compiled the client accepts and shows, and it stops only at a publication that is not compilable |
| RenderRuns.ConfirmNext | internal/server/output_lease.go:434-514 | The next publication of a log never breaks the chain and never lacks the barrier |
| RenderRuns.NextShown | internal/client/client.go:1912-1998 | One more publication of the log takes the client from the last shown screen to the next one |
| RenderRuns.VersionChain | internal/server/pane_render_state.go:402-448 | In every run each handed-off publication passes the check of its lease's confirmer, whatever epoch and version earlier attachments, of this pane or another, have left there; it carries the layout revision of the last attach, is a keyframe at every 256th version, and as the first one after an attach has the start-render barrier even if an earlier pending one was cancelled |
| RenderRuns.BarrierFollows | internal/server/output_lease.go:439-449 | A barrier that starts a new stream passes the check of any confirmer |
| RenderRuns.QuietPaneIsPublished | internal/server/pane_render_state.go:454-483 | A pane with nothing owed has handed off at least once, and the last thing handed off is what the terminal shows |
| RenderRuns.StepKeeps | internal/server/pane_runtime.go:376-641 | Every event of the pane, an attach to a used lease included, keeps damage soundness, the version chain and the log's continuity |
| RenderRuns.RunKeeps | internal/server/pane_runtime.go:376-641 | So they hold in every state of every run |
| RenderPipeline.DeliveryShows | internal/server/output_lease.go:322-514 | A frame that denotes a publication, executed on a client showing its base, gives a client that shows the next screen and knows the same styles |
| RenderPipeline.PaintingShows | internal/client/client.go:2019-2088 | Scrolling the cache and writing the published runs turns the base screen into the next one and keeps every double-width pair whole |
| RenderPipeline.RunsShow | internal/client/client.go:2000-2017 | Painting the runs of a publication over a grid that agrees everywhere else shows the new grid |
| RenderPipeline.RunPaintable | internal/server/pane_render_state.go:880-945 | No published run cuts a double-width pair of the cells it is painted over |
| RenderPipeline.NarrowWants | internal/client/client.go:2049-2086 | Writes that fulfil published runs never are a wide space, the one case where a filled span could be cached with another width |
| RenderPipeline.SlotView.EmitFrame | internal/client/client.go:1912-1998 | Interpreting, scrolling, installing styles and applying spans on the ring cache accepts exactly the frames delivery accepts and leaves what it specifies; a double-width space is the one write cached as another text; a refused frame leaves cache and styles alone |
| RenderPipeline.SlotFrameAccepted | internal/client/client.go:879-993 | A decoded frame is refused only by its commands or its size: its writes always lie inside its grid, so no span of it can leave a cache of that size |
| RenderPipeline.FittingAccepted | internal/client/client.go:1908-1915 | A frame announced with the grid it decodes to fits a slot's place in the layout exactly if its cache accepts it |
| RenderPipeline.CachedFits | internal/client/client.go:2078-2086 | The cells a span is cached as lie where the cells it means lie |
| PublicationRun.MergeKeeps | internal/server/pane_render_state.go:497-583 | Merging an update that covers what it changed keeps: cells outside the dirty spans equal the scroll-shifted base, and the dirty-row count is right |
| PublicationRun.RecordedCovers | internal/server/view_mutation.go:17-115 | What a view mutation records of a terminal's changes is such an update |
| PublicationRun.PrepareKeeps | internal/server/pane_render_state.go:810-1057 | A preparation leaves nothing owed but the pending publication, whose shot is the terminal |
| PublicationRun.HandOffKeeps | internal/server/pane_render_state.go:1059-1068 | The handed-off shot becomes the base, with damage still sound |
| PublicationRun.InvalidateKeeps | internal/server/pane_render_state.go:431-448 | A new epoch drops the base and owes a keyframe |
| PublicationRun.AttachKeeps | internal/server/pane_render_state.go:402-409 | An attached pane starts without a base and owes the barrier |
| PublicationRun.DetachKeeps | internal/server/pane_render_state.go:411-419 | A detached pane owes nothing |
| PublicationRun.MovedCovers | internal/server/pane_render_state.go:505-525 | After merging a scroll, either a keyframe is owed or the moved spans and the composed region account for the scrolled screen |
| PublicationRun.ScrollsAddUp | internal/server/pane_render_state.go:505-525 | Two scrolls of one region and direction that leave something of it merge as one scroll by their sum, damage included, and force no keyframe |
| PublicationRun.QuietMeansShown | internal/server/pane_render_state.go:454-456 | Without pending publication and mutation the snapshot is the terminal |
| PaneRenderState.PanePublicationState.Prepare | internal/server/pane_render_state.go:810-1006 | The method is a preparation step: it publishes, finds no change, or is refused only because a style table or cluster arena is full |
| PaneRenderState.PanePublicationState.StorePending | internal/server/pane_render_state.go:987-1006 | A publication is stored with its next snapshot, or refused for a full table |
| PaneRenderState.PanePublicationState.CompareRows | internal/server/pane_render_state.go:863-973 | After the row loop the buffer's runs repaint exactly what needs it in every row |
| PaneRenderState.PanePublicationState.PreviousRowAt | internal/server/pane_render_state.go:766-779 | The cell compared with is the scroll-shifted snapshot's, and there is none on exposed rows or without a valid snapshot |
| PaneRenderState.PanePublicationState.CandidateCellCount | internal/server/pane_render_state.go:781-792 | The number of dirty cells |
| PaneRenderState.PanePublicationState.ChooseKeyframe | internal/server/pane_render_state.go:836-845 | A keyframe is sent when one is owed or half the screen is dirty |
| PaneRenderState.PanePublicationState.MergeViewMutation | internal/server/pane_render_state.go:497-539 | The fields updated in place become the merged phase; a detached pane ignores the update |
| PaneRenderState.PanePublicationState.MergeScroll | internal/server/pane_render_state.go:505-525 | A scroll is composed with the pending one and carries the dirty rows along, or turns into a keyframe |
| PaneRenderState.PanePublicationState.MergeSpans | internal/server/pane_render_state.go:526-531 | All spans merged, clipped to the grid, with the dirty-row count kept |
| PaneRenderState.PanePublicationState.CancelPending | internal/server/pane_render_state.go:421-429 | The version does not advance, and the barrier of the cancelled publication is owed again |
| PaneRenderState.PanePublicationState.InvalidateEpoch | internal/server/pane_render_state.go:431-448 | The whole new state: next epoch, version zero, no base, all rows dirty |
| PaneRenderState.PanePublicationState.Attach | internal/server/pane_render_state.go:402-409 | The whole new state after an attach, the named layout revision in it |
| PaneRenderState.PanePublicationState.Detach | internal/server/pane_render_state.go:411-419 | The whole new state after a detach |
| PaneRenderState.PanePublicationState.HandOff | internal/server/pane_render_state.go:1059-1068 | The next snapshot takes the place of the base and the version advances |
| PaneRenderState.DiffRow | internal/server/pane_render_state.go:864-973 | One row: the runs added cover every changed cell with its pair partners in the old and the new row, start and end on no half pair, and cover nothing else |
| PaneRenderState.PublicationDone | internal/server/pane_render_state.go:863-1006 | Once all rows are done, the buffer is a publication that turns the base into the terminal |
| PaneRenderState.NoRunsMeansSame | internal/server/pane_render_state.go:985-995 | A delta without runs is found exactly when the terminal equals the shifted base |
| PaneRenderState.PrepareNextSnapshot | internal/server/pane_render_state.go:1008-1057 | The snapshot built by shifting the old one and overlaying the runs means the terminal, cell for cell |
| PaneRenderState.CopyScrolled | internal/server/pane_render_state.go:1012-1036 | The shifted old snapshot, blank on exposed rows, in the new style table |
| PaneRenderState.OverlayRuns | internal/server/pane_render_state.go:1037-1057 | The runs overlaid, every other cell kept |
| RowDiff.Widen | internal/server/pane_render_state.go:880-905 | A dirty span grows until it cuts no pair of either row |
| RowDiff.Compare | internal/server/pane_render_state.go:906-918 | A column is marked exactly when a keyframe is due, nothing was there, or the meaning of the cell changed |
| RowDiff.ClosePairs | internal/server/pane_render_state.go:919-945 | The marks become closed under the pairs of both rows, adding nothing but partners |
| PublicationBuffer.Buffer.AppendRun | internal/server/pane_render_state.go:955-972 | A run is stored with the meaning of its cells, or the tables are full |
| PublicationBuffer.Buffer.AppendRow | internal/server/pane_render_state.go:946-973 | The marked columns of a row become maximal runs in order |
| PublicationBuffer.HoldsMeans | internal/server/pane_render_state.go:723-742 | Stored runs resolve, through style table and cluster arena, to the cells they were made from |
| SemanticCells.InternStyle | internal/server/pane_render_state.go:709-721 | The style is found or appended, and no existing id changes |
| SemanticCells.AppendSemantic | internal/server/pane_render_state.go:723-742 | A stored cell denotes the terminal's cell and earlier cells still denote theirs; it is refused only for a full table or arena |
| SemanticCells.TranslateCell | internal/server/pane_render_state.go:744-764 | A cell moved to other tables keeps its meaning |
| SemanticCells.CurrentEqualsMeans | internal/server/pane_render_state.go:682-707 | The comparison that reads style and cluster tables is equality of meanings |
| Damage.ScrollKeepsCovers | internal/server/pane_render_state.go:556-583 | A scroll carries base, dirty spans and screen along: what the spans covered they still cover |
| Damage.MergeKeepsCovers | internal/server/pane_render_state.go:541-554 | Merging spans covers both what was changed before and what changed now |
| Damage.ComposedSource | internal/server/view_mutation.go:59-96 | Where a row of two composed scrolls comes from is where the one summed scroll takes it from |
| Damage.HullSmallest | internal/server/pane_render_state.go:541-554 | The merged span is the smallest that holds both |
| Damage.DirtyCountUpdate | internal/server/pane_render_state.go:526-537 | The running count of dirty rows after one row changes |
| Damage.ShiftDirtyRows | internal/server/pane_render_state.go:556-583 | Spans move with their rows, and the rows reported as dropped are the dirty ones that left |
| Damage.ViewMutation.MarkDirty | internal/server/view_mutation.go:32-57 | Whatever a terminal writes in the marked columns stays explained by the mutation |
| Damage.ViewMutation.RecordScrollRegion | internal/server/view_mutation.go:59-96 | A recorded scroll keeps the mutation an explanation of the screen, by composing regions or by asking for a full redraw |
| Damage.ViewMutation.HasRenderChange | internal/server/view_mutation.go:104-115 | No reported change means the screen is still the base |
| FrameCompiler.PaneConfirmer.Compile | internal/server/output_lease.go:434-514 | Exactly the publications that continue the stream pass the version check; a compilable one always compiles; a compiled frame denotes the publication for the client; every other refusal names its cause in the publication or in the lack of room for its styles |
| FrameCompiler.CompilableSends | internal/server/output_lease.go:46-79 | With complete tables, known colours, clusters with text, a cursor not before the first cell and room for its styles, a publication sends nothing the encoder refuses |
| FrameCompiler.PutRunesFit | internal/server/output_lease.go:252-270 | A fill coalesced across rows never covers more than the grid, so it stays within the encoder's limit |
| FrameCompiler.TableGrows | internal/server/output_lease.go:61-79 | A frame adds at most one wire style for each style of its publication |
| FrameCompiler.FrameCompiler.CompileAll | internal/server/output_lease.go:490-509 | All runs, the last flush and the cursor: the client's writes are exactly the published cells |
| FrameCompiler.FrameCompiler.CompileRun | internal/server/output_lease.go:322-432 | One run appends exactly its cells to what the client will have written |
| FrameCompiler.FrameCompiler.CompileText | internal/server/output_lease.go:378-429 | Text, fill and bridged blanks of one stretch all end up as its cells |
| FrameCompiler.FrameCompiler.CompileCluster | internal/server/output_lease.go:351-377 | A cluster cell is written with its own text, width and style |
| FrameCompiler.FrameCompiler.MoveTo | internal/server/output_lease.go:120-137 | After it the client writes there, also when no command was sent because an implicit wrap already did it |
| FrameCompiler.FrameCompiler.SelectStyle | internal/server/output_lease.go:147-163 | After it the client's selected style is the one asked for |
| FrameCompiler.FrameCompiler.EnsureStyle | internal/server/output_lease.go:61-79 | The style has an id that the client knows under the same style, and no id changes its style |
| FrameCompiler.FrameCompiler.QueueRune | internal/server/output_lease.go:185-204 | One more cell in the client's future writes, whether it joins the pending text or starts one |
| FrameCompiler.FrameCompiler.QueueFill | internal/server/output_lease.go:252-270 | A repeated blank or rune stands for all its cells, coalesced or not |
| FrameCompiler.FrameCompiler.WriteClusterCell | internal/server/output_lease.go:360-374 | The cluster command takes effect after everything pending |
| FrameCompiler.FrameCompiler.SendCluster | internal/server/output_lease.go:366-374 | A cluster command writes its cell where and in the style the pen stands |
| FrameCompiler.FrameCompiler.BlankBridgeEnd | internal/server/output_lease.go:296-320 | Finds the bridge if there is one: blanks equivalent to the pending style, up to a rune of that style; and finds none otherwise |
| FrameCompiler.FrameCompiler.ReversedBlankBridged | internal/server/output_lease.go:296-320 | A reversed default blank between default letters is such a bridge, although it looks different |
| Display.EquivalentLooks | internal/server/output_lease.go:272-294 | Blank styles are equivalent exactly when a space looks the same in both, or one shows the default foreground where the other shows the default background; underlined ones only when they are one style |
| Display.MixedStyles | internal/server/output_lease.go:272-294 | The two styles of that exception, exactly: one reversed and one not, neither underlined, both showing a default colour |
| Display.ReversedDefaultMixed | internal/server/output_lease.go:272-294 | The default style and its reverse are such a pair, and look the same exactly where the two default colours are one |
| Display.CanonicalLooks | internal/server/pane_render_state.go:597-605 | Canonical styles look the same with any text, once is enough, and nothing else changes |
| FrameCompiler.FrameCompiler.WriteBridge | internal/server/output_lease.go:342-394 | Bridged blanks written in the pending style show as the published blanks, in the sense of Painting.ShownLooks |
| FrameCompiler.FrameCompiler.FinishPending | internal/server/output_lease.go:103-118 | The flush sends what was pending and the client then has it |
| FrameCompiler.FrameCompiler.WriteCursor | internal/server/output_lease.go:499-509 | The client's cursor becomes the published one, or stays when it did not change |
| FrameCompiler.FlushPending | internal/server/output_lease.go:103-118 | Sending the pending command changes nothing of what the client will have shown |
| FrameCompiler.QueueCells | internal/server/output_lease.go:185-270 | Extending the pending command by whole cells extends the client's writes by those cells |
| FrameCompiler.BarrierMeaning | internal/server/output_lease.go:460-476 | A start-render barrier puts any client into the state the confirmer restarts from |
| DisplayInterpreter.DisplayFrameCompiler.AppendText | internal/client/client.go:1022-1043 | Runes are put one by one with wraps between cells, a refused rune leaves the earlier ones, and the spans stored are those writes |
| DisplayInterpreter.DisplayFrameCompiler.AppendFill | internal/client/client.go:1045-1063 | A fill is that many whole cells of the rune, or is refused |
| DisplayInterpreter.DisplayFrameCompiler.FillRows | internal/client/client.go:1045-1063 | Filling row by row writes what putting the runes one by one would |
| DisplayInterpreter.DisplayFrameCompiler.AppendCluster | internal/client/client.go:954-966 | A cluster takes one cell of its width, and is refused when it does not fit |
| DisplayInterpreter.DisplayFrameCompiler.StartRender | internal/client/client.go:901-915 | The barrier resets pen, canvas and styles |
| DisplayInterpreter.DisplayFrameCompiler.InstallStyle | internal/client/client.go:921-930 | A new id is installed once; the shared table of earlier frames is not touched |
| DisplayInterpreter.DisplayFrameCompiler.Apply | internal/client/client.go:900-993 | One command is executed exactly as its meaning says, refusals included |
| DisplayInterpreter.DisplayFrameCompiler.Interpret | internal/client/client.go:879-993 | A whole frame is accepted exactly when every command is, with the meaning of them all |
| DisplayInterpreter.PutRunesInRow | internal/client/client.go:1022-1043 | Runes that fit the row are written side by side and leave the position after them |
| DisplayInterpreter.RefusedForGood | internal/client/client.go:879-898 | A frame with a refused command is refused whatever follows |
| DisplayInterpreter.StylesStay | internal/client/client.go:916-940 | Between barriers an installed style never changes, the grid and revision stay, and before the first barrier nothing is accepted |
| Painting.WriteKeepsPairs | internal/client/client.go:2034-2066 | A cell written anywhere leaves every pair of the row whole |
| Painting.PaintKeepsPairs | internal/client/client.go:2019-2088 | So does any list of writes |
| Painting.PaintRunPrefix | internal/client/client.go:2019-2088 | Part of a run painted: the cells so far show, the rest of the row is as before |
| Painting.PaintRuns | internal/client/client.go:2000-2088 | All runs painted: each shows, and every cell outside them is unchanged |
| Painting.ScrollShows | internal/client/client.go:1597-1642 | A scrolled cache shows the scrolled screen |
| Painting.ShownLooks | internal/server/output_lease.go:286-294 | A cell that shows another has the same look, character, colours, underline and attributes, unless it is a blank that mixes up the default colours |
| ScanoutCache.PaneScanoutCache.ScrollBy | internal/client/client.go:1597-1623 | On the ring of rows, for every head, legal region and delta: rows shift as in a plain sequence and exposed rows are blank |
| ScanoutCache.PaneScanoutCache.ScrollUp | internal/client/client.go:1597-1623 | The overlapping row copies upwards overwrite no row still needed |
| ScanoutCache.PaneScanoutCache.ScrollDown | internal/client/client.go:1597-1623 | Nor do the copies downwards |
| ScanoutCache.PaneScanoutCache.ScrollViewport | internal/client/client.go:1625-1642 | Turning the head and blanking rows is the same scroll of the whole view |
| ScanoutCache.PaneScanoutCache.CopyRow | internal/client/client.go:1592-1623 | One row copied, all others unchanged, though both lie in one array |
| ScanoutCache.PaneScanoutCache.Store | internal/client/client.go:2024-2066 | One write clears the halves of pairs it lands on, stores the cell with its continuation, and records exactly the cells that changed |
| ScanoutCache.PaneScanoutCache.ApplySpan | internal/client/client.go:2019-2088 | A span painted on the ring is its writes painted on the grid, and the recorded evidence is exact |
| ScanoutCache.PaneScanoutCache.ApplySpans | internal/client/client.go:2000-2088 | Spans are applied in order up to the first that leaves the pane, which is the error; the evidence is exact for every cell touched, also then |
| ScanoutCache.ApplyIsPaint | internal/client/client.go:2000-2088 | Whole spans without double-width spaces are cached exactly as the writes they mean, refusals included |
| ScanoutCache.ScrollRows | internal/client/client.go:1597-1642 | Copying rows in the direction of the shift and blanking the rest is the scroll of the grid |
| ScanoutCache.CachedWritesPaint | internal/client/client.go:2049-2086 | Caching a filled span as empty cells paints what writing spaces would |
| ScanoutCache.RecordExact | internal/client/client.go:2024-2033 | Evidence stays exact when one more cell changes |
| Prediction.PredictedPane.AcceptLocalInput | internal/client/client.go:1798-1825 | After any input the predictor has taken every byte, the screen is the cache overlaid with the visible predictions, and neither cache nor cursor changed |
| Prediction.PredictedPane.ResetPrediction | internal/client/client.go:1827-1857 | After a reset the screen is the cache |
| Prediction.PredictedPane.EmitFrame | internal/client/client.go:1912-1998 | After an authoritative frame, natively scrolled or repainted, the same invariant holds and the cache is the frame's |
| Prediction.InputPredictor.ApplyLocalInput | internal/client/prediction.go:288-329 | Pending operations, trust, target, cursor and flags are the fold of one byte after another over the data, from the cursor the pane shows when the target is new; the spans returned take the old overlay to the new one |
| Prediction.TypedWord | internal/client/prediction.go:288-372 | A word typed where the row is blank is predicted character by character, side by side, in the style of the cell before it |
| Prediction.EchoedWord | internal/client/prediction.go:407-502 | When a frame echoes the first k characters of such a word, exactly they are confirmed and the others stay pending, and are shown from then on exactly if one of the k had not been there before |
| Prediction.TypedInPane | internal/client/prediction.go:331-405 | Whatever is typed, predictions lie in the pane and never in its last column |
| Prediction.InputPredictor.ApplyAuthoritativeFrame | internal/client/prediction.go:407-467 | The longest confirmed prefix is removed and earns trust by its evidence, a contradiction or a scroll clears all, anything else keeps all; no character shown at a visible prediction changes when confirmed |
| Prediction.InputPredictor.ConfirmPending | internal/client/prediction.go:423-467 | With operations pending, the longest prefix that explains cells and cursor goes and earns trust by its evidence; without one a touched first cell or a moved cursor drops everything |
| Prediction.InputPredictor.AcceptPrintable | internal/client/prediction.go:331-372 | Predicted exactly on a blank cell before the last column; then one insertion at the cursor in the left neighbour's style, with the next sequence number |
| Prediction.InputPredictor.AcceptBackspace | internal/client/prediction.go:374-405 | Predicted exactly at a blank cell with a character before it; then that cell becomes blank |
| Prediction.TypeThenErase | internal/client/prediction.go:331-405 | A character typed where text may grow can be erased again, and then every cell reads as before |
| Prediction.InputPredictor.AcceptByte | internal/client/prediction.go:300-317 | One byte is one step of the fold: an insertion, an erasure, ignored, or a boundary, as cursor, cells and flags say, with cursor and flags after it; at most one scope lives, a closed one awaits the cursor, sequence numbers rise |
| Prediction.InputPredictor.Append | internal/client/prediction.go:346-370 | The operation joins the open scope or opens one, moves the cursor, has a larger sequence number, and leaves the scope's trust unchanged |
| Prediction.InputPredictor.Boundary | internal/client/prediction.go:521-533 | What cannot be predicted closes the scope; an untrusted one disappears, and what is visible stays |
| Prediction.NothingAfterBoundary | internal/client/prediction.go:300-317 | After a boundary no further byte is predicted, whatever is typed; what was trusted stays pending, an untrusted scope is gone |
| Prediction.TrustEnds | internal/client/prediction.go:592-619 | Once the last of what was pending at a boundary is confirmed or dropped, typing starts afresh at the cursor shown, and has to be echoed before it is shown |
| Prediction.InputPredictor.Confirm | internal/client/prediction.go:440-467 | Pending loses the matched prefix and is shown if trust was earned |
| Prediction.InputPredictor.Reset | internal/client/prediction.go:514-519 | The repair spans put back the cache under every visible prediction |
| Prediction.InputPredictor.ComposedCell | internal/client/prediction.go:553-570 | The cell typed on is the overlay of all pending operations |
| Prediction.MatchingPrefix | internal/client/prediction.go:474-502 | The longest prefix the frame confirms, and whether it earns trust |
| Prediction.CheckEffects | internal/client/prediction.go:474-502 | Every predicted character was touched and is there now; credit needs one that was not there before |
| Prediction.PredictionSpans | internal/client/prediction.go:693-709 | The coalesced spans write exactly the operations, in order |
| Prediction.RepairSpans | internal/client/prediction.go:669-691 | Every position of the operations is written once more with the authoritative cell, and nothing else is |
| Prediction.RepairRemoved | internal/client/prediction.go:655-667 | What is no longer predicted is put back |
| Prediction.ConfirmedTextStays | internal/client/prediction.go:474-502 | A confirming frame changes no character shown at a predicted position |
| Prediction.RepaintOverlay | internal/client/prediction.go:504-512 | Repairs and a repaint of what remains turn one overlay into the other |
| Prediction.FrameOverlay | internal/client/client.go:1912-1998 | The same while the frame itself is written over the old overlay |
| Activation.Confluence | internal/client/client.go:1661-1777 | Two interleavings of one stream of layouts of a revision, with any focus, and the same frames per slot end in the same layout, views and pending layouts; once activated, in the same state, with the last layout message as the layout |
| Activation.MessageReach | internal/client/client.go:1661-1725 | A message for an older revision changes nothing, one for the active revision changes focus or the one slot's view and nothing pending, and one for a later revision changes what is shown only by activating that revision |
| Activation.ReachedBy | internal/client/client.go:1727-1777 | Whatever the order, the layout is shown exactly once every bound slot has a fitting frame, with the focus of the last layout message, and each slot then shows all its fitting frames in order |
| Activation.KeptStep | internal/client/client.go:1727-1777 | Trying to activate with everything stored either waits or shows all of it |
| Activation.HandleKeeps | internal/client/client.go:1661-1725 | The active revision never decreases and nothing at or below it stays pending |
| Activation.RunKeeps | internal/client/client.go:1661-1725 | In every run |
| Activation.ScanoutState.TryActivateNow | internal/client/client.go:1727-1777 | The maps updated in place become the specified outcome |
| Activation.ScanoutState.ActivatedViews | internal/client/client.go:1748-1765 | Every slot of the new layout gets its fitting frames, fresh from its view |
| Activation.ScanoutState.EmitFitting | internal/client/client.go:1756-1765 | Frames of another size are passed over, the others emitted in order |
| Activation.ScanoutState.AcceptLayoutMessage | internal/client/client.go:1661-1685 | A layout is stale, replaces the active one of its revision, or is kept and tried |
| Activation.ScanoutState.AcceptFrameMessage | internal/client/client.go:1699-1725 | A frame is stale, emitted, dropped, or kept and tried |
| InputDecoders.FeedAll | internal/client/prediction.go:42-146 | On every chunked stream with lone-escape flushes, parser, prediction decoder and prompt decoder are in the same state after each chunk and leave a paste on the same byte |
| InputDecoders.SplitLossless | internal/server/frontend_input.go:140-234 | A stream without broken-off sequences is its tokens and what is underway, byte for byte |
| InputDecoders.EventsCarryAll | internal/server/frontend_input.go:140-234 | Where the server knows every sequence of it, its events carry every byte, escapes and paste markers included |
| InputDecoders.ControlSequence | internal/server/frontend_input.go:191-222 | What follows an escape and a bracket is one control sequence up to the first byte from @ to ~ |
| InputDecoders.PlainTyping | internal/client/prediction.go:42-124 | Plain bytes are predicted as typed and are keys to the server, one each |
| InputDecoders.PredictsKeys | internal/client/prediction.go:42-124 | On every stream the bytes predicted are, in order, exactly the plain and predictable keys the server receives, if what is predictable is a key to the server |
| InputDecoders.EndsAreBoundaries | internal/client/prediction.go:42-124 | However far a stream is read, the predictor has met at least one boundary for each paste and each key the server received that is neither typing nor neutral |
| InputDecoders.PromptSeesServer | internal/client/prompt.go:219-330 | On every stream the prompt's events are the server's, restricted to the keys and texts it takes, if its keys are keys to the server |
| InputDecoders.SplitChunks | internal/server/frontend_input.go:140-234 | Where a stream is cut into chunks does not matter |
| InputDecoders.PasteDelivered | internal/server/frontend_input.go:151-164 | A bracketed paste ends at its marker and is delivered whole |
| InputDecoders.FrontendInputParser.Feed | internal/server/frontend_input.go:140-253 | The parser's events are those of the common splitter, with a paste over its limit reported as discarded |
| InputDecoders.FrontendInputParser.FlushLoneEscape | internal/server/frontend_input.go:255-266 | An escape alone becomes a key |
| InputDecoders.PredictionInputDecoder.Feed | internal/client/prediction.go:42-138 | The predictable bytes are those of the common splitter, although only six bytes of a paste are kept |
| InputDecoders.PredictionInputDecoder.FlushLoneEscape | internal/client/prediction.go:140-146 | The same flush |
| InputDecoders.PromptInputDecoder.Feed | internal/client/prompt.go:219-330 | The prompt's events are those of the common splitter, with a truncated paste still ended at the same byte |
| TileLayout.SaveAndLoad | internal/server/session_persistence.go:1432-1540 | The tiles of a valid layout, in any pane order, load exactly when its grid minimum fits, and then give every pane the same tile |
| TileLayout.LayoutFromTiles | internal/server/session_persistence.go:2122-2139 | For positive tiles, as the tile parser grants: a layout is found exactly when one with these tiles exists |
| TileLayout.SplitTileLayout | internal/server/session_persistence.go:2141-2206 | The backtracking search finds a layout or there is none |
| TileLayout.SearchAxis | internal/server/session_persistence.go:2148-2203 | Trying the tile edges of one axis misses no cut |
| TileLayout.TryCut | internal/server/session_persistence.go:2155-2200 | A failed cut is the root of no layout with these tiles |
| TileLayout.AnyCutWorks | internal/server/session_persistence.go:2141-2206 | If a layout has these tiles, then any line that crosses none of them splits it into two layouts |
| TileLayout.NoBacktracking | internal/server/session_persistence.go:2141-2206 | So the first valid cut always succeeds: the search never has to undo one |
| TileLayout.Divide | internal/server/session_persistence.go:2164-2181 | The panes on either side of a cut, or one that crosses it |
| TileLayout.LayoutTiles | internal/server/session_persistence.go:1512-1540 | The recursive walk fills the map with every pane's tile |
| TileLayout.PositiveIffFits | internal/server/session_persistence.go:1542-1563 | All tiles are positive exactly when the layout's grid minimum fits |
| TileLayout.TilesPartition | internal/server/session_persistence.go:1512-1551 | Tiles of a layout that fits lie inside, do not overlap, and have the whole area |
| TileLayout.SameTiles | internal/server/session_persistence.go:1496-1540 | Layouts that place the same panes in any order have the same tile map |
| TileLayout.SaveFixpoint | internal/server/session_persistence.go:911-925 | Ratios rounded to thousandths through restore and plan move no tile edge of a layout found from tiles, in any area under 1000 cells a side |
| TileLayout.RestorePlanned | internal/server/session_persistence.go:325-358 | A live tree comes back from its plan, except for ratios out of range |
| TileLayout.PlanFollowsTree | internal/server/session_persistence.go:325-358 | A saved live tree is laid out as it was split: panes of a first part lie left of those of the second at a vertical split, above them at a horizontal one, and the panes keep their order |
| TileLayout.NearestCut | internal/server/session_persistence.go:1542-1551 | Each split cuts its area where no other place that fits both parts is nearer to its ratio |
| TileLayout.ValidatePlanLayout | internal/server/session_persistence.go:879-909 | Accepted exactly when pane ids are distinct and ratios lie in range, with the ids in order |
| WindowGroups.RunKeepsGraph | internal/server/grouped_sessions.go:252-498 | After every sequence of joins, creations, splits, focus changes, zooms, swaps and removals: pane ids are distinct in each layout, layouts partition the group's panes, every member mirrors the group, and focused and zoomed panes lie in their window's layout |
| WindowGroups.EventKeeps | internal/server/grouped_sessions.go:252-498 | Each single event keeps this |
| WindowGroups.Group.CreateWindow | internal/server/grouped_sessions.go:423-455 | The new window is linked into every member |
| WindowGroups.Group.SplitFocusedPane | internal/server/session.go:387-420 | The new pane stands right after the focused one with an even split of the asked direction between them, all else in its place, joins every member, up to the limit of visible panes, and takes this session's focus; removing it again would give the layout and the focus back |
| WindowGroups.Group.RemovePane | internal/server/grouped_sessions.go:339-385 | The pane leaves layout, maps and every member's view; the last pane takes the window with it |
| WindowGroups.RemovalViews | internal/server/grouped_sessions.go:339-385 | In every member the focus stays unless it was on the removed pane, and goes back to the pane focused last if that is there; a zoom stays unless it was on that pane or one pane is left |
| WindowGroups.OtherViews | internal/server/grouped_sessions.go:339-385 | Every other window, and what a member sees of it, is left alone |
| WindowGroups.Group.RemoveWindow | internal/server/grouped_sessions.go:252-283 | The window and exactly its panes are gone everywhere |
| WindowGroups.Group.FocusPaneIn | internal/server/session.go:266-292 | Focus changes in the session's own view, a zoom on another pane ends, and only outside a group the window's active pane changes too |
| WindowGroups.Group.ToggleZoom | internal/server/session.go:294-325 | The focused pane is zoomed or the zoom ends; a window of one pane is refused |
| WindowGroups.Group.SwapFocusedPane | internal/server/session.go:422-459 | The zoom ends in any case; the focused pane changes places with its neighbour in the order of placement |
| WindowGroups.Group.AddSession | internal/server/grouped_sessions.go:116-134 | A new member has every window and pane of the group and starts on each window's active pane |
| WindowGroups.FocusPane | internal/server/grouped_sessions.go:35-57 | The fixed history array is compacted in place: distinct panes, most recent last, never the focused one |
| WindowGroups.RemovePaneFromView | internal/server/grouped_sessions.go:59-86 | Focus falls back to the pane focused last that is still in the layout |
| WindowGroups.FocusReturns | internal/server/grouped_sessions.go:35-86 | When a newly focused pane goes again, the focus is back where it was and the history is what it was, but for the oldest of eight |
| WindowGroups.SplitAdds | internal/server/window_model.go:3-21 | Splitting adds the one pane exactly when the target is there |
| WindowGroups.SplitInPlace | internal/server/window_model.go:3-21 | The created pane comes right after the split one, with an even cut of the asked direction there, and every other pane and cut keeps its place |
| WindowGroups.RemovalTakes | internal/server/window_model.go:48-71 | Removing takes out the one pane and focuses one that is left |
| WindowGroups.RemovalInPlace | internal/server/window_model.go:48-71 | The panes left keep their order, and every cut but one beside the removed pane its place, direction and ratio |
| WindowGroups.RemovalFocuses | internal/server/window_model.go:48-71 | The focus goes to the first pane of the other side of the split that goes with the pane |
| WindowGroups.SplitThenRemove | internal/server/window_model.go:3-71 | Closing the pane just split off gives the tree back and focuses its neighbour |
| WindowGroups.SwapTwice | internal/server/window_model.go:23-31 | A swap is refused exactly when a pane is missing or both are one; otherwise the two leaves exchange panes, the panes stay the same and distinct, and a second swap undoes it |
| WindowGroups.SwapNeighbours | internal/server/session.go:445-447 | The next pane in order, the first after the last, is the target, or the previous one the other way; previous undoes next |
| WindowLeases.OneLeaseEach | internal/server/daemon.go:831-838 | No client holds two leases, and an attached client's lease is on its session's active window |
| WindowLeases.MoveKeeps | internal/server/grouped_sessions.go:715-736 | Moving a client's lease to the window its session makes active keeps both |
| WindowLeases.ViewLeases.WindowForClient | internal/server/daemon.go:831-838 | The one window the client views, or none |
| WindowLeases.ViewLeases.SelectWindow | internal/server/grouped_sessions.go:652-736 | Accepted exactly when the session's connected client holds a lease, the window is the session's, fits, and nobody else views it; then lease and active window move together and the window left becomes the previous one, otherwise nothing changes |
| WindowLeases.ViewLeases.CreateWindow | internal/server/session.go:160-202 | The created window is linked into every member at the place of its display index, and becomes active with its lease in the creating session only |
| WindowLeases.ViewLeases.Attach | internal/server/client_instance.go:1221-1234 | Accepted exactly when no other client is recorded, the geometry fits and nobody else views the active window, or the first one when none is active; every lease is on an active window afterwards exactly when the attach was refused or there was an active window |
| WindowLeases.ViewLeases.Viewing | internal/server/daemon.go:849-897 | The view an attach takes is on the session's active window if and only if there is one, and nobody else loses a view |
| WindowLeases.SecondLease | internal/server/daemon.go:856-892 | From a session without an active window, an attach, a window created before the one it leased, and the repair after a removal leave one client with two leases |
| WindowLeases.ViewLeases.SwitchSession | internal/server/client_instance.go:1285-1404 | When a switch is accepted and whom it displaces, exactly; the lease moves to the target session's window, and every attached client still views its active window exactly when the switch does not take another session's lease |
| WindowLeases.ViewLeases.SwitchViews | internal/server/client_instance.go:1293-1398 | The same condition on the lease map: exact in both directions |
| WindowLeases.RobberyPossible | internal/server/client_instance.go:1293-1398 | A concrete state in which the switch does take a third client's lease |
| WindowLeases.ActiveTargetNotRobbed | internal/server/client_instance.go:1293-1398 | A target with an attached client and an active window is never such a state |
| WindowLeases.ViewLeases.RepairMember | internal/server/grouped_sessions.go:272-335 | A member whose active window went away gets the fallback window with its lease; others are untouched |
| WindowLeases.ViewLeases.Fallback | internal/server/grouped_sessions.go:289-318 | The previous window if it is left and free for the client, else the first free one in display order, else none |
| WindowLeases.ViewLeases.RemoveWindow | internal/server/grouped_sessions.go:252-337 | With any number of members competing for one fallback: each member's active and previous window and window order are given, the fallback being its previous window if free, else its first free one; leases stay sound, complete, and untouched for other windows |
| WindowLeases.ViewLeases.RepairedMember | internal/server/grouped_sessions.go:272-335 | What the repair of one member gave holds with the leases all repairs leave |
| Delivery.DeliveredInOrder | internal/server/client_instance.go:561-616 | In every interleaving of producers' completions, commands are delivered in reservation order, each the one its reservation was finished with; until a fence or stop every reservation is delivered or being handed over, was skipped, or is outstanding |
| Delivery.LosesNothing | internal/server/client_instance.go:561-616 | No step loses a reservation before a fence |
| Delivery.SaturatesFull | internal/server/client_instance.go:489-512 | In every run a reservation on a mailbox neither fenced nor stopped, with fewer than 63 commands queued, takes a token and is queued last |
| Delivery.TokensConserved | internal/server/client_instance.go:427-434 | Until a fence, each of the 64 tokens is either available or belongs to exactly one outstanding reservation |
| Delivery.StepKeeps | internal/server/client_instance.go:489-537 | Each step of a producer or the worker keeps order, token split and the private completion channels |
| Delivery.SplitKeeps | internal/server/client_instance.go:105-117 | In particular the token split, with a fence set apart |
| Delivery.RunKeeps | internal/server/client_instance.go:561-616 | In every state of every run |
| BufferCirculation.StepPlaces | internal/server/output_lease.go:576-641 | No step of pane, lease or worker makes, loses or copies a buffer, also on a lease attached again or lent to another pane in between |
| BufferCirculation.StepKeeps | internal/server/output_lease.go:691-713 | So each is in exactly one place |
| BufferCirculation.RunConserves | internal/server/pane_render_state.go:347-357 | In every state of every run |
| BufferCirculation.ReleaseNeverBlocks | internal/server/pane_render_state.go:122-130 | Whoever holds a buffer finds room to release it |
| BufferCirculation.AllReturn | internal/server/pane_render_state.go:411-429 | After a detach and the workers' exit, both buffers are free again |
| PtyPacing.AdmissionsSpread | internal/server/pane_runtime.go:54-88 | In every run, n admissions in a row span at least n - 2 intervals: a bypass is paid for by a gap of two |
| PtyPacing.BypassReturns | internal/server/pane_runtime.go:65-88 | In every run an immediate grant after an admission gives credit exactly if the bypass was not in use before it, or two intervals lie between it and the admission before |
| PtyPacing.FirstBypass | internal/server/pane_runtime.go:65-88 | After the first admission an immediate grant gives credit |
| PtyPacing.CreditComes | internal/server/pane_runtime.go:79-88 | Credit comes from the timer or from an unused bypass, and from nothing else |
| PtyPacing.PacedStep | internal/server/pane_runtime.go:624-628 | The amortised bound is kept by admission, timer and immediate grant |
| PtyPacing.BypassIsImmediate | internal/server/pane_runtime.go:83-88 | Two admissions can share one instant, so the bound cannot be n - 1 |
| PtyPacing.BytesBounded | internal/server/pane_runtime.go:494-502 | The bytes read by n admissions are at most n times the byte budget, as the contract of the drain each admission starts says |
| PtyPacing.DrainOpportunity | internal/server/pane_runtime.go:242-328 | One opportunity takes all that is offered up to the byte budget, reads at least once before the time budget counts, and stops only for the reason given |
| WireCodec.StreamRoundTrip | internal/protocol/display_codec.go:62-89 | Decoding an encoded sequence of commands gives it back, unused fields and the empty colour mode normalised, and consumes exactly its bytes |
| WireCodec.CommandRoundTrip | internal/protocol/display_codec.go:247-373 | The same for one command with anything after it |
| WireCodec.WireExamples | internal/protocol/display_codec.go:62-236 | Commands as they stand on the wire, byte for byte: barrier, position, style, fill, cursor and scrolls |
| WireCodec.TextExamples | internal/protocol/display_codec.go:62-236 | The same for the four text commands |
| WireCodec.StyleExamples | internal/protocol/render_codec.go:10-65 | The same for styles, flags and colours |
| WireCodec.FillShorter | internal/server/output_lease.go:206-250 | The server's estimate calls a fill smaller exactly when the encoded fill, with the style selection it needs, has fewer bytes than the encoded text |
| WireCodec.UvarintRoundTrip | internal/protocol/display_codec.go:215-223 | A 64-bit value comes back from its seven-bit groups |
| WireCodec.UvarintDigits | internal/protocol/display_codec.go:215-223 | The bytes are the value's digits to base 128, least first, all but the last marked, with no digit too many |
| WireCodec.ZigZagRoundTrip | internal/protocol/display_codec.go:408-418 | Zig-zag coding is a bijection of integers and naturals |
| WireCodec.FlagsRead | internal/protocol/render_codec.go:37-65 | Each attribute is read back from its bit |
| WireCodec.ColorRoundTrip | internal/protocol/display_codec.go:478-503 | A colour comes back, an empty mode as the default one |
| WireCodec.StyleRoundTrip | internal/protocol/display_codec.go:462-476 | A style comes back |
| WireCodec.HeaderRoundTrip | internal/protocol/render_frame.go:64-106 | A valid header comes back from its bytes |
| WireCodec.HeaderCanonical | internal/protocol/render_frame.go:78-134 | Whatever header is read, encoding it again gives the exact bytes read |
| WireCodec.CanonicalBytes | internal/protocol/render_frame.go:115-134 | The canonical reader takes only the shortest encoding |
| WireCodec.CanonicalRoundTrip | internal/protocol/render_frame.go:115-134 | And it takes that one for every value |
| WireCodec.AppendHeader | internal/protocol/render_frame.go:39-76 | An invalid header is refused and appends nothing |
| WireCodec.AppendUvarint | internal/protocol/display_codec.go:215-223 | The loop appends the value's seven-bit groups |
| WireCodec.DisplayEncoder.AppendCommand | internal/protocol/display_codec.go:62-236 | The buffer grows by the command's bytes, or is left alone when the command is refused |
| WireCodec.DisplayEncoder.AppendAll | internal/server/output_lease.go:46-53 | Appended one by one, commands become the encoded sequence, up to the first refused one |
| WireCodec.DisplayDecoder.ReadNext | internal/protocol/display_codec.go:247-373 | The reader consumes exactly one command as specified |
| WireCodec.DisplayDecoder.ReadAll | internal/client/client.go:826-845 | Read one by one to the end of the frame, bytes become the decoded sequence, or nothing |
| WireCodec.DisplayDecoder.ReadUnsigned | internal/protocol/display_codec.go:390-406 | The shift loop reads what the recursive reader does, overflow included |
| WireCodec.DisplayDecoder.ReadStyleValue | internal/protocol/display_codec.go:462-476 | Flags and both colours, or a refusal |
| WireCodec.DisplayDecoder.ReadString | internal/protocol/display_codec.go:431-449 | A length within bounds and that many bytes of valid text |

## Where a property needs a condition

- Blanks (`Display.EquivalentLooks`): the program's own test takes the default foreground and the default background for one colour, so a blank in the default style and one in its reverse are equivalent although they look different (`Display.ReversedDefaultMixed`, bridged in `FrameCompiler.FrameCompiler.ReversedBlankBridged`). A shown cell looks like the terminal's exactly when it is not such a blank (`Painting.ShownLooks`, `RenderRuns.ClientLooksLikeTerminal`), and `Display.MixedStyles` says which styles those are.
- Switching sessions (`WindowLeases.ViewLeases.SwitchSession`): every attached client still views its active window exactly when `Robs` does not hold, that is, unless the target session has no active window yet and its first window is viewed by a client of a third session. `WindowLeases.RobberyPossible` is such a state. A switch never gives a client two leases.
- Attaching (`WindowLeases.ViewLeases.Attach`): the client's lease is on its session's active window exactly when the session has one; the fallback leases the first window and never makes it active, so an accepted attach to a session without an active window always ends outside the lease invariant. `WindowLeases.SecondLease` goes on from there to a client with two leases. From any state inside the invariant, selecting, creating, attaching to a session with an active window, switching and removing windows stay inside it.
- Compiling (`FrameCompiler.PaneConfirmer.Compile`): a publication that continues its stream compiles when it is compilable as `FrameCompiler.Compilable` says.
- Pacing: the bound is n - 2 intervals, not n - 1 (`PtyPacing.BypassIsImmediate`).
- Tiles: a layout whose grid minimum does not fit gets a tile without area (`TileLayout.PositiveIffFits`), and such a plan is not loaded (`TileLayout.SaveAndLoad`).
- A saved live tree comes back unchanged only with ratios strictly between 0 and 1000 (`TileLayout.RestorePlanned` says what becomes of the others).

## Left out

- History view, selection and the history counter painted into row 0 (the counter may cut a double-width cell); only that entering or leaving history invalidates the epoch is used.
- Changes of a terminal's size while a pane is attached; an attach sizes the damage instead.
- QUIC, TLS, sockets, files, signals, UTF-8 decoding, and the zlib branch of render frames.
- ANSI output, SGR codes, borders, the status line and the cursor of another pane.
- The terminal emulator, layout computation in cells, preset layouts and row stores: a terminal is its grid and cursor.
- Wrap-around of 64-bit counters: versions, epochs, revisions and reservation numbers are unbounded.
- Metrics, logging and sync waiters.
- Snapshot cells are kept as rows, not as one flat slice; row slices are values, so their aliasing is not captured.
- Layout trees are values: writing a node in place, and a split left behind when adding the pane fails afterwards, are not captured.
- The zoom flag of a window outside any group (its active pane is modelled), layout revisions and lease generations.
- Display.EquivalentLooks: bold, dim, blink and the like are taken not to change a ground colour, and a colour is what its mode uses of it.
- Prediction.PredictedPane.AcceptLocalInput: the reset of the predictor when the focus moves to another pane is not joined to Activation.
- Prediction.PredictedPane.EmitFrame: cells of width 1 only, as repair paints single cells, and frames that fit the pane, as RenderPipeline.SlotFrameAccepted shows decoded ones do.
- InputDecoders.FeedAll: which sequences are keys, mouse reports or predictable is a parameter; the decoders of single sequences are not modelled.
- WireCodec.StreamRoundTrip: text is bytes with UTF-8 validity as a parameter; the other modules carry text as runes.
- TileLayout.SaveFixpoint: ratios are reals, so floating-point rounding is not modelled.
- TileLayout.ValidatePlanLayout: malformed plan nodes (a leaf that also has children, or the wrong number of them) do not exist as values here.
- Activation.Confluence: slots of a layout are distinct, which the server checks before it sends one.
- WindowLeases.ViewLeases.SwitchSession: a client's detach, which clears its session in one daemon turn and releases its lease in a later one, is not modelled.
- BufferCirculation.AllReturn: the worker's final drain and close are one step.
- Delivery.TokensConserved: each reservation is finished at most once; reservations abandoned on error paths and liveness are not modelled.
- PtyPacing.AdmissionsSpread: the clock and the timer are events whose times never go back.
- FrameCompiler.PaneConfirmer.Compile: compilable is a sufficient condition; a style used only by bridged blanks needs no room.
- RenderPipeline.SlotView.EmitFrame: text commands have one or two columns, as the decoder grants; decoding and emitting are one step.
- Activation.ScanoutState.TryActivateNow: emission cannot fail here; RenderPipeline.SlotFrameAccepted shows that a decoded frame of the slot's size is never refused.
