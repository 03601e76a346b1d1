# A verified model of the SCShell terminal core

SCShell embeds a Windows pseudo-console shell in a host program. A Rust library
(`rata_shell`) owns the session: it reads the child's output, feeds a terminal
emulator, turns the emulator's grid into frames, encodes keys, and reports the
child's exit. A Delphi control (`delphi`) receives the frames on its window thread
and paints them. This project models the parts of both that are theirs, and not
the emulator's or the operating system's, and proves what they promise.

All modules are checked together with `dafny verify dfyconfig.toml`.

**The session.** `SessionModel` is one started session as a transition system: any
number of host threads, the reader, the pump, the watcher and the writer, one
program counter each, with a stack of nested calls because every callback may call
the session again. One step is one atomic access to shared state. The theorems are
about every reachable state of every interleaving: `SessionChannel` (the bounded
channel, the coalescing pump, how shutdown ends), `SessionDelivery` and `SessionInput`
(terminal events, writer payloads, and that all the world hands over arrives),
`SessionFrames` (frames offered by the pump and asked for by the host), `SessionExit`
(the exit notice), `SessionTeardown` (silence after Drop, the callback table), `SessionLiveness` and `SessionNotice` (runs without end
in which a thread is not forgotten: the pump ends, the exit is announced), `SessionHang`,
`SessionReturn` and `SessionConsole` (when exactly Drop can still return),
`SessionShutdown` and `SessionEveryRun` (what every run comes to, and when exactly Drop
returns in each of them), `SessionRestart` (when exactly a second `start` can return).
`IoThreads` has the reader, writer and pump loops themselves, proved against the same
specifications.
`LockOrder` runs the locking of every operation on any number of threads, `Restart`
starts one session again and again, `EventSink` is the emulator's event queue.

**Frames.** `Backend` diffs and coalesces; a host that replays only the dirty
rectangles is the reference. `Painter` batches cells into drawing calls;
`PaintedImage` gives the calls a meaning as pixels and compares them with painting
each cell alone. `RenderMailbox` packs an event into one buffer and reads it back;
`FrameDelivery` lets any number of threads deliver through the mailbox and compares
the final picture with drawing every frame.

**Text and numbers.** `Osc7` is the working-directory scanner and decoder, over the
lossy UTF-8 of `Utf8`. `Keymap` encodes keys and reads the navigation keys back,
`KeyStreams` says which presses and which streams of any keys can be told apart. `EnvBlock` builds
UTF-16 environment blocks and reads them back. `Viewport` maps between viewport rows
and grid lines for scrolling, search, selection, cursor and snapshots. `Scrollbar`
is the rounded thumb arithmetic in both directions.

The source's `TermHost` appears here in the parts that the modules are about:
`Osc7.CwdTracker`, `EventSink.TitleTracker` and `Viewport.TermViewport`; its control
`TSCRataShell` as `RenderMailbox.FrameMailbox` and `Scrollbar.ThumbControl`.

Where the code does not do what one would like, the model keeps the code's
behaviour and states exactly when it does:

- Drop can hang, on the pump's thread and on any other. If the pipe may end by itself,
  it can still return if and only if what the pump will leave in the channel leaves room
  for the reader's last messages (`SessionReturn.DropReturnsIff`). Before the call that
  is so on every thread but the pump's, and there if the channel has room now
  (`DestroyReturnsIff`). States without room are reachable, from inside
  a callback (`SessionHang.DropCanHang`) and from a host thread
  (`SessionHang.HostDropCanHang`).
- The pipe need not end by itself: the reader meets its end for certain only when the
  session, the pump and the watcher have all let go of the pseudo-console. Without more,
  Drop can return if and only if there is that room and, besides, the reader has met the
  end already, or Drop is on a host thread and an Eof ends the pump
  (`SessionConsole.DropReturnsUnaidedIff`); before the call, if and only if it is on a
  host thread or the reader has met the end and, on the pump's thread, has a place for
  its Eof (`DestroyReturnsUnaidedIff`). So a destroy inside on_exit, called by the
  watcher, waits for a console that its own thread keeps open
  (`SessionConsole.WatcherDropNeedsHelp`), and one on a host thread whose try_send finds
  the channel full waits for a pump that nothing wakes
  (`SessionConsole.FullChannelNeedsHelp`).
- That Drop returns whatever the scheduler and the child do takes more. Past its first
  step it does so if and only if the reader is done, or has met the end and has a place
  for its Eof that neither the pump's leaving nor the synthetic Eof can take away
  (`SessionEveryRun.DropAlwaysReturnsIff`, and `DestroyAlwaysReturnsIff` before the
  call); otherwise the child's output can fill the channel. What does happen in every run
  after a successful try_send is that the pump ends
  (`SessionShutdown.DropEndsThePump`).
- A second `start` joins the reader of the first and sends no synthetic Eof: it can
  return without the pipe's help if and only if that reader has met the end of its pipe
  already (`SessionRestart.RestartReturnsIff`), and then nothing can spoil it
  (`RestartStaysPossible`). After an exit that only the watcher noticed a
  host thread can destroy the session but not start it again
  (`SessionRestart.RestartHangsWhereDestroyReturns`).
- The announced exit code is the child's if and only if the announcer is not a pump
  that asked before the child was signalled, or the code is 0
  (`SessionExit.AnnouncedCodeIff`); `SessionExit.EarlyEofAnnouncesZero` is a run in
  which it is not.
- After a restart, threads of an older start can use up the new start's claim. The
  claim of the new start is its own if and only if no older start, announced or not,
  still has a thread that can reach the swap (`Restart.RelaunchOwnClaimIff`); if every
  start of a run finds it so, the i-th announcement is the i-th start's
  (`Restart.EveryStartAnnouncedOnce`). That no start is announced twice takes less: that
  no start already announced has such a thread (`Restart.RelaunchSafeIff`). Otherwise a
  start can be announced twice (`Restart.AttributionFails`) or not at all
  (`Restart.UnannouncedStart`, after two calls of `start` that pass the test together).
- An OSC 7 sequence right after a stray `ESC ]` is missed
  (`Osc7.StrayOpeningHidesFrame`); `Osc7.FrameRecognisedIff` is the exact condition.
- Cells that differ in their hyperlink only are not reported as dirty
  (`Backend.HyperlinkGoesStale`). A host that replays dirty rectangles holds every row as it
  was when it was last reported, so after any run its copy is exactly the current frame
  if and only if no row has changed since then (`Backend.ReplayAllExactIff`;
  `Backend.ReplayExactIff` for one snapshot).
- A window that changes its size blanks the back buffer until the next frame is drawn;
  with nothing under way, the picture is current if and only if that has not happened
  (`FrameDelivery.QuiescentPictureIff`).
- A width-0 cell in the wrong place shifts the glyphs after it
  (`PaintedImage.StrayTrailerShifts`); `PaintedImage.GlyphsInPlaceIff` is the exact
  condition for any row.
- Grabbing the thumb without moving it can move the view: it never does if and only
  if there is a pixel of travel for every line (`Scrollbar.RegrabIdentityIff`).
- Steady block and steady underline cursors are painted in each other's shape
  (`Viewport.ShapePaintedIff`): the style codes written by term.rs and read by
  SCShell.Painter.pas are numbered differently.
- A character above U+FFFF is drawn as the character of its lower 16 bits
  (`Painter.GlyphDrawnIff`).
- Ctrl+I sends what Tab sends, Ctrl+M what Return sends, and keys without modifier
  parameters ignore most modifiers: `KeyStreams.SameBytesIff` says exactly which presses
  send the same bytes. A set of keys can be told apart in a stream if and only if it
  lacks Escape, or Back, or Alt+Back (`KeyStreams.DecodableIff`).

## Where the steps come from

The transition systems are functions without a contract of their own; this is what
each of them follows.

- `SessionModel.PumpDo`: rata_shell/src/session.rs:157-286. `Lookup`, `SkipCall`,
  `CallBegins` and `CallEnds` are the clone-then-call pattern of session.rs:203-224,
  250-253, 277-283 and 316-319.
- `SessionModel.WatcherDo`: session.rs:305-333, with `try_exit_code` of
  rata_shell/src/pty/conpty.rs:246-262.
- `SessionModel.ReaderSend`, `WriterRecv`, `WriterWrite`: rata_shell/src/io.rs:42-82.
- `SessionModel.DropDo`: session.rs:516-566, with the two Drops of io.rs:90-105.
- `SessionModel.ConsoleClosed`: the clones of session.rs:146-147, the slot of
  session.rs:290 and 539, and the Drop of conpty.rs:271-274, by which alone ReadFile is
  sure to meet the end (conpty.rs:37-38, session.rs:293-295).
- `SessionRestart.Next`: session.rs:107-109, 152, 290 and 338-339, with the Drops of
  io.rs:90-105.
- `SessionModel.Do`, host calls: session.rs:93-104, 344-387 and 404-509.
- `LockOrder.ScriptOf`: the lock scopes of session.rs:93-104, 157-286, 344-509 and
  516-566; the guard of `backend` in session.rs:379-382 is a temporary of the block's
  last expression, so it outlives the guard of `term`.
- `Restart.Do`: session.rs:106-109, 152, 273-283, 305-333.
- `Backend.DirtyOf`: rata_shell/src/render/backend.rs:46-70.
- `Painter.ResolveColor`, `StyleOf`, `GlyphOf`, `Take`:
  delphi/src/SCShell.Painter.pas:194-206 and 287-336.
- `FrameDelivery.Do`: delphi/src/SCShell.Ctrl.pas:261-271, 455-466 and 787-882; `Draw` adds the
  new back buffer of SCShell.Painter.pas:172-186 and 272-277.
- `Osc7.Step`, `Osc7.CwdOf`: rata_shell/src/term.rs:139-188.
- `Keymap.Encode`: rata_shell/src/keymap.rs:26-106.
- `Viewport.Search`, `Viewport.CursorOf`: term.rs:289-377 and 493-521.
- `Scrollbar.ThumbOf`, `DragOffset`, `ClickAt`: SCShell.Ctrl.pas:1765-1789, 1911-1924
  and 576-600.

## Model

| member | source | states |
|---|---|---|
| SessionChannel.NothingLostOrReordered | rata_shell/src/session.rs:157-286 | in every reachable state, bytes applied, the buffer in the pump's hand and the channel add up, in order, to what was enqueued; the channel never exceeds 64; a finished pump has given the terminal exactly what a pump taking one message per round would, and has missed no Eof |
| SessionChannel.ReceivesBounded | rata_shell/src/session.rs:157-196 | once an Eof is in the channel, the number of further receives is at most the number of messages up to it, however the run goes on |
| SessionChannel.SyntheticEofEndsThePump | rata_shell/src/session.rs:533-536 | after Drop's try_send succeeded the pump receives at most 64 more messages, whatever the reader keeps sending |
| SessionChannel.PumpReachesTheEnd | rata_shell/src/session.rs:157-286 | with an Eof pending every move of the pump decreases a lexicographic measure and no other thread increases it |
| SessionChannel.PumpIsNotStuck | rata_shell/src/session.rs:157-286 | with an Eof pending and no nested host call on its thread, an unfinished pump always has an enabled move |
| SessionDelivery.EventsActedOnOnce | rata_shell/src/session.rs:196-238 | effects carried out, owed and queued add up in order to all events ever queued; back at the channel, the pump has acted on everything its own advance queued, exactly once |
| SessionDelivery.PayloadsWrittenOnce | rata_shell/src/io.rs:74-105 | written payloads are the sent ones in order, up to the first empty buffer; without an empty reply only Drop stops the writer, and a returned Drop means that the writer has stopped |
| SessionInput.EverythingIsSent | rata_shell/src/session.rs:234-362 | in every run, up to the writer's end, what was sent to it is an interleaving of the non-empty payloads of the run's host calls and the replies the pump carried out, each in order and none missing, with Drop's sentinel among the latter once it is sent |
| SessionInput.EverythingReadArrives | rata_shell/src/io.rs:42-57 | in every run, what was put into the channel is what the run's reads gave, in order, but for the message in the reader's hand, and at most one synthetic Eof |
| SessionInput.EverythingEmittedIsQueued | rata_shell/src/session.rs:167-199 | in every run, the history of the event queue grows by exactly what the emulator emitted when the pump advanced it or the host worked on it |
| SessionInput.ExitIsTheRuns | rata_shell/src/pty/conpty.rs:246-262 | the child's exit code is the one with which the run lets it exit |
| SessionFrames.LastFrameShowsAll | rata_shell/src/session.rs:240-271 | in every run: when the pump is back at the channel, the last frame it offered shows exactly what the terminal was given; a pump that has ended has offered the frame of the exit path, which shows everything; no frame shows more than was given |
| SessionFrames.AskedFramesAreOffered | rata_shell/src/session.rs:378-387 | on every thread, the frames the host has asked for are those offered and at most one that is about to be |
| SessionFrames.LookedUpIsCalled | rata_shell/src/session.rs:203-224 | a callback looked up while its own slot is filled is called next, and as itself; with an empty slot it is skipped |
| SessionExit.ExitAnnouncedOnceTruthfully | rata_shell/src/session.rs:273-321 | at most one thread wins the swap and on_exit is called at most once per win; without Drop a stopped watcher means exactly one winner; unless the pump asked too early, which takes an Eof enqueued before the child was signalled, the announced code is the child's and was stored first |
| SessionExit.AnnouncedCodeIff | rata_shell/src/session.rs:273-283 | the announced code is the child's code k if and only if k is 0 or the announcer is not a pump that asked before the child was signalled |
| SessionExit.EarlyEofAnnouncesZero | rata_shell/src/session.rs:273-283 | a run that announces 0 for a child that exits with 7 |
| SessionTeardown.SilentAfterDrop | rata_shell/src/session.rs:516-566 | once Drop has returned no callback can begin on any thread, no other thread is inside one, and after a Drop on a host thread pump and watcher have ended |
| SessionTeardown.TableIsLastSet | rata_shell/src/session.rs:93-104 | over any run each slot of the table holds the very function it was given: the main callbacks of the last set_callbacks and the clipboard callback of the last set_clipboard_callback, in whatever order they are called, until Drop empties it for good |
| SessionLiveness.PumpEnds | rata_shell/src/session.rs:157-286 | in every run of all threads, with or without a Drop and with any pauses, in which the pump keeps moving, a pump with an Eof pending ends |
| SessionShutdown.EveryStepCounts | rata_shell/src/session.rs:516-566 | once Drop has lowered `alive` and an Eof is queued, taken or in the reader's hand, every step of every thread lowers one lexicographic measure and keeps this so |
| SessionShutdown.DropEndsThePump | rata_shell/src/session.rs:533-556 | after a successful try_send in a Drop on another thread, with no assumption about the scheduler or the reader: no host code is nested on the pump's thread again, and every run that pauses only when nothing goes on by itself comes to rest for good, with the pump ended and Drop returned or down to its wait for the reader, on a host thread for one that finds the channel full |
| SessionShutdown.RunExists | rata_shell/src/session.rs:516-566 | from every state there is such a run, made of steps that go on by themselves |
| SessionEveryRun.DropAlwaysReturnsIff | rata_shell/src/session.rs:516-566 | in every reachable state with Drop past its first step, on any thread: Drop returns in every such run if and only if the reader is done, or has its Eof in hand and either the pump still takes messages or the channel has a place for it, the synthetic Eof's own place counted while that is still to be sent |
| SessionEveryRun.DestroyAlwaysReturnsIff | rata_shell/src/session.rs:516-536 | the same, read before destroy is called on a thread: the reader is done, or has its Eof in hand and, on the pump's thread, two places are free |
| SessionNotice.ExitIsAnnounced | rata_shell/src/session.rs:273-333 | in every run without end of a session that is never destroyed and whose child is signalled, in which the watcher keeps polling and the winner gets on: the winner looks on_exit up, and from some step on it has been called exactly once if its slot was filled then, and not at all otherwise |
| SessionReturn.DropReturnsIff | rata_shell/src/session.rs:516-566 | in every reachable state with Drop under way, on any thread and at any step, some continuation, the pipe ending by itself if need be, lets it return if and only if the reader is done or the messages that the pump leaves, with the one in the reader's hand, leave room for its Eof |
| SessionReturn.DestroyReturnsIff | rata_shell/src/session.rs:516-566 | read before destroy is called on a thread: Drop can return if and only if the reader is done, or the thread is not the pump's, or the channel has room for what the reader has in hand and its Eof |
| SessionConsole.DropReturnsUnaidedIff | rata_shell/src/session.rs:516-566 | in every such state, some continuation in which the pipe ends only because the console has lost its three owners lets Drop return if and only if there is that room and either the reader has met the end already, or Drop is on a host thread and an Eof is queued, taken or still to be sent to the pump |
| SessionConsole.DestroyReturnsUnaidedIff | rata_shell/src/session.rs:146-147 | read before destroy is called on a thread: if and only if the reader is done, or the thread is a host thread, or the reader has its Eof in hand and, on the pump's thread, a place for it |
| SessionConsole.DestroyOffPumpReturns | rata_shell/src/session.rs:516-566 | on every thread but the pump's Drop can return if the pipe ends by itself; otherwise exactly if it is on a host thread or the reader has met the end |
| SessionConsole.WatcherDropNeedsHelp | rata_shell/src/session.rs:293-321 | a reachable state with Drop inside on_exit on the watcher's thread, which returns only if the pipe ends by itself |
| SessionConsole.FullChannelNeedsHelp | rata_shell/src/session.rs:533-556 | a reachable state with Drop on a host thread whose try_send found the channel full, which returns only if the pipe ends by itself |
| SessionRestart.RestartReturnsIff | rata_shell/src/session.rs:106-342 | in every reachable state with `alive` down in which the session is started again, on any thread: some continuation in which the pipe ends only because the old console has lost its three owners lets start return if and only if the old reader is done, or has the end of the pipe in hand and, inside a callback of the pump, a place for its Eof |
| SessionRestart.RestartStaysPossible | rata_shell/src/session.rs:106-342 | and if it can, it still can after any further events, whatever the other threads, the child and the pipe do and however far start has got |
| SessionRestart.RestartHangsWhereDestroyReturns | rata_shell/src/session.rs:290-340 | a reachable state, after an exit announced by the watcher, in which a host thread can destroy the session but a start on it cannot return |
| SessionHang.NoRoomForever | rata_shell/src/io.rs:42-57 | without that room Drop never returns, from any of its steps, on any thread, in any continuation |
| SessionHang.DropCanHang | rata_shell/src/session.rs:533-536 | such a state is reachable with Drop inside on_render |
| SessionHang.HostDropCanHang | rata_shell/src/session.rs:533-566 | and with Drop on a host thread, the pump having taken the synthetic Eof |
| IoThreads.ReaderThread.Run | rata_shell/src/io.rs:42-57 | the one reused buffer notwithstanding, the messages sent are what the reads returned, then one Eof at the first failed or empty read |
| IoThreads.WriterThread.Run | rata_shell/src/io.rs:74-82 | exactly the buffers ahead of the first empty one are written, in order |
| IoThreads.Pump.DrainChannel | rata_shell/src/session.rs:180-193 | the try_recv loop takes messages without losing any, and an Eof it meets is reported |
| IoThreads.Pump.Run | rata_shell/src/session.rs:157-286 | however messages arrive, the terminal gets what one message per round would give it; whenever the loop is back at the channel and at its end the last frame shows all of it, and any message brings a frame; the exit path is taken exactly if there is an Eof, and delivers one more |
| IoThreads.PipeToTerminal | rata_shell/src/io.rs:42-57 | reader and pump together: every byte read before the end of the pipe reaches the terminal in order, and then the exit path is taken |
| LockOrder.OperationsDisciplined | rata_shell/src/session.rs:167-509 | every operation takes its locks in the order term, then backend or event queue, with the callback table a leaf, and calls the host with none held |
| LockOrder.OperationsProtect | rata_shell/src/session.rs:93-509 | every operation takes the locks of exactly what it works on: the terminal, its event queue where it can queue something, the remembered frames and the callback table |
| LockOrder.ChainClimbs | rata_shell/src/session.rs:378-387 | along a chain of threads waiting for each other the ranks of the wanted locks rise |
| LockOrder.FreeHolder | rata_shell/src/session.rs:378-387 | whenever a thread waits for a held lock, a chain of waiting threads leads from it to one that can run |
| LockOrder.NoDeadlock | rata_shell/src/session.rs:93-104 | for any number of threads and re-entrant callbacks: waiting chains are short and never close, callbacks hold no lock, and from every thread inside an operation a waiting chain leads to a thread that can move |
| Restart.ClaimsNeverExceedStarts | rata_shell/src/session.rs:106-152 | over any run with any number of starts, wins of the swap never exceed starts |
| Restart.StaysAttributedIff | rata_shell/src/session.rs:305-333 | in every reachable state without a double announcement: none follows before the next start if and only if the claim is taken or no announced start has a thread that can still claim |
| Restart.RelaunchSafeIff | rata_shell/src/session.rs:106-152 | starting again keeps announcements single until the start after it, which is to say that nobody is announced twice, if and only if no announced start has such a thread |
| Restart.RelaunchOwnClaimIff | rata_shell/src/session.rs:106-152 | in every reachable state before a launch: all wins until the next launch are the new start's if and only if no older start, announced or not, has a thread that can still claim |
| Restart.EveryStartAnnouncedOnce | rata_shell/src/session.rs:305-321 | if every launch of a run is such a one and the session is not torn down, the i-th win is the i-th start's, and every start but a last one that still holds its claim has won |
| Restart.UnannouncedStart | rata_shell/src/session.rs:107-152 | two calls of start that pass the test together: a run in which the first start takes the only claim, and the second, still running, is announced in no continuation without another launch |
| Restart.CleanRestartsAttribute | rata_shell/src/session.rs:305-321 | if every start of a run is such a one, no start is ever announced twice |
| Restart.AttributionFails | rata_shell/src/session.rs:305-333 | otherwise it can be: a run in which the first child is announced twice while the second still runs and no claim is left |
| EventSink.EventSink.Drain | rata_shell/src/listener.rs:19-22 | hands over everything queued, in order, and leaves the queue empty |
| EventSink.EventSink.Push | rata_shell/src/listener.rs:37-41 | appends one event |
| EventSink.TitleTracker.DrainEvents | rata_shell/src/term.rs:441-455 | returns all queued events and leaves the title that they set |
| EventSink.BatchesDoNotMatter | rata_shell/src/term.rs:441-455 | the title does not depend on where the stream of events is cut into batches |
| EventSink.TitleIsLastSet | rata_shell/src/term.rs:441-455 | the title is that of the last Title or ResetTitle, whatever else follows |
| Backend.Coalesce | rata_shell/src/render/backend.rs:99-112 | the in-place loop computes the merged list and every u16 sum it forms fits |
| Backend.CoalescePreservesCover | rata_shell/src/render/backend.rs:99-112 | for any rectangles the same cells are covered, by no more rectangles |
| Backend.CoalesceIsCanonical | rata_shell/src/render/backend.rs:59-67 | on dirty rows the result is full-width bands, sorted and disjoint, no two adjacent, of exactly the dirty rows, and no other list of rectangles with these rows is shorter |
| Backend.ChangedRows | rata_shell/src/render/backend.rs:58-67 | the row diff, with every slice of the old frame in bounds |
| Backend.HostBackend.Snapshot | rata_shell/src/render/backend.rs:46-87 | delivers the frame with its dirty rectangles against the previous one and remembers the frame |
| Backend.RepaintedIffRowChanged | rata_shell/src/render/backend.rs:58-67 | between frames of one size a cell is repainted exactly when its row looks different |
| Backend.SameLookIff | rata_shell/src/render/backend.rs:90-97 | two cells look the same exactly when they are equal but for their hyperlinks |
| Backend.ReplayKeepsUp | rata_shell/src/render/backend.rs:46-97 | over any snapshots with any resizes, a host that overwrites only dirty rectangles holds exactly the current frame on ch, fg, bg, attrs and width |
| Backend.NothingDirtyIff | rata_shell/src/render/backend.rs:90-97 | nothing is dirty exactly when all cells are equal but for their hyperlinks |
| Backend.ReplayExactIff | rata_shell/src/render/backend.rs:58-67 | replaying a snapshot yields exactly the current frame, hyperlinks included, if and only if the copy has every row that looks unchanged as it is now |
| Backend.ReplayAllExactIff | rata_shell/src/render/backend.rs:46-97 | over any run of snapshots with any resizes, the host holds every row as the snapshot that last reported it had it, so its copy is exactly the last frame, hyperlinks included, if and only if no row has changed since it was last reported |
| Backend.HyperlinkGoesStale | rata_shell/src/render/backend.rs:94-96 | a link that appears under unchanged text does not reach a replaying host |
| Painter.ResolvedColor | delphi/src/SCShell.Painter.pas:194-206 | a stored colour with its highest bit set is the default, any other keeps its channels, in the canvas's order |
| Painter.GlyphDrawnIff | delphi/src/SCShell.Painter.pas:324-327 | the unit drawn is the cell's character if and only if it is a character of one UTF-16 unit, and a blank cell is a space |
| Painter.TRataPainter.FlushRun | delphi/src/SCShell.Painter.pas:224-265 | draws the pending run, or nothing |
| Painter.TRataPainter.DrawRow | delphi/src/SCShell.Painter.pas:287-336 | the inner loop makes the drawing calls of the run specification and never indexes the advances out of range |
| Painter.TRataPainter.RecreateBuffer | delphi/src/SCShell.Painter.pas:172-186 | blanks the back buffer exactly if its size in pixels has to change |
| Painter.TRataPainter.Resize | delphi/src/SCShell.Painter.pas:187-192 | takes over a grid of at least one cell; what was drawn stays exactly if the back buffer already has that size |
| Painter.TRataPainter.DrawEvent | delphi/src/SCShell.Painter.pas:208-337 | draws all rows of the frame, over what the back buffer holds or on a blank one if the size differs |
| Painter.TRataPainter.DrawRows | delphi/src/SCShell.Painter.pas:287-336 | the outer loop |
| PaintedImage.RunsPaintCells | delphi/src/SCShell.Painter.pas:287-336 | after any number of cells of a row in step, drawing the runs leaves the pixels that painting each cell alone would leave |
| PaintedImage.WellFormedInStep | delphi/src/SCShell.Painter.pas:305-310 | rows whose width-2 cells have one trailer each, and no other trailers, are in step |
| PaintedImage.GlyphsInPlaceIff | delphi/src/SCShell.Painter.pas:312-333 | for any row, every glyph's accumulated advance puts it on its own column if and only if every visible cell in the style of the visible cell before it begins where that one ends |
| PaintedImage.OpenStyle | delphi/src/SCShell.Painter.pas:312-322 | the cells that continue a run are those in the style of the visible cell before them |
| PaintedImage.StrayTrailerShifts | delphi/src/SCShell.Painter.pas:305-310 | a row for which it does not |
| PaintedImage.RunsTile | delphi/src/SCShell.Painter.pas:312-336 | the runs of a well-formed row follow each other without gap or overlap |
| PaintedImage.RowTiled | delphi/src/SCShell.Painter.pas:287-336 | each column of a well-formed row is in exactly one run |
| PaintedImage.DrawnRowShowsCell | delphi/src/SCShell.Painter.pas:294-336 | after the drawing calls of a well-formed row every visible cell is in the picture: its glyph at its own left edge, in its ink and on its paper across its own columns, the two exchanged under REVERSE |
| PaintedImage.DrawnFrameShowsCell | delphi/src/SCShell.Painter.pas:285-336 | after the drawing calls of a well-formed frame, over whatever was there, band y shows at column x the cell of index y * cols + x: glyph, ink and paper at its own columns |
| PaintedImage.ReversedIff | delphi/src/SCShell.Painter.pas:297-304 | a cell is drawn reversed exactly when its attributes have the bit 0x20 |
| PaintedImage.FramePaintedAlike | delphi/src/SCShell.Painter.pas:287-336 | a whole well-formed frame is painted as its cells would be, one by one |
| PaintedImage.EarlierFramesDoNotMatter | delphi/src/SCShell.Painter.pas:269-336 | drawing a well-formed frame leaves the same picture whatever was there before |
| RenderMailbox.Move | delphi/src/SCShell.Ctrl.pas:807-812 | copies bytes into place and disturbs nothing around them |
| RenderMailbox.CellsRoundTrip | delphi/src/SCShell.Ctrl.pas:807-809 | cells read from their memory image are the cells, field by field |
| RenderMailbox.RectsRoundTrip | delphi/src/SCShell.Ctrl.pas:810-812 | likewise for rectangles |
| RenderMailbox.UnpackPacked | delphi/src/SCShell.Ctrl.pas:833-841 | the adjusted pointers lead to the cells and rectangles that were packed |
| RenderMailbox.FrameMailbox.StoreRenderEvent | delphi/src/SCShell.Ctrl.pas:787-825 | afterwards the mailbox holds exactly this event, in a buffer of its own |
| RenderMailbox.FrameMailbox.ConsumePendingEvent | delphi/src/SCShell.Ctrl.pas:827-848 | takes out exactly the waiting event and leaves the mailbox empty, or changes nothing |
| RenderMailbox.FrameMailbox.HandleRenderMessage | delphi/src/SCShell.Ctrl.pas:850-882 | draws the waiting event and remembers its cells, size and cursor; without one nothing changes |
| FrameDelivery.NoLostWakeUp | delphi/src/SCShell.Ctrl.pas:261-271 | in every interleaving a waiting frame has a message queued, a thread about to post, or a window thread about to look; frames are drawn in storing order |
| FrameDelivery.QuiescentShowsNewest | delphi/src/SCShell.Ctrl.pas:850-882 | with nothing under way the last frame stored is the last drawn and its cells are the remembered ones |
| FrameDelivery.QuiescentPictureIff | delphi/src/SCShell.Ctrl.pas:455-466 | then, if it is well formed, the back buffer is the one that drawing every stored frame would have left if and only if the window has not changed its size since |
| FrameDelivery.EveryRunComesToRest | delphi/src/SCShell.Ctrl.pas:827-882 | in every continuation without a new frame, in whatever order the threads move: moves made and steps outstanding never exceed the steps outstanding at first, a move is possible exactly until nothing is under way, and then the newest frame is the remembered one |
| FrameDelivery.NextFrameRepairs | delphi/src/SCShell.Ctrl.pas:850-882 | whatever happened before, after the next well-formed frame the window can come to rest showing exactly that frame |
| FrameDelivery.Drains | delphi/src/SCShell.Ctrl.pas:827-882 | from every reachable state, finishing what is under way takes a bounded number of steps and ends quiescent |
| FrameDelivery.SkippedFramesDoNotMatter | delphi/src/SCShell.Ctrl.pas:817-821 | drawing any frames that end with the newest equals drawing all |
| FrameDelivery.StoreOrderDecides | rata_shell/src/session.rs:378-387 | from any reachable state, of two frames stored one after the other, whichever was taken first, the window comes to rest with the one stored last |
| FrameDelivery.PictureShowsCell | delphi/src/SCShell.Painter.pas:269-336 | the picture that the other theorems compare with shows every visible cell of its frame in its row and at its column |
| Osc7.DecodePercents | rata_shell/src/term.rs:25-43 | the decoding loop |
| Osc7.DecodedLength | rata_shell/src/term.rs:25-43 | each %XX shortens the output by two and everything else is kept: the output equals the input exactly when it holds no %XX |
| Osc7.DecodeInvertsEncoding | rata_shell/src/term.rs:25-43 | decoding inverts every percent-encoding of a byte string (section 2.1 of RFC 3986), with either case of hex digits |
| Osc7.PercentEncodeEncodes | rata_shell/src/term.rs:25-43 | every byte string has such an encoding |
| Osc7.CwdTracker.Advance | rata_shell/src/term.rs:130-137 | the scanner's share of advance over a chunk |
| Osc7.CwdTracker.ScanOsc7 | rata_shell/src/term.rs:139-165 | one byte of the state machine |
| Osc7.CwdTracker.HandleOsc7Url | rata_shell/src/term.rs:167-188 | the path of the url, decoded, without the slash before a drive letter |
| Osc7.Chunking | rata_shell/src/term.rs:130-137 | any cut of the output into chunks gives the same result |
| Osc7.BufferBounded | rata_shell/src/term.rs:148-162 | the buffer never exceeds 4096 bytes and is empty outside state 4 |
| Osc7.FrameRecognisedIff | rata_shell/src/term.rs:139-165 | a well-formed sequence is recognised if and only if the scanner is not in state 2 or 3 where it starts |
| Osc7.RecognitionIsExact | rata_shell/src/term.rs:139-165 | a url is taken at a byte if and only if a contiguous ESC ] 7 ; p and a terminator end there, p free of BEL and ESC and within the limit, from such a state |
| Osc7.StrayOpeningHidesFrame | rata_shell/src/term.rs:141-147 | a sequence right after a stray ESC ] is missed |
| Osc7.CwdIsLastRecognised | rata_shell/src/term.rs:139-188 | the directory is that of the last recognised url, and nothing else changes it |
| Osc7.WorkingDirectoryRoundTrip | rata_shell/src/term.rs:139-188 | any percent-encoding of a UTF-8 path in a file url with any host (section 2 of RFC 8089), framed with BEL or ST within the limit, leaves d:rest if the path is /d:rest, and the path itself otherwise |
| Osc7.CwdOfOtherUrl | rata_shell/src/term.rs:167-188 | the same for a payload that is no file url, taken as a path, and for a file url without a slash |
| Osc7.HexDigitsRead | rata_shell/src/term.rs:29-36 | the hex digits in either case have their values, and no other byte has one |
| Osc7.FixedParts | rata_shell/src/term.rs:139-170 | the opening, the scheme and the limit, spelled out |
| Utf8.LossyFixpoint | rata_shell/src/term.rs:42 | lossy conversion changes nothing exactly on valid UTF-8 |
| Utf8.RoundTrip | rata_shell/src/ffi.rs:818 | decoding inverts encoding on every text |
| Utf8.DecodeThenEncode | rata_shell/src/ffi.rs:818 | and encoding inverts decoding on every valid byte string |
| Keymap.NavigationReads | rata_shell/src/keymap.rs:36-98 | whatever follows it, a navigation key is read back with its modifiers, by the control-sequence format of section 5.4 of ECMA-48 |
| Keymap.KeysUniquelyDecodable | rata_shell/src/keymap.rs:26-106 | any stream of arrow, Home, End, Insert, Delete, Page and F1 to F12 presses, with any modifiers and any cursor-key mode per press, decodes back to exactly the keys and modifiers |
| Keymap.PlainSequences | rata_shell/src/keymap.rs:58-98 | the sequences of the unmodified keys, by their virtual-key codes |
| Keymap.FunctionKeySequences | rata_shell/src/keymap.rs:84-98 | those of F1 to F12 |
| Keymap.ModifierBits | rata_shell/src/keymap.rs:3-31 | what each bit of a modifier mask means, and xterm's modifier parameter for every mask |
| Keymap.ModifiedKeys | rata_shell/src/keymap.rs:36-106 | what every mask does to letters, Back, Tab, an arrow and Delete |
| KeyStreams.KeyReads | rata_shell/src/keymap.rs:36-98 | every press that sends something is read back as what it amounts to |
| KeyStreams.SameBytesIff | rata_shell/src/keymap.rs:36-106 | over all keys, modifiers and modes, two presses send the same bytes if and only if they amount to the same: Ctrl+I is Tab, Ctrl+M is Return, and modifiers count where they are encoded |
| KeyStreams.DecodableIff | rata_shell/src/keymap.rs:36-106 | a set of keys can be told apart in any stream if and only if it lacks Escape, or Back, or Alt+Back |
| KeyStreams.AltBackIsTwoKeys | rata_shell/src/keymap.rs:58-76 | Alt+Back sends what Escape and Back send |
| EnvBlock.BlockToUtf16 | rata_shell/src/ffi.rs:817-829 | the loop writes the non-empty entries, each with its zero, and the final zero |
| EnvBlock.Utf16RoundTrip | rata_shell/src/ffi.rs:824 | decoding UTF-16 (section 2.1 of RFC 2781) inverts encoding on every text |
| EnvBlock.NoSpuriousZero | rata_shell/src/ffi.rs:824-825 | no scalar but NUL produces a zero unit |
| EnvBlock.EnvironmentRoundTrip | rata_shell/src/ffi.rs:817-829 | for any input bytes and whatever lies behind the block, reading it up to the first empty entry gives, in order, the entries of the input but for its empty ones, and no other |
| EnvBlock.HostTextArrives | rata_shell/src/ffi.rs:818 | for valid UTF-8 those are the entries the host encoded |
| EnvBlock.Upsert | rata_shell/src/session.rs:583-592 | the search-and-replace loop |
| EnvBlock.UpsertProperties | rata_shell/src/session.rs:583-592 | one name, compared without case, gets the value, every other name keeps its own, and an entry is added only for a new name |
| EnvBlock.DefaultEnvWithTerminfo | rata_shell/src/session.rs:568-581 | the block of the process environment with the two terminal variables |
| EnvBlock.DefaultEnvironment | rata_shell/src/session.rs:568-581 | the child reads one line per variable, TERM and COLORTERM as set, every other variable as the process has it |
| EnvBlock.ChildEnvironment | rata_shell/src/session.rs:568-581 | a child that splits its lines at the first `=` behind the first character finds TERM and COLORTERM as set, and under every other name what the process had |
| EnvBlock.TerminalVariables | rata_shell/src/session.rs:570-571 | the two names and values, spelled out |
| EnvBlock.SameNameIff | rata_shell/src/session.rs:583-587 | names are the same exactly when they differ in the case of ASCII letters at most |
| Viewport.BroughtIntoView | rata_shell/src/term.rs:352-362 | every grid line can be brought on screen, and the scroll is the least that does |
| Viewport.MatchIsShown | rata_shell/src/term.rs:289-377 | a match anywhere in the grid is reported at the row that shows it, up to its end or the end of the row, with 1 <= len and col + len <= cols; length 0 means nothing was found, so the return for a match that could not be shown is never taken |
| Viewport.SearchThenSnapshot | rata_shell/src/term.rs:364-376 | a snapshot right after a search shows the line of the match at the reported row |
| Viewport.SearchGoesOn | rata_shell/src/term.rs:305-320 | a search for the pattern of the last one starts next to its match; after no match, and for any other pattern, it starts at the cursor |
| Viewport.SnapshotShowsGrid | rata_shell/src/term.rs:469-485 | row r of a snapshot is grid line r - display_offset |
| Viewport.CursorFollowsItsLine | rata_shell/src/term.rs:493-521 | a shown cursor is visible exactly when its line is on screen, and then lies on that line |
| Viewport.SelectionSticks | rata_shell/src/term.rs:381-405 | a selection point is the grid cell shown there, and scrolling does not move it |
| Viewport.TermViewport.SearchNext | rata_shell/src/term.rs:289-377 | the search with its pattern, origin and scrolling |
| Viewport.TermViewport.ScrollTo | rata_shell/src/term.rs:352-362 | the scrolling part of a search |
| Viewport.TermViewport.SelectionStart | rata_shell/src/term.rs:381-395 | starts a selection at the grid point under a viewport cell, of the kind of its code, and changes nothing else |
| Viewport.TermViewport.SelectionExtend | rata_shell/src/term.rs:397-405 | moves its end, or does nothing without a selection |
| Viewport.TermViewport.Snapshot | rata_shell/src/term.rs:469-501 | the loops over rows and columns, and the cursor |
| Viewport.ShapePaintedIff | delphi/src/SCShell.Painter.pas:346-363 | the painted cursor shape is the terminal's if and only if it blinks or is a bar |
| Scrollbar.MulDivMeaning | delphi/src/SCShell.Ctrl.pas:1777-1786 | MulDiv is the rounded quotient, or -1 if it does not fit |
| Scrollbar.ThumbHeightIsShare | delphi/src/SCShell.Ctrl.pas:1777-1780 | the thumb has the viewport's share of the track, off by half a pixel at most, unless that is less than the least height |
| Scrollbar.ThumbStaysInTrack | delphi/src/SCShell.Ctrl.pas:1765-1789 | the thumb stays inside the track, is at the ends for the extreme offsets, and moves up as the offset grows |
| Scrollbar.DragIsMonotone | delphi/src/SCShell.Ctrl.pas:1911-1924 | dragging is monotone, and the ends reach the oldest line and the live screen |
| Scrollbar.DragReachesOffset | delphi/src/SCShell.Ctrl.pas:1925-1926 | a control in step with its session scrolls to exactly the offset of the drag |
| Scrollbar.RegrabError | delphi/src/SCShell.Ctrl.pas:1911-1927 | grabbing without moving shifts the offset by at most max / (2 * range) + 1/2 lines |
| Scrollbar.RegrabExact | delphi/src/SCShell.Ctrl.pas:1911-1927 | not at all if max <= range |
| Scrollbar.RegrabIdentityIff | delphi/src/SCShell.Ctrl.pas:1765-1789 | it keeps every offset if and only if max <= range |
| Scrollbar.GripIsThumb | delphi/src/SCShell.Ctrl.pas:582-588 | moving the mouse to where it grabbed the thumb is a drag to the thumb's own position |
| Scrollbar.ThumbControl.MouseDown | delphi/src/SCShell.Ctrl.pas:576-600 | a click on the thumb grabs it; a click above it pages towards the oldest line, one below it towards the live screen |
| Scrollbar.ThumbControl.MouseMove | delphi/src/SCShell.Ctrl.pas:1911-1928 | scrolls the session by the difference to the offset of the drag, or leaves everything alone |
| Scrollbar.ThumbControl.ScrollByLines | delphi/src/SCShell.Ctrl.pas:1814-1821 | scrolls the session, clamped, and takes over its new position |

## Left out

- The emulator itself (parsing, grid storage, regular-expression search, vi motions,
  selection text): an arbitrary fold over bytes that may queue events, a grid of
  rows, and an arbitrary search whose matches lie in the grid.
- Classes for the session's threads in SessionModel and LockOrder: interleaved steps
  of several threads are modelled on values; object identity and aliasing between
  threads are not captured there. IoThreads has the sequential loops as classes.
- The mutexes of the slots `pty`, `reader`, `writer`, `pump`, `watcher` and `options`.
  Some are held for long: Drop keeps the guards of `writer`, `pump`, `watcher` and
  `reader` while it joins, `resize` that of `pty`, `start` that of `options` around the
  spawn. A callback that calls the session during destroy, which the interface forbids,
  could wait for them. LockOrder has the four other locks.
- Several starts in SessionModel: one start per session there; Restart has any
  number of starts, but only the claim of the exit notice, and SessionRestart one start
  after another, of the newer of which it has only `alive`.
- Concurrent API calls during destroy, and calls after it: the interface forbids them.
- ReadFile, WriteFile and WaitForSingleObject beyond "bytes or end", "takes the
  whole buffer" and "signalled"; a failing GetExitCodeProcess on a signalled process.
- How the pseudo-console ends by itself, and output still in the pipe when it is closed:
  the step PipeEnds may come at any time or never, and a closed console may or may not
  let the reader read more bytes before the end.
- Fairness for `start`: by RestartStaysPossible it can return at every moment once it can
  at all; that the scheduler lets it is not modelled.
- The scheduler before Drop's first step: until `alive` is lowered the watcher may poll for
  ever, so SessionEveryRun starts behind that step.
- The effect of the Terminate step on the child: the environment may let the child
  exit at any time.
- Process creation, handles, job objects, library loading, logging, build scripts.
- PostMessage that fails and a control without a window handle: every post arrives.
- A font change while frames are under way: the cell size is fixed.
- Glyph outlines, cursor inversion and fonts: a glyph is its origin, its unit, its
  colour and its attributes. Heights are one cell.
- Cursor visibility, alternate screen and mode flags of the event header, and the
  header's bytes inside the packed buffer: the header travels by value, next to the
  memory its pointers lead to. Its size is that of a 64-bit build.
- Mouse reports, selection dragging, menus, focus, input methods, timers.
- Colour tables, mode flags and hyperlink hashing: constant tables.
- FFI null checks, magic numbers and panic guards: single-branch facts.
- Histories and window sizes whose sum exceeds a 32-bit integer (Scrollbar).
- Re-rendering after a search: the session's `search_next` scrolls without delivering
  a frame; SearchThenSnapshot speaks of the next snapshot.
- IoThreads.Pump.Run: leaves out event dispatch, callbacks and the exit notice, which
  SessionModel has.
- RenderMailbox.FrameMailbox.HandleRenderMessage: leaves out the cursor's inversion, the
  blink timer and UpdateScrollInfo; Scrollbar has the last.
- Viewport.TermViewport.Snapshot: leaves out the registration of hyperlinks; the style
  code of the cursor is StyleCode, beside it.
- SessionDelivery.PayloadsWrittenOnce: a terminal reply that is empty also stops the
  writer, so the part about Drop assumes there is none.
- Backend.Coalesce: requires rectangles whose bottom fits in u16, as the rows of a
  grid addressed with u16 do.
- PaintedImage.RunsPaintCells: for rows in step; for other rows GlyphsInPlaceIff
  says when the glyphs are in place.
