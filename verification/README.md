# STELC_pi in Dafny

A model of the Raspberry Pi side of STELC: the recorder box's controller threads, its front-panel menu and its USB-stick copier. The three Python 2 modules are modelled module by module, and properties are proved about the model.

- `py_runtime.dfy` (module `PyRuntime`): the Python behaviour the other modules rely on.
  - `Option`, `Result` and the exceptions that can escape (`RecordingError`, `AttributeError`, `KeyError`, `TypeError`, `IndexError`, `CalledProcessError`).
  - List indexing with negative indices, slicing and slice assignment, `list.remove`.
  - Decimal and zero-padded digit strings, with their round trips.
- `stelc_pi.dfy` (module `Pi`): `Controller`, `Recorder`, and the `Scheduler`/`Uploader` stubs of `STELC_pi.py`.
  - Each object's `threading.Event` attributes are the set `raised` of the events that are set.
  - One iteration of a `run` loop is one `Tick`, which runs at most one handler, picked by a fixed priority order (`FirstRaised`).
  - `Run` repeats ticks until `_stop_` is set or the inputs run out.
  - Threads, `sleep` and `Event.wait` are not modelled.
  - The recorder stream's "is active" answer is a parameter of each tick.
  - The wall clock is a parameter (`Clock`) of the calls that stamp a file name.
  - A take (the `Record` object of the recorder library) is modelled by the arguments it is built from (`Take`).
- `stelc_display.dfy` (module `Display`): `ScrollingBlock`, `Query`, `Verifier` and `QueryBlock` of `STELC_Display.py`, without the LCD.
  - The elapsed-rate test of `scroll`, the idle-delay test of `update` and the button read by `buttonCheck` are parameters.
  - An `Action` is an opaque tag.
  - `QueryBlock.Update` returns the action a selection fires instead of executing it.
- `stelc_copier.dfy` (module `Copier`): the `Copy` class of `STELC_Copier.py`.
  - The output of `udisks --enumerate-device-files`, `udisks --show-info`, the success of each `udisks` command and the lines `rsync` prints are parameters.
  - The indentation-driven parser of `getInfoDict` is a function over lines (`InfoDict`) that a loop method (`ParseInfoDict`) computes.
  - Each method of `Copy` is proved equal to a specification function over the object's state (`CopyState`).

Behaviour of the code that the model keeps as written:

- **Recording ends in idle.** When a recording ends, the controller goes back to idle, not on to converting (`Pi.Controller.WhileRecording`).
- **`record()` starts the recorder directly.** It calls `recorder.startRecording()` itself; the recorder's `_startRecording_` event is left alone (`Pi.Controller.Record`).
- **`cancel()` never reaches its stop.**
  - It tests `self.recording()`, the controller's own tick handler, which returns `None`. So the `stopRecording()` call beneath that test is never reached (`Pi.Controller.Cancel`).
  - The handler itself stops the recorder when the stream is inactive.
  - It raises when the recorder has no take or is not recording.
- **`setFilename(name)` always raises.** It calls the misspelled `self.recroding()`, so with a name it raises `AttributeError` and never sets the name (`Pi.Recorder.SetFilename`).
- **The clear-flag errors are `AttributeError`.** `recordStreamActive`, `pauseRecording` and `stopRecording` raise `threading.ThreadingError` when there is a take but `_recording_` is clear. The threading module defines no such name, so evaluating it raises `AttributeError` instead (`Pi.Recorder.RecordStreamActive`, `Pi.Recorder.PauseRecording`, `Pi.Recorder.StopRecording`).
- **The short-message fill.** When a `ScrollingBlock` message fits, the padding is counted from the length of the window `longM[offset:offset+blockLength]`, not from the message. The window includes the spacer and the repeated message, so the padded line is not always `blockLength + 1` long (`Display.FillAtStart`). It is always the message followed by at least one space (`Display.FillKeepsMessage`).
- **Labels can be inserted.** `makeMessage` splices each label with `ml[p+1:len(label)+1] = label`, which inserts rather than overwrites when `p >= len(label)` (`Display.SpliceLabel`).
- **`makeVerifier` raises a string.** `raise "..."` is a `TypeError` in Python 2.6 and later (`Display.Query.MakeVerifier`).
- **Failure handlers can raise.** In `copy`, the handlers of a failed mount, unmount or detach read the partition's `label`, which can itself raise (`Copier.TrySpec`).

## Model

| member | source | states |
|---|---|---|
| PyRuntime.Spaces | STELC_Display.py:65 | `" " * n` is `max(n, 0)` spaces |
| PyRuntime.SliceBound | STELC_Display.py:258-261 | a slice bound is clamped into `0..len`, negative bounds counting from the end |
| PyRuntime.ListIndex | STELC_Display.py:296 | an index accepted by a list lookup names the element Python picks, negative indices counting from the end |
| PyRuntime.FirstIndex | STELC_Display.py:418 | the first position holding the element |
| PyRuntime.RemoveFirst | STELC_Display.py:418 | `list.remove(x)` takes away exactly the first occurrence of `x`: the elements before it and after it stay in order, so the list is one shorter with the same multiset minus `x` |
| PyRuntime.Slice | STELC_Display.py:57 | `s[i:j]` holds the elements from the clamped `i` up to the clamped `j`, and none when the clamped `j` is not after the clamped `i`; it is never longer than `s`, nor, for non-negative bounds, longer than `j - i`, and for in-range bounds it is `s[i..j]` |
| PyRuntime.SliceAssign | STELC_Display.py:258-261 | `s[i:j] = t` keeps the prefix before the clamped `i`, puts `t` there, and keeps the suffix from the clamped `j` on (from `i` when `j` lies before it), so only the clamped range is removed |
| PyRuntime.DecimalString | STELC_Copier.py:168 | `"%d"` of a natural number is a non-empty digit string |
| PyRuntime.FixedDigits | STELC_pi.py:253 | a zero-padded `strftime` field has exactly the field width in digits |
| PyRuntime.DecimalRoundTrip | STELC_Copier.py:168 | reading back `"%d" % n` gives `n` |
| PyRuntime.FixedRoundTrip | STELC_pi.py:253 | reading back a zero-padded field gives the number when it fits the width |
| Pi.FirstRaised | STELC_pi.py:185-190 | the handler picked is for an event that is set and is among the tested ones |
| Pi.FirstRaisedNone | STELC_pi.py:185-190 | no handler runs exactly when none of the tested events is set |
| Pi.FirstRaisedPriority | STELC_pi.py:185-190 | event k's handler runs if and only if k is set and no event before it in the order is |
| Pi.ControllerDispatch | STELC_pi.py:184-190 | the controller's order is clear > cancel > recording > converting > uploading |
| Pi.TraceExtend | STELC_pi.py:184-193 | a tick that runs the first set handler, after a tick that ran none left the events alone, extends a `run` loop's trace |
| Pi.RecorderDispatch | STELC_pi.py:322-328 | the recorder's order is clear > stopRecording > pauseRecording > startRecording |
| Pi.ClearAllBut | STELC_pi.py:64-68 | after `clearAll(but)` an event is set if and only if it was set and is `but`; `_stop_` is cleared too |
| Pi.StampedName | STELC_pi.py:252-253 | the `strftime('STELC_%Y%m%d-%H%M.wav')` name of a clock reading; `StampRoundTrip` states that it is 23 characters long and reads back to that reading |
| Pi.StampRoundTrip | STELC_pi.py:252-253 | the `STELC_%Y%m%d-%H%M.wav` name is 23 characters and the clock reading can be read back from it |
| Pi.Recorder.constructor | STELC_pi.py:201-220 | a new recorder has no event set, no take, file `test.wav`, 20 seconds |
| Pi.Recorder.ClearAll | STELC_pi.py:222-226 | every recorder event ends clear except `but`, which keeps its value |
| Pi.Recorder.Set | STELC_pi.py:206-216 | another thread setting one of the recorder's events adds exactly that event |
| Pi.Recorder.SetFilename | STELC_pi.py:244-255 | with a name: raises `AttributeError("recroding")`, name unchanged; without: stamps the clock when not recording, keeps the name when recording, and returns the name |
| Pi.Recorder.SetRecordSeconds | STELC_pi.py:257-264 | while recording, setting raises `RecordingError` and keeps the value; otherwise the value is set; the current value is returned whenever nothing raises |
| Pi.Recorder.IsRecording | STELC_pi.py:272-273 | `recording()` is whether `_recording_` is among the set events; it decides the success and error branches of `RecordStreamActive`, `PauseRecording`, `StopRecording` and `SetRecordSeconds`, whose contracts state them |
| Pi.Recorder.RecordStreamActive | STELC_pi.py:275-281 | succeeds if and only if there is a take and `_recording_` is set, and then answers the stream; a missing take raises `RecordingError`; with a take but a clear flag, naming the non-existent `threading.ThreadingError` raises `AttributeError("ThreadingError")` |
| Pi.Recorder.StartRecording | STELC_pi.py:284-291 | a take is made from the current length and file name and `_recording_` is set |
| Pi.Recorder.PauseRecording | STELC_pi.py:293-303 | with a take and `_recording_` set, the take is paused; a missing take raises `RecordingError`; with a take but a clear flag, naming the non-existent `threading.ThreadingError` raises `AttributeError("ThreadingError")`; flags never change |
| Pi.Recorder.StopRecording | STELC_pi.py:305-320 | with a take and `_recording_` set, the take is dropped and `_recording_` cleared; otherwise it raises as `PauseRecording` does (`RecordingError` without a take, `AttributeError("ThreadingError")` with a clear flag) and nothing changes |
| Pi.Recorder.Stop | STELC_pi.py:238-239 | `stop()` sets `_stop_` and nothing else |
| Pi.Recorder.Tick | STELC_pi.py:322-328 | one loop iteration runs the handler of the first set event in the recorder's order, with that handler's effect; no handler changes nothing; `_stop_` is never set by a tick |
| Pi.Recorder.Run | STELC_pi.py:322-328 | the loop runs no tick once stopped and ends early only when `_stop_` is set or a handler raises; `_stop_`, the file name and the length are as before; the ghost trace gives the events before each tick and the handler it ran (`IsTrace`), starting from the events at the call |
| Pi.Controller.constructor | STELC_pi.py:30-62 | a new controller has no event set, the default status, and the "Record?" query (number 0) as default |
| Pi.Controller.ClearAll | STELC_pi.py:64-68 | every controller event ends clear except `but`, which keeps its value |
| Pi.Controller.Set | STELC_pi.py:57-62 | another thread setting one of the controller's events adds exactly that event |
| Pi.Controller.Stop | STELC_pi.py:84-86 | `stop()` sets `_stop_` and nothing else |
| Pi.Controller.Idle | STELC_pi.py:174-182 | after `idle()` no event is set, the status is the default, the panel is IDLE and the "Record?" query is the default |
| Pi.Controller.Convert | STELC_pi.py:139-149 | after `convert()` exactly `_converting_` is set, the panel is PROCESS and "Cancel?" is the default query |
| Pi.Controller.Upload | STELC_pi.py:157-166 | after `upload()` exactly `_uploading_` is set, the panel is PROCESS and "Cancel?" is the default query |
| Pi.Controller.WhileConverting | STELC_pi.py:151-155 | the status reads "converting..." |
| Pi.Controller.WhileUploading | STELC_pi.py:168-172 | the status reads "uploading..." |
| Pi.Controller.Record | STELC_pi.py:103-122 | exactly `_recording_` ends set; if the recorder was already recording it raises `RecordingError` and the recorder is unchanged; otherwise the recorder holds the requested length (10800 seconds when none is given), a stamped file name, a take of both and its own `_recording_`, and the panel goes to PROCESS with "Cancel?" as default |
| Pi.Controller.WhileRecording | STELC_pi.py:124-137 | the status reads "recording..."; an active stream changes nothing else; an inactive stream stops the recorder and leaves the controller idle, not converting; the recorder's guards raise as `RecordStreamActive` does |
| Pi.Controller.Cancel | STELC_pi.py:91-101 | `CancelEffect`: the test calls the `recording()` handler, so a missing take or a clear recorder flag raises with only the status changed; otherwise the controller ends idle with every flag clear, the recorder keeps its file name and length, and its take is stopped exactly when its stream was already inactive |
| Pi.Controller.Tick | STELC_pi.py:184-193 | one loop iteration runs the handler of the first set event in the controller's order, with that handler's effect (`HandlerEffect`); only cancel and recording touch the recorder or the panel; exclusive stage events stay exclusive; `_stop_` is never set by a tick |
| Pi.Controller.Handle | STELC_pi.py:184-193 | the body of the branch for event `h` has that handler's effect (`HandlerEffect`); no handler leaves the events alone; the recorder keeps its file name and length; only the recording handler's two errors escape |
| Pi.Controller.Run | STELC_pi.py:184-193 | the loop runs no tick once stopped and ends early only when `_stop_` is set or the recording handler raises one of its two errors; `_stop_` and the recorder's file name and length are as before; the stage events stay exclusive if they were; the ghost trace gives the events before each tick and the handler it ran (`IsTrace`), starting from the events at the call |
| Pi.StubWorker.constructor | STELC_pi.py:332-339 | a new scheduler or uploader stub has no event set |
| Pi.StubWorker.ClearAll | STELC_pi.py:341-345 | every stub event ends clear except `but` |
| Pi.StubWorker.Stop | STELC_pi.py:353-354 | `stop()` sets `_stop_` and nothing else |
| Pi.StubWorker.Tick | STELC_pi.py:359-362 | the stub's tick only clears all events when `_clear_` is set |
| Display.Window | STELC_Display.py:54-57 | the visible window is never longer than the block |
| Display.ScrollStep | STELC_Display.py:67-91 | `scroll`'s update of offset and step; its meaning is in `CirclingStep`, `SwingingStep` and `ScrollBelowZero`, and `ScrollingBlock.ScrollOnce` is proved equal to it |
| Display.CirclingStep | STELC_Display.py:72-91 | without oscillation over a long message, the offset advances by one only when the rate has elapsed, wraps to 0 after `len + spacer - 1`, and stays in `0..len + spacer - 1` with step 1 |
| Display.CirclingWindowFull | STELC_Display.py:54-57 | in every such state the window is exactly `blockLength` characters |
| Display.SwingingStep | STELC_Display.py:75-91 | with oscillation over a long message, the scroll stays among the swinging states and `offsetStep` only ever takes the values 1, 0 and -1 |
| Display.SwingingWindow | STELC_Display.py:54-57 | in every swinging state the window is full, except at offset -1, where it is empty |
| Display.ScrollBelowZero | STELC_Display.py:86-88 | an elapsed scroll from a negative offset resets the offset to 0 and the step to 1 |
| Display.SteadyUpdate | STELC_Display.py:49-91 | one `update()` of a long message keeps the block in its reachable states, and shows a full window except in the one swinging state at offset -1 |
| Display.Fill | STELC_Display.py:63-65 | what `update` shows for a message that fits: the message, then the spaces `FillKeepsMessage` and `FillAtStart` describe |
| Display.FillKeepsMessage | STELC_Display.py:63-65 | a message that fits is shown whole, followed by at least one space and only spaces |
| Display.FillAtStart | STELC_Display.py:54-65 | at offset 0 the padded line's length follows the window length (message, spacer, message), not `blockLength + 1` |
| Display.ScrollingBlock.constructor | STELC_Display.py:28-47 | a new block has offset 0, step 1, no oscillation, width 9 and an empty message |
| Display.ScrollingBlock.Status | STELC_Display.py:99-108 | the status block oscillates, is 10 wide and starts in a steady state |
| Display.ScrollingBlock.ScrollOnce | STELC_Display.py:67-91 | `scroll` moves offset and step as the scroll step function says |
| Display.ScrollingBlock.Update | STELC_Display.py:49-65 | a long message shows the current window then scrolls; a short one shows the fill and does not move; a steady block stays steady and shows a full window |
| Display.LastMatch | STELC_Display.py:239-241 | the loop's last response at the cursor position, and no later one has that position; none when no response has it |
| Display.NextIndex | STELC_Display.py:238-243 | `nextPosition` always lands on an existing response |
| Display.PrevIndex | STELC_Display.py:249-254 | `prevPosition` always lands on an existing response |
| Display.LastMatchAt | STELC_Display.py:239-241 | with distinct positions, the response found at a response's own position is that response |
| Display.CursorCycles | STELC_Display.py:234-254 | with distinct positions, next moves to the following response and prev to the preceding one, wrapping around |
| Display.NextPrevInverse | STELC_Display.py:234-254 | with distinct positions, prev after next, and next after prev, restore the response |
| Display.CursorOffResponses | STELC_Display.py:238-253 | a cursor on no response goes to the first response on both next and prev |
| Display.Overlay | STELC_Display.py:257-258 | the line starts as the message followed by spaces out to `blockLength + 1` |
| Display.SpliceLabel | STELC_Display.py:260 | a label at `p >= len(label)` is inserted after `p`; a label at `p < len(label)` replaces cells `p+1..len(label)` |
| Display.MarkCursor | STELC_Display.py:261 | the cursor cell becomes `>` and every other cell is kept |
| Display.SpliceLabels | STELC_Display.py:259-260 | the `for r in self.responses` loop of `makeMessage`, each label spliced in turn by `SpliceLabel`; `VerifierLabels` gives its value on the verifier, and `Query.MakeMessage`'s loop invariant follows it |
| Display.QueryLine | STELC_Display.py:256-262 | the whole line `makeMessage` returns: overlay, spliced labels, cursor mark; `QueryLineAt` states that the mark replaces exactly the cursor cell, `VerifierLine` gives the verifier's lines, and `Query.MakeMessage` is proved equal to it |
| Display.VerifierLabels | STELC_Display.py:269-275 | the verifier's labels give "Sure?   Yes No        " on the 16-wide block |
| Display.VerifierLine | STELC_Display.py:256-275 | the verifier shows "Sure?   Yes>No        " at its default cursor and "Sure?  >Yes No        " on "Yes" |
| Display.QueryLineAt | STELC_Display.py:256-262 | marking the cursor puts `>` in place of the cell at the cursor |
| Display.VerifierResponses | STELC_Display.py:271-272 | a verifier has two responses, neither needing verification, at distinct positions |
| Display.Query.constructor | STELC_Display.py:181-210 | a new query starts inactive with nothing selected and the cursor on the default response, indexed as Python indexes |
| Display.Query.Verifier | STELC_Display.py:265-275 | a verifier asks "Sure?" with Yes@7 and No@11, starts active with the cursor on No |
| Display.Query.Reset | STELC_Display.py:212-218 | the cursor returns to the default, the selection is dropped, the query goes inactive |
| Display.Query.MakeVerifier | STELC_Display.py:220-232 | succeeds if and only if something is selected, giving a new active verifier for the selection's action and deactivating the query; with nothing selected it raises and changes nothing |
| Display.Query.NextPosition | STELC_Display.py:234-243 | the cursor moves to the position of `NextIndex` of the old cursor |
| Display.Query.PrevPosition | STELC_Display.py:245-254 | the cursor moves to the position of `PrevIndex` of the old cursor |
| Display.Query.SelectAtCursor | STELC_Display.py:397-401 | the last response at the cursor becomes the selection; with none, the old selection stays |
| Display.Query.MakeMessage | STELC_Display.py:256-262 | the line is the message overlaid, the labels spliced and the cursor marked |
| Display.FirstActive | STELC_Display.py:383-385 | the loop stops at the first active query; none before it is active |
| Display.FirstActiveIsOnlyActive | STELC_Display.py:383-385 | when one query is the only active one, the loop finds it |
| Display.QueryBlock.constructor | STELC_Display.py:287-306 | a new block holds the given queries, picks the default by Python indexing (none for no queries), blanks the line and starts IDLE |
| Display.QueryBlock.SetDefaultQuery | STELC_Display.py:308-309 | an index in range picks the default as Python does; out of range raises `IndexError` and keeps the default |
| Display.QueryBlock.AddQuery | STELC_Display.py:325-327 | the query is appended and becomes the default when asked |
| Display.QueryBlock.ClearMessage | STELC_Display.py:329-330 | the line is blank |
| Display.QueryBlock.DeactivateAll | STELC_Display.py:314 | every query ends inactive and nothing else about them changes |
| Display.QueryBlock.ActivateDefault | STELC_Display.py:311-316 | with a default, it is the only active query; without, nothing changes |
| Display.QueryBlock.ActivateQueryNum | STELC_Display.py:318-323 | a number in range leaves exactly that query active; anything else changes nothing; no cursor or selection moves |
| Display.QueryBlock.FindActive | STELC_Display.py:383-385 | the index the loop stops at |
| Display.QueryBlock.SelectResponse | STELC_Display.py:396-432 | a selection needing verification deactivates the query and appends one fresh active verifier; any other selection blanks the line, deactivates the query, takes a verifier out of the list and fires its action; no selection changes nothing |
| Display.QueryBlock.HandlePress | STELC_Display.py:365-437 | a press in OFF only wakes to IDLE; in IDLE or PROCESS it activates the default alone and enters QUERY, moving no cursor or selection; in QUERY the first active query handles it (`ActivePress`: right/left move its cursor, up/down activate the named query, select as above, and no other query's cursor or selection moves), and with no active query nothing happens |
| Display.QueryBlock.PressActive | STELC_Display.py:388-432 | the active query's button effect, `ActivePress`: right and left move only its cursor, up and down only set which query is active, select is `SelectEffect`; no other query's cursor or selection changes |
| Display.EnteredState | STELC_Display.py:341-358 | the state after the idle timer and the three requests, the last request winning; `QueryBlock.EnterRequested` is proved to reach it, and `QueryBlock.Update` states its outcome in terms of it |
| Display.QueryBlock.EnterRequested | STELC_Display.py:341-358 | IDLE past the idle delay becomes OFF; a later request wins over an earlier one; any request blanks the line |
| Display.QueryBlock.Refresh | STELC_Display.py:443-464 | in QUERY the line shows the first active query; with none it is blank and the block reverts to `saveState` unless that is QUERY; any state change saves the prior state |
| Display.QueryBlock.ShowQuery | STELC_Display.py:443-459 | the QUERY branch of the refresh, as above |
| Display.QueryBlock.Update | STELC_Display.py:332-470 | a press acts only when it differs from the last reading, which then always becomes this reading; OFF with a press returns to IDLE with the line kept; IDLE or PROCESS with a press enters QUERY with the default as the only active query shown; without a press a requested state other than QUERY stands with the line blanked if anything was requested, and QUERY shows the first active query or, with none, a blank line and the saved state; any state change saves the prior state |
| Display.QueryBlock.PressThenRefresh | STELC_Display.py:365-464 | a press followed by the refresh: OFF gives IDLE with the line and queries kept, IDLE or PROCESS gives QUERY showing the default query |
| Copier.Lookup | STELC_Copier.py:46-53 | `info[key]` succeeds exactly when the key is present, giving its value |
| Copier.LeadingSpaces | STELC_Copier.py:79 | the indent run of `( +)` ends at the first non-space |
| Copier.LeadingSpacesAreSpaces | STELC_Copier.py:79 | every character of the indent is a space |
| Copier.ColonFrom | STELC_Copier.py:79 | the key ends at a colon |
| Copier.ColonFromIsFirst | STELC_Copier.py:79 | that colon is the first one after the key's first character |
| Copier.MatchInfoLine | STELC_Copier.py:79 | `re.search('^( +)([^ ][^:]*): *([^ ].*)?$', item)` with its three groups; its meaning is in `MatchInfoLineOf` (every line of that shape matches), `MatchInfoLineComplete`, `MatchInfoLineParts`, `MatchInfoLinePieces` and `MatchInfoLineSound` (a match is exactly its pieces), with `LeadingSpaces` and `ColonFrom` for the indent and the key |
| Copier.MatchInfoLineOf | STELC_Copier.py:79-81 | an indent, a key without colons after its first character, a colon and any rest match, giving that indent and key |
| Copier.MatchInfoLineComplete | STELC_Copier.py:79-81 | every line of the pattern's shape matches, with the value after the spaces, or `None` when nothing follows |
| Copier.MatchInfoLineParts | STELC_Copier.py:79-81 | every match has an indent of at least one space, a key that starts with a non-space and has no colon after its first character, and a value that starts with a non-space |
| Copier.MatchInfoLinePieces | STELC_Copier.py:79-81 | a matched line splits into the indent, the key, a colon and the rest, the value being read from the rest |
| Copier.MatchInfoLineSound | STELC_Copier.py:79-81 | a matched line is exactly indent, key, colon, some spaces and the value |
| Copier.LastField | STELC_Copier.py:77 | `info[0].split(' ')[-1]`; `LastFieldIsLastWord` states that it is the space-free end of the line after its last space |
| Copier.LastFieldIsLastWord | STELC_Copier.py:77 | the object path is the suffix after the last space of the first line, holds no space, and follows a space unless it is the whole line |
| Copier.ParseLine | STELC_Copier.py:79-96 | one pass of the loop body of `getInfoDict`: a rejected line changes nothing (`ParseLineIgnores`), a matched one goes to `Nest` |
| Copier.Nest | STELC_Copier.py:83-96 | where a matched line goes by its indent, with Python's KeyError and TypeError; stated by `NestTopLevel`, `NestSecondLevel`, `NestThirdLevel` and `ParseLineIgnores` |
| Copier.ParseLines | STELC_Copier.py:78-96 | the `for item in info[1:]` loop, ending at the first exception; `ParseErrors`, `ParseErrorSticks` and `ObjectPathKept` state its meaning, and `Copy.GetInfoDict` is proved equal to it through `InfoDict` |
| Copier.NestTopLevel | STELC_Copier.py:83-85 | a 2-space line sets a top-level key, touches no other key, and becomes the current first-level key |
| Copier.NestSecondLevel | STELC_Copier.py:86-91 | a 4-space line raises `KeyError` exactly when the current first-level key is missing; otherwise it nests under it, a string or `None` parent first replaced by a new dictionary, and becomes the current second-level key |
| Copier.NestThirdLevel | STELC_Copier.py:92-96 | a 6-space line nests under the current second-level key, with `KeyError` or `TypeError` as Python raises them, and touches nothing else |
| Copier.ParseLineIgnores | STELC_Copier.py:79-83 | a line the pattern rejects, or one with another indent, changes nothing |
| Copier.InfoDict | STELC_Copier.py:69-97 | no output raises `IndexError`; the only exceptions are `IndexError`, `KeyError` and `TypeError` |
| Copier.ParseErrors | STELC_Copier.py:78-96 | the line loop raises only `KeyError` or `TypeError` |
| Copier.ParseErrorSticks | STELC_Copier.py:78-96 | once a line raises, the later lines do not matter |
| Copier.ParseInfoDict | STELC_Copier.py:73-97 | the loop computes the parse of the lines |
| Copier.ShowInfo | STELC_Copier.py:76 | `udisks --show-info d`: a failing command raises `CalledProcessError`, otherwise its lines are parsed by `InfoDict`; `Copy.GetInfoDict` is proved equal to it |
| Copier.ObjectPathKept | STELC_Copier.py:77-96 | the object path from the first line survives unless a later 2-space line sets "object path" |
| Copier.NestedFirstRaises | STELC_Copier.py:86-96 | a nested line before any top-level line raises `KeyError('')` |
| Copier.Put | STELC_Copier.py:65 | `devDict[k] = v` maps `k` to `v`, a new key listed last and an old one kept in place |
| Copier.PartitionTarget | STELC_Copier.py:46-48 | the outer test of `getRemovableFilesystems` and the `dObj` it reads, raising as the lookups do; `PartitionTargetMeaning` states it exactly |
| Copier.PartitionTargetMeaning | STELC_Copier.py:46-48 | a partition qualifies exactly when it is a writable file system, and its target is its `partition/part of` |
| Copier.IsParent | STELC_Copier.py:50-53 | the inner test, raising as the lookups do; `IsParentMeaning` states it exactly |
| Copier.IsParentMeaning | STELC_Copier.py:50-53 | the inner test holds exactly for a removable, detachable, writable drive with that object path |
| Copier.ParentsOf | STELC_Copier.py:49-54 | the inner loop over the devices; `ParentsOfMembers` states which pairs it lists, and `Copy.ParentsOfPartition` is proved equal to it |
| Copier.ParentsOfMembers | STELC_Copier.py:49-54 | the inner loop lists exactly the drives that pass the inner test |
| Copier.Removables | STELC_Copier.py:44-55 | both loops of `getRemovableFilesystems`; `RemovablesMembers` and `RemovablesExact` state that it lists exactly the chosen pairs, and `Copy.GetRemovableFilesystems` is proved equal to it |
| Copier.RemovablesMembers | STELC_Copier.py:45-54 | the outer loop lists exactly the pairs of a qualifying partition and a drive it is part of |
| Copier.RemovablesExact | STELC_Copier.py:38-55 | over the whole dictionary, a pair is listed if and only if the partition is a writable file system on a removable, detachable, writable drive |
| Copier.FirstToken | STELC_Copier.py:109 | `split()[0]`, or nothing for an all-whitespace text; stated by `FirstTokenNone` and `FirstTokenSome` |
| Copier.FirstTokenNone | STELC_Copier.py:109 | `split()` is empty exactly when the text is all whitespace |
| Copier.FirstTokenSome | STELC_Copier.py:109 | `split()[0]` is the first maximal run of non-whitespace |
| Copier.MountPath | STELC_Copier.py:108-109 | one pass of `getUsbMounts`' loop; `MountPathMeaning` states it exactly |
| Copier.MountPathMeaning | STELC_Copier.py:108-109 | a partition contributes a mount exactly when it is mounted, and that mount is the first token of its mount paths |
| Copier.UsbMounts | STELC_Copier.py:105-110 | `getUsbMounts`; `UsbMountsAppend` and `UsbMountsShape` state its order and shape, and `Copy.GetUsbMounts` is proved equal to it |
| Copier.UsbMountsAppend | STELC_Copier.py:105-110 | the mounts of two lists are the mounts of each, in order |
| Copier.UsbMountsShape | STELC_Copier.py:105-110 | there are never more mounts than pairs, and each is a non-empty token |
| Copier.PercentAt | STELC_Copier.py:167 | the pattern `\s([0-9]+%)\s` tried at one position; `FindPercentFound` states what a match is (white space, digits and `%`, white space) and `FindPercentNone` that no position matches when nothing is found |
| Copier.FindPercent | STELC_Copier.py:167 | `re.search('\s([0-9]+%)\s', line)` and its group; `FindPercentFound` and `FindPercentNone` state it exactly |
| Copier.FindPercentFound | STELC_Copier.py:167 | a percentage found is the first whitespace-delimited run of digits followed by `%` |
| Copier.FindPercentNone | STELC_Copier.py:167 | no percentage means no position holds one |
| Copier.ProgressText | STELC_Copier.py:168 | `"%d.%d %s" % (mntCount, fileCount, pct)`, the half-file count truncated by `%d`; used by `RsyncLastPercent` |
| Copier.IsFileLine | STELC_Copier.py:164 | `re.search('^[^ ]', line)`: a non-empty line whose first character is not a space; `RsyncHalves` states that each such line adds half a file |
| Copier.RsyncStep | STELC_Copier.py:163-168 | one line read from rsync: a file line adds half a file, a percentage line sets the progress text; stated over a run by `RsyncHalves`, `RsyncLastPercent` and `RsyncNoPercent` |
| Copier.RsyncFold | STELC_Copier.py:157-170 | the lines of one rsync run read in order; `RsyncHalves`, `RsyncLastPercent` and `RsyncNoPercent` state its meaning, and `Copy.ReadRsync` is proved equal to it |
| Copier.RsyncHalves | STELC_Copier.py:164 | the file count grows by half a file for each line starting with a non-space |
| Copier.RsyncLastPercent | STELC_Copier.py:157-170 | the progress shows `"<mount>.<files> N%"` from the last percentage line, with the files counted before it |
| Copier.RsyncNoPercent | STELC_Copier.py:164-168 | without a percentage line the progress is left as it was |
| Copier.Fresh | STELC_Copier.py:16-21 | a new copier has count 1, shows `^`, and has no devices |
| Copier.Incr | STELC_Copier.py:23-25 | `incrProgress`; `IncrCycle` states one more per call and a period of five, and `Copy.IncrProgress` is proved equal to it |
| Copier.IncrCycle | STELC_Copier.py:23-25 | each increment raises the count by exactly 1 and shows the count's frame; five increments show the same frame again |
| Copier.Contains | STELC_Copier.py:62 | the substring test of `grep -v "dev/disk"`; `KeptMeaning` states that the lines kept are exactly those not containing it |
| Copier.Kept | STELC_Copier.py:62 | `grep -v` keeps no more lines than it is given |
| Copier.KeptMeaning | STELC_Copier.py:62 | `grep -v "dev/disk"` keeps exactly the listed lines without "dev/disk" |
| Copier.KeptNone | STELC_Copier.py:62 | when every line has "dev/disk" nothing is kept |
| Copier.DeviceDict | STELC_Copier.py:63-67 | the dictionary built is well formed |
| Copier.DeviceDictEntries | STELC_Copier.py:64-65 | its keys are exactly the devices, and each holds that device's parsed info |
| Copier.DeviceDictCount | STELC_Copier.py:64-66 | one increment per device, nothing else of the state changed |
| Copier.GetDeviceDictSpec | STELC_Copier.py:57-67 | `getDeviceDict`: the grep filter, then one parsed entry and one increment per device; stated by `KeptMeaning`, `DeviceDictEntries` and `DeviceDictCount` |
| Copier.UpdateSpec | STELC_Copier.py:30-36 | `updateDeviceAttributes`; `UpdateMeaning` and `UpdateNoDevices` state its meaning, and `Copy.UpdateDeviceAttributes` is proved equal to it |
| Copier.UpdateMeaning | STELC_Copier.py:30-36 | a successful update counts one plus one per device, keeps exactly the listed devices, and lists exactly the chosen pairs |
| Copier.UpdateNoDevices | STELC_Copier.py:30-36 | with no device left by the filter, `grep` fails and the update raises `CalledProcessError` after one increment |
| Copier.Needed | STELC_Copier.py:99-122 | the guard of `mount`, `unmount` and `detach` (not mounted, mounted, detachable); `NotNeededIgnoresCommand` and `CommandMeaning` state its role |
| Copier.CommandSpec | STELC_Copier.py:99-122 | `mount`, `unmount` and `detach`; `CommandMeaning`, `NotNeededIgnoresCommand` and `NeededFails` state its meaning, and `Copy.RunCommand` is proved equal to it |
| Copier.CommandMeaning | STELC_Copier.py:99-122 | a command that completes reads both device files again, changes no other entry, and increments once; one that raises leaves count and progress alone |
| Copier.RefreshSpec | STELC_Copier.py:102 | `self.devDict[d] = self.getInfoDict(d)`; `RefreshMeaning` states that only that key changes |
| Copier.RefreshMeaning | STELC_Copier.py:102 | re-reading a device file stores its info under that key and nothing else |
| Copier.NotNeededIgnoresCommand | STELC_Copier.py:99-122 | when the command is not needed its outcome does not matter |
| Copier.NeededFails | STELC_Copier.py:99-122 | a needed command that fails raises `CalledProcessError` and changes nothing |
| Copier.PyStr | STELC_Copier.py:133 | `"%s"` of a label: a string is itself and `None` is `None`; `TryMeaning` states the `"<label> mount fail"` and `"<label> unmount fail"` texts built with it |
| Copier.TrySpec | STELC_Copier.py:129-191 | a command under `copy`'s bare `try`/`except`, with its handler's progress text; `TryMeaning` states it exactly, and `Copy.TryCommand` is proved equal to it |
| Copier.TryMeaning | STELC_Copier.py:129-191 | a failed command is caught; the handler raises exactly when the partition or its label is missing; otherwise a mount failure shows `"<label> mount fail"`, an unmount failure `"<label> unmount fail"`, and a detach failure leaves the progress alone |
| Copier.MountAllSpec | STELC_Copier.py:130-135 | the mount loop, continuing past caught failures; `MountAllKeepsDevices` states that it keeps the list of sticks, and `Copy.MountAll` is proved equal to it |
| Copier.MountAllKeepsDevices | STELC_Copier.py:130-135 | the mount loop does not change the list of sticks |
| Copier.UnmountOneSpec | STELC_Copier.py:181-191 | one pass of the unmount loop: unmount's `try`, then detach's `try`, each stated by `TryMeaning` |
| Copier.UnmountAllSpec | STELC_Copier.py:180-191 | the unmount-and-detach loop; `UnmountAllKeepsDevices` states that it keeps the list of sticks, and `Copy.UnmountAll` is proved equal to it |
| Copier.UnmountAllKeepsDevices | STELC_Copier.py:180-191 | the unmount-and-detach loop does not change the list of sticks |
| Copier.RsyncAll | STELC_Copier.py:141-170 | rsync to each mount point in turn, numbered from 1; stated by `RsyncAllNoPercent` and `CopyFilesLastPercent` |
| Copier.CopyFilesSpec | STELC_Copier.py:139-172 | the copy loop over `getUsbMounts`' result; `CopyFilesLastPercent` states its progress text, and `Copy.CopyFiles` is proved equal to it |
| Copier.RsyncAllNoPercent | STELC_Copier.py:141-170 | without percentage lines the rsync loop leaves the progress alone |
| Copier.CopyFilesLastPercent | STELC_Copier.py:141-170 | after the rsync loop the progress shows the last percentage of the last mount, numbered by mount count |
| Copier.CopySpec | STELC_Copier.py:124-194 | a copy that completes ends with progress "DONE" |
| Copier.CopyNoDevices | STELC_Copier.py:129 | with no device at all the copy raises `CalledProcessError` in its first update |
| Copier.Copy.constructor | STELC_Copier.py:16-21 | a new copier is in the fresh state |
| Copier.Copy.IncrProgress | STELC_Copier.py:23-28 | one increment of the state |
| Copier.Copy.GetInfoDict | STELC_Copier.py:69-97 | the parse of the device's info, or `CalledProcessError` when udisks fails |
| Copier.Copy.GetDeviceDict | STELC_Copier.py:57-67 | the dictionary of the kept devices, with their increments |
| Copier.Copy.ParentsOfPartition | STELC_Copier.py:49-54 | the inner loop computes the list of parent drives |
| Copier.Copy.GetRemovableFilesystems | STELC_Copier.py:38-55 | the nested loops compute the list of chosen pairs |
| Copier.Copy.UpdateDeviceAttributes | STELC_Copier.py:30-36 | the update of the state |
| Copier.Copy.Refresh | STELC_Copier.py:102 | re-reading one device file |
| Copier.Copy.RunCommand | STELC_Copier.py:99-122 | one `mount`, `unmount` or `detach` |
| Copier.Copy.TryCommand | STELC_Copier.py:131-133 | one command inside its `try` |
| Copier.Copy.MountAll | STELC_Copier.py:130-135 | the mount loop, processing continuing past failures |
| Copier.Copy.GetUsbMounts | STELC_Copier.py:105-110 | the loop computes the mounts of the pairs, in order |
| Copier.Copy.ReadRsync | STELC_Copier.py:157-170 | reading rsync's lines changes only the progress, as the fold says |
| Copier.Copy.CopyFiles | STELC_Copier.py:140-173 | the rsync loop over every mount |
| Copier.Copy.UnmountOne | STELC_Copier.py:181-191 | unmount then detach of one stick |
| Copier.Copy.UnmountAll | STELC_Copier.py:180-191 | the unmount-and-detach loop, processing continuing past failures |
| Copier.Copy.Copy | STELC_Copier.py:124-194 | the whole copy; when it completes the progress is "DONE" |

## Left out

- Threads and timing: `threading.Thread`, `start`, `Event.wait` (STELC_pi.py:116), `time.sleep`, `time.time()` and `timeOfState`. Elapsed-time tests are boolean parameters and a tick is a method call; interleavings of the threads are not modelled.
- `Action.do` (`exec` of compiled code) and the controller's `dir(self)` namespace (STELC_pi.py:37-40): actions are opaque tags, and `QueryBlock.Update` returns the fired action rather than running it, so an action that re-enters the display is not modelled.
- The LCD: `Display`, `Display.on`/`off`/`fail`, `buttonCheck`, `lcd.message`, `setCursor`, `TimeBlock` and the copy of the message to `out` (STELC_Display.py:467-469). The controller's display is reduced to the status text, the panel state and the default query, and the nested `display.update(PROCESS)`/`update(IDLE)` calls are reduced to that panel state.
- The `self.display.update()` call that ends every iteration of `Controller.run` (STELC_pi.py:192), and with it the path by which a selected "Record?" or "Cancel?" response reaches `record()` or `cancel()`: `Pi.Controller.Tick` runs only the event handlers, `Display.QueryBlock.Update` returns the fired action instead of running it, and the two are not connected; `Record` and `Cancel` are modelled as methods a caller invokes.
- `showAll`, `timeLeft` and the `DEBUG` prints (except the label read of the detach handler, which can raise and is modelled).
- STELC_Scheduler.py, STELC_Uploader.py, STELC_UploaderGoogleDrive.py and STELC_Recorder.py are not part of this model. The module imported as `sR` (STELC_pi.py:4) is assumed to be a recorder library that provides both `sR.Record` (STELC_pi.py:288) and `sR.RecordingError` (raised at STELC_pi.py:249, 262, 279, 301 and 318); the STELC_Recorder.py script in the repository, which records with pyaudio when imported, defines neither. A take is modelled by its length, file name and paused flag.
- Pi.Recorder.Run: runs at most `maxTicks` iterations, and Pi.Controller.Run one iteration per stream reading, because the Python loops have no bound; the trace says what each tick ran but relates the events after a tick to those before the next only through `IsTrace`.
- Pi.Controller.Cancel: the `self.recorder.stopRecording()` line under the never-true test is not written out; the contract states its consequence (the recorder changes only through the `recording()` handler).
- Display.QueryBlock.Update: with a press in QUERY, the effect on the active query is stated by `HandlePress` and `PressActive`, and with a press in IDLE or PROCESS whose default is not in the list, by `HandlePress` and `Refresh`; neither is repeated in the ensures of `Update`.
- Display.QueryBlock.PressThenRefresh: states only the OFF, IDLE and PROCESS cases; the QUERY case is stated by `HandlePress` and `Refresh`.
- The default argument `query=Query()` of `addQuery` (one shared query object) is not modelled; `AddQuery` takes the query.
- Python 2 dictionary key order is not modelled: `devDict.keys()` is the order the devices were inserted (`DevDict.order`).
- Copier.PyStr: `"%s"` of a nested dictionary is shown as `{...}` rather than as its repr.
- `subprocess`: the `udisks`/`rsync` commands, their exit codes and outputs are parameters. The `udisks` output is given as the lines `splitlines` makes, without line breaks. The `rsync` output is given as the lines `readline` returns, each still ending in its line break (with universal newlines a carriage return reads as one too); the whitespace test `IsSpace` counts the line break, as `\s` does.
- The rsync pipe: all lines of a run are read; lines still buffered when `poll()` first reports completion, rsync's standard error and the `copy_stdout.log`/`copy_stderr.log` writes are not modelled.
