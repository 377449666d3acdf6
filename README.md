# Empathy file transfer and Pidgin import, in Dafny

This project models two pieces of the Empathy instant-messaging client and
proves properties of the models.

**The file-transfer object (`libempathy/empathy-tp-file.c`).** It has three parts.

- **The stream copier** (`tp_file_copy.dfy`, module `TpFileCopy`).
  - This is the `CopyData` record that pumps bytes between the Unix socket and the local file. It uses two buffers used as a ring, with a read cursor and a write cursor.
  - The guard flags `is_reading` and `is_writing` allow one read and one write at a time.
  - A full buffer with a count of 0 marks the end of the file.
  - A close counter and a reference count decide when the record would be released.
  - Each asynchronous completion is a method taking the completion's result.
  - `Pump` is a snapshot of the record's fields. The callbacks are step functions on it. `Inv` is the invariant every callback keeps.
  - The class `CopyData` holds the buffers as arrays, and each method is proved to move its snapshot as its step function says.
- **The transfer record** (`tp_file_state.dfy`, module `TpFileState`).
  - This covers the transfer state and its change reason, readiness, the socket address, and the progress estimate (speed and remaining time).
  - It also covers the stall timeout, cancellation, and the public getters.
  - It follows the same pattern: a `Snap` snapshot, one step function per callback, an invariant `Inv`, and a class `TpFile` whose methods follow the step functions.
- **The per-channel registry `ft_table`** (`tp_file_registry.dfy`, module `TpFileRegistry`). At most one transfer object exists per channel. Channels are keyed by bus name and object path.

**The Pidgin importer (`src/empathy-import-dialog.c`)** is in `pidgin_import.dfy`, module `PidginImport`.
- It reads the `<account>` elements of Pidgin's accounts.xml, given as a tree of `Node` values.
  - The protocol name is normalised.
  - The `name` child is split into a user name and, for IRC, a server.
  - Typed settings are translated through the Pidgin-to-Mission-Control table.
  - The keep/drop rule is applied.
- It also decides whether an imported account starts ticked in the dialog.

`wrappers.dfy` holds the `Option` and `Result` types. They stand for nullable pointers and for replies that carry a GError.

Outside inputs are parameters:
- the clock is `now`;
- whether the socket could be created and connected is `connected`;
- `g_ascii_strtod` followed by the cast to `gint` is `strtod`.

Outside effects are recorded rather than performed:
- channel Close requests, stream closes and issued reads and writes are counters and flags;
- notifications and signals are appended to a list;
- timeouts are source ids in a set of live sources.

Four places where the code and the comments beside it disagree. The model follows the code.
- The documentation of `empathy_tp_file_is_ready` (libempathy/empathy-tp-file.c:1164-1175) calls the object ready when its state is no longer None *or* the contact is known. The code sets `ready` only when both hold (libempathy/empathy-tp-file.c:564-573).
- The free branch of `copy_data_unref` is never taken. The reference count starts at 1 and is never incremented, and `n_closed` is only bumped when the count reaches exactly 0. So after both streams close, the count is -1, `n_closed` is 1, and the record is never released. This is stated in `TpFileCopy.UnrefStep` and `TpFileCopy.CopyTwoChunks`.
- `write_done_cb` treats any positive count as a complete write. When a write takes only part of the buffer, the rest of that chunk never reaches the output. This is stated in `TpFileCopy.WriteCompleted`.
- `tp_file_stalled_cb` does not clear `stalled_id`. The next byte-count update removes a timeout that has already fired. This is stated in `TpFileState.StalledKeepsInv`.

## Model

| member | source | states |
|---|---|---|
| `TpFileCopy.ScheduleRead` | libempathy/empathy-tp-file.c:217-228 | starting a read keeps the two-slot shape of buffers and cursors |
| `TpFileCopy.ScheduleWrite` | libempathy/empathy-tp-file.c:230-254 | closing the output or starting a write keeps the two-slot shape |
| `TpFileCopy.Schedule` | libempathy/empathy-tp-file.c:214-255 | schedule_next keeps the two-slot shape |
| `TpFileCopy.ScheduleKeepsInv` | libempathy/empathy-tp-file.c:214-255 | a read is issued exactly when the input is open, no read is outstanding and the read slot is empty; the output is closed exactly when no write is outstanding and the write slot holds the zero-count end-of-file buffer; otherwise a full write slot is written; buffers, cursors and chunks are untouched; the invariant is kept |
| `TpFileCopy.Started` | libempathy/empathy-tp-file.c:257-282 | copy_stream leaves the record in the two-slot shape |
| `TpFileCopy.StartedInv` | libempathy/empathy-tp-file.c:257-282 | after copy_stream exactly one read is outstanding, no write, both streams open, nothing read or written, one reference held, and the invariant holds |
| `TpFileCopy.UnrefStep` | libempathy/empathy-tp-file.c:97-122 | each unref drops the count by one; the record is released only by the call that brings the count to 0 with n_closed reaching 2; from every state the callbacks reach, it is never released |
| `TpFileCopy.ErrorStep` | libempathy/empathy-tp-file.c:124-144 | io_error on the snapshot; what it does is stated by ErrorKeepsInv |
| `TpFileCopy.CloseStep` | libempathy/empathy-tp-file.c:146-155 | close_done on the snapshot; what it does is stated by CloseKeepsInv |
| `TpFileCopy.ErrorKeepsInv` | libempathy/empathy-tp-file.c:124-144 | io_error cancels, closes each stream still set once more, drops one reference, leaves buffers, cursors and guard flags alone, and restores the invariant from any state a callback enters it in |
| `TpFileCopy.CloseKeepsInv` | libempathy/empathy-tp-file.c:146-155 | each issued close completes at most once, drops one reference and keeps the invariant |
| `TpFileCopy.ReadStored` | libempathy/empathy-tp-file.c:193-210 | storing a read keeps the two-slot shape |
| `TpFileCopy.ReadStoredKeepsInv` | libempathy/empathy-tp-file.c:193-210 | storing a completed read keeps the invariant and leaves the output open |
| `TpFileCopy.ReadStep` | libempathy/empathy-tp-file.c:182-212 | read_done_cb on the snapshot: a negative count goes to io_error, any other is stored and the next operations are scheduled; stated by ReadFailed, ReadCompleted and ReadStepKeepsInv |
| `TpFileCopy.ReadStepKeepsInv` | libempathy/empathy-tp-file.c:182-212 | read_done_cb keeps the invariant whatever count the read returns |
| `TpFileCopy.ReadFailed` | libempathy/empathy-tp-file.c:199-204 | a negative count goes to io_error: slots and read cursor unchanged, is_reading left set, one more error, the copy cancelled |
| `TpFileCopy.ReadCompleted` | libempathy/empathy-tp-file.c:193-211 | a count n >= 0 is stored in the read slot, which is marked full, and the read cursor advances modulo 2; n = 0 closes the input for good and no read is outstanding after it; n > 0 appends the chunk to what was read |
| `TpFileCopy.WriteStored` | libempathy/empathy-tp-file.c:175-177 | storing a write keeps the two-slot shape |
| `TpFileCopy.WriteStoredKeepsInv` | libempathy/empathy-tp-file.c:175-179 | a positive write count fits in the buffer, and storing it keeps the invariant with the output open |
| `TpFileCopy.WriteStep` | libempathy/empathy-tp-file.c:157-180 | write_done_cb on the snapshot: a count <= 0 goes to io_error, any other is stored as written and the next operations are scheduled; stated by WriteFailed, WriteCompleted and WriteStepKeepsInv |
| `TpFileCopy.WriteStepKeepsInv` | libempathy/empathy-tp-file.c:157-180 | write_done_cb keeps the invariant whatever count the write returns |
| `TpFileCopy.WriteFailed` | libempathy/empathy-tp-file.c:168-173 | a count <= 0 goes to io_error: slots, write cursor and output unchanged, is_writing left set, the copy cancelled |
| `TpFileCopy.WriteCompleted` | libempathy/empathy-tp-file.c:175-179 | a positive count puts that prefix of the pending chunk on the output, empties the write slot and advances the write cursor modulo 2; when the count is short of the buffer, the output received a strict prefix of the chunk |
| `TpFileCopy.SinkIsPrefixOfSource` | libempathy/empathy-tp-file.c:175-208 | writes consume chunks in the order reads filled them: with complete writes the chunks written are the first chunks read, and the output bytes are a prefix of the input bytes |
| `TpFileCopy.CopyComplete` | libempathy/empathy-tp-file.c:233-241 | once the output is closed, the input is closed, nothing is outstanding and every chunk read was written; with complete writes output equals input; with no error each stream was closed exactly once |
| `TpFileCopy.Deliver` | libempathy/empathy-tp-file.c:146-212 | an accepted read completion acts as read_done_cb, an accepted write completion (whose count fits the pending buffer) as write_done_cb, and an accepted close completion as close_done |
| `TpFileCopy.DeliverKeepsInv` | libempathy/empathy-tp-file.c:146-212 | every completion that can arrive keeps the invariant |
| `TpFileCopy.Run` | libempathy/empathy-tp-file.c:146-255 | completions applied in the order they arrive, None as soon as one cannot arrive; stated by RunKeepsInv and CopyTwoChunks |
| `TpFileCopy.RunKeepsInv` | libempathy/empathy-tp-file.c:146-255 | every sequence of completions that can arrive keeps the invariant |
| `TpFileCopy.TwoChunkFirstRead` | libempathy/empathy-tp-file.c:182-255 | the first read of a two-chunk copy starts a write of it and a read into the other buffer |
| `TpFileCopy.TwoChunkLaterReads` | libempathy/empathy-tp-file.c:182-212 | the second chunk fills the second buffer; end of file fills the first buffer with a zero count and closes the input |
| `TpFileCopy.TwoChunkWrites` | libempathy/empathy-tp-file.c:157-180 | each whole write empties its buffer; the second one brings the write cursor to the end-of-file buffer and closes the output |
| `TpFileCopy.TwoChunkCloses` | libempathy/empathy-tp-file.c:146-155 | the two close completions drop the reference count to 0 then -1 |
| `TpFileCopy.CopyTwoChunks` | libempathy/empathy-tp-file.c:97-282 | a two-chunk copy with whole writes delivers both chunks in order, closes each stream once, and ends with reference count -1 and n_closed 1, so the record is never released |
| `TpFileCopy.CopyData.constructor` | libempathy/empathy-tp-file.c:257-282 | copy_stream allocates fresh buffers and leaves the record as Started, with the invariant |
| `TpFileCopy.CopyData.ScheduleNext` | libempathy/empathy-tp-file.c:214-255 | the record moves as Schedule says |
| `TpFileCopy.CopyData.MaybeRead` | libempathy/empathy-tp-file.c:217-228 | the record moves as ScheduleRead says |
| `TpFileCopy.CopyData.MaybeWrite` | libempathy/empathy-tp-file.c:230-254 | the record moves as ScheduleWrite says |
| `TpFileCopy.CopyData.Unref` | libempathy/empathy-tp-file.c:97-122 | the record moves as UnrefStep says |
| `TpFileCopy.CopyData.IoError` | libempathy/empathy-tp-file.c:124-144 | the record moves as ErrorStep says |
| `TpFileCopy.CopyData.CancelAndClose` | libempathy/empathy-tp-file.c:128-141 | cancelled is set, one more error counted, a close counted for each stream still open, every other field unchanged |
| `TpFileCopy.CopyData.CloseDone` | libempathy/empathy-tp-file.c:146-155 | close_done keeps the invariant and moves the record as CloseStep says |
| `TpFileCopy.CopyData.ReadDone` | libempathy/empathy-tp-file.c:182-212 | read_done_cb keeps the invariant and moves the record as ReadStep says |
| `TpFileCopy.CopyData.ApplyRead` | libempathy/empathy-tp-file.c:191-211 | the record moves as ReadStep says |
| `TpFileCopy.CopyData.StoreRead` | libempathy/empathy-tp-file.c:193-210 | the record moves as ReadStored says |
| `TpFileCopy.CopyData.AdvanceRead` | libempathy/empathy-tp-file.c:193-209 | a zero count closes the input and counts a close, any other appends the chunk; the read cursor advances modulo 2, no read is outstanding, and the other fields are unchanged |
| `TpFileCopy.CopyData.FillSlot` | libempathy/empathy-tp-file.c:206-207 | only the given slot changes: it holds the data and the count and is marked full |
| `TpFileCopy.CopyData.WriteDone` | libempathy/empathy-tp-file.c:157-180 | write_done_cb keeps the invariant and moves the record as WriteStep says |
| `TpFileCopy.CopyData.ApplyWrite` | libempathy/empathy-tp-file.c:166-179 | the record moves as WriteStep says |
| `TpFileCopy.CopyData.StoreWrite` | libempathy/empathy-tp-file.c:175-177 | the record moves as WriteStored says |
| `TpFileState.Wrap64` | libempathy/empathy-tp-file.c:553 | guint64 subtraction: the result is in [0, 2^64) and is the difference when no wrap-around occurs, or the difference plus 2^64 when it underflows |
| `TpFileState.Estimate` | libempathy/empathy-tp-file.c:555-556 | at a positive speed, the remaining time is the whole number of seconds r with r * speed <= bytes < (r + 1) * speed; at speed 0 it is -1 |
| `TpFileState.ProgressStep` | libempathy/empathy-tp-file.c:531-561 | the speed stays non-negative |
| `TpFileState.ProgressUpdate` | libempathy/empathy-tp-file.c:531-561 | an update equal to the stored count changes nothing; any other is stored; speed, remaining time and snapshot change only when a second has passed, and then speed times elapsed time equals the bytes moved since the snapshot (mod 2^64) and the remaining time is what is left of the size at that speed |
| `TpFileState.AtMostOneRecomputePerSecond` | libempathy/empathy-tp-file.c:549-561 | after a recomputation, an update less than a second later leaves speed, remaining time and snapshot time alone |
| `TpFileState.RemainingTimeOf` | libempathy/empathy-tp-file.c:1103-1115 | -1 for an unknown size, 0 once the transferred count equals the size, otherwise the stored estimate |
| `TpFileState.SpeedOf` | libempathy/empathy-tp-file.c:1127-1136 | 0 once the transferred count equals the size, otherwise the stored speed |
| `TpFileState.GettersAtCompletion` | libempathy/empathy-tp-file.c:1103-1136 | an update that brings the count to the size makes the speed 0 and the remaining time 0, or -1 for an unknown size |
| `TpFileState.ProgressExample` | libempathy/empathy-tp-file.c:549-561 | a 1000-byte transfer at 400 bytes in the first second reports speed 400 and 1 second left, then 0 and 0 when done |
| `TpFileState.Initial` | libempathy/empathy-tp-file.c:286-315 | the zeroed record satisfies the invariant |
| `TpFileState.CancelStep` | libempathy/empathy-tp-file.c:1151-1162 | empathy_tp_file_cancel on the snapshot; stated by CancelKeepsInv |
| `TpFileState.CancelKeepsInv` | libempathy/empathy-tp-file.c:1151-1162 | cancel asks the channel to close once more and cancels the copy exactly when one was started; the state is untouched |
| `TpFileState.StartTransferStep` | libempathy/empathy-tp-file.c:431-486 | tp_file_start_transfer on the snapshot; stated by StartTransferKeepsInv |
| `TpFileState.CopyStartedStep` | libempathy/empathy-tp-file.c:460-485 | the connected half of tp_file_start_transfer; stated by StartTransferKeepsInv |
| `TpFileState.StartTransferKeepsInv` | libempathy/empathy-tp-file.c:431-486 | a failed socket cancels; otherwise the snapshot is taken now, a new stall timeout becomes the live one, a fresh uncancelled cancellable is made and exactly one copy starts; state and readiness are untouched |
| `TpFileState.StateChangedStep` | libempathy/empathy-tp-file.c:488-519 | tp_file_state_changed_cb on the snapshot; stated by StateChangedKeepsInv |
| `TpFileState.StateChangedKeepsInv` | libempathy/empathy-tp-file.c:488-519 | a change to the current state is ignored; any other is committed with its reason and notified, and the transfer is started first exactly when the new state is Open and the socket address is known |
| `TpFileState.InvalidatedStep` | libempathy/empathy-tp-file.c:351-369 | tp_file_invalidated_cb on the snapshot; stated by InvalidatedKeepsInv |
| `TpFileState.InvalidatedKeepsInv` | libempathy/empathy-tp-file.c:351-369 | an unfinished channel becomes Cancelled with a local error and is notified; a completed or cancelled one is left alone |
| `TpFileState.CheckIfReadyStep` | libempathy/empathy-tp-file.c:564-573 | tp_file_check_if_ready on the snapshot; stated by CheckIfReadyKeepsInv |
| `TpFileState.CheckIfReadyKeepsInv` | libempathy/empathy-tp-file.c:564-573 | readiness becomes true exactly when the contact is known and the state is not None, is notified once, and is never withdrawn |
| `TpFileState.GotContactStep` | libempathy/empathy-tp-file.c:575-593 | tp_file_got_contact_cb on the snapshot; stated by GotContactKeepsInv |
| `TpFileState.GotContactKeepsInv` | libempathy/empathy-tp-file.c:575-593 | an error cancels; otherwise the contact is stored and readiness is checked |
| `TpFileState.MethodStep` | libempathy/empathy-tp-file.c:885-934 | tp_file_method_cb on the snapshot; stated by MethodKeepsInv |
| `TpFileState.MethodKeepsInv` | libempathy/empathy-tp-file.c:885-934 | an error or an address of another type cancels; a byte array or a string is stored as the socket address; a copy starts at once when the state is already Open and the socket connects, and none starts while the state is not Open |
| `TpFileState.TransferredBytesStep` | libempathy/empathy-tp-file.c:521-562 | tp_file_transferred_bytes_changed_cb on the snapshot; stated by TransferredBytesKeepsInv |
| `TpFileState.TransferredBytesKeepsInv` | libempathy/empathy-tp-file.c:521-562 | an update equal to the stored count is ignored; any other is stored and notified, the old stall timeout is removed and a fresh one is the live one, and "refresh" is emitted exactly when speed and remaining time are recomputed |
| `TpFileState.StalledStep` | libempathy/empathy-tp-file.c:418-429 | tp_file_stalled_cb on the snapshot; stated by StalledKeepsInv |
| `TpFileState.StalledKeepsInv` | libempathy/empathy-tp-file.c:418-429 | a stall sets speed 0 and remaining time -1 and emits "refresh"; the fired timeout is no longer live (it does not repeat), yet stalled_id is left as it was, so after its own timeout fires it names a finished source |
| `TpFileState.RequestCloseStep` | libempathy/empathy-tp-file.c:604-610 | the error branch of both property replies: only a channel Close request; stated by GotAllKeepsInv and GotRequestedKeepsInv |
| `TpFileState.StoreProperties` | libempathy/empathy-tp-file.c:612-640 | the stores and notifications of tp_file_get_all_cb; stated by GotAllKeepsInv |
| `TpFileState.GotAllStep` | libempathy/empathy-tp-file.c:595-644 | tp_file_get_all_cb on the snapshot; stated by GotAllKeepsInv |
| `TpFileState.GotAllKeepsInv` | libempathy/empathy-tp-file.c:595-644 | an error only asks the channel to close; otherwise size, state and transferred bytes take the reported values and are notified in order, readiness becomes true exactly when the contact is known and the reported state is not None, no copy starts, and the invariant is kept |
| `TpFileState.GotRequestedStep` | libempathy/empathy-tp-file.c:646-667 | tp_file_get_requested_cb on the snapshot; stated by GotRequestedKeepsInv |
| `TpFileState.GotRequestedKeepsInv` | libempathy/empathy-tp-file.c:646-667 | an error only asks the channel to close; otherwise the transfer is incoming exactly when the channel was not requested, "incoming" is notified, readiness is rechecked, state and progress are untouched, and the invariant is kept |
| `TpFileState.Apply` | libempathy/empathy-tp-file.c:351-1162 | a callback applied to the record: None exactly when it cannot arrive (a reported value beyond 64 bits, or a timeout that is not live) |
| `TpFileState.Run` | libempathy/empathy-tp-file.c:351-1162 | callbacks applied in order, None as soon as one cannot arrive; stated by RunKeepsInv |
| `TpFileState.ApplyKeepsInv` | libempathy/empathy-tp-file.c:351-1162 | every callback keeps the invariant, never withdraws readiness and only appends signals |
| `TpFileState.RunKeepsInv` | libempathy/empathy-tp-file.c:351-1162 | over any sequence of callbacks, the invariant holds, "ready" once set stays set and is notified at most once, and earlier signals stay emitted |
| `TpFileState.ReadyAfterPropertiesAndContact` | libempathy/empathy-tp-file.c:564-644 | a new object whose properties report a state other than None and whose contact then arrives is ready, with the contact stored and exactly one "ready" notification as its last signal |
| `TpFileState.TpFile.constructor` | libempathy/empathy-tp-file.c:340-349 | a new object for a channel starts in the zeroed initial record |
| `TpFileState.TpFile.RemainingTime` | libempathy/empathy-tp-file.c:1103-1115 | -1 for an unknown size, 0 when complete, otherwise the stored estimate |
| `TpFileState.TpFile.Speed` | libempathy/empathy-tp-file.c:1127-1136 | 0 when complete, otherwise the stored speed |
| `TpFileState.TpFile.IsReady` | libempathy/empathy-tp-file.c:1176-1182 | a ready object always has its contact |
| `TpFileState.TpFile.Cancel` | libempathy/empathy-tp-file.c:1151-1162 | keeps the invariant and moves the record as CancelStep says |
| `TpFileState.TpFile.StartTransfer` | libempathy/empathy-tp-file.c:431-486 | keeps the invariant and moves the record as StartTransferStep says |
| `TpFileState.TpFile.StartCopy` | libempathy/empathy-tp-file.c:460-485 | takes the snapshot, arms a new timeout with the next source id, makes a fresh cancellable and starts one copy; the other fields are unchanged |
| `TpFileState.TpFile.StateChanged` | libempathy/empathy-tp-file.c:488-519 | keeps the invariant and moves the record as StateChangedStep says |
| `TpFileState.TpFile.CommitState` | libempathy/empathy-tp-file.c:515-518 | stores state and reason and notifies "state"; nothing else changes |
| `TpFileState.TpFile.Invalidated` | libempathy/empathy-tp-file.c:351-369 | keeps the invariant and moves the record as InvalidatedStep says |
| `TpFileState.TpFile.CheckIfReady` | libempathy/empathy-tp-file.c:564-573 | keeps the invariant and moves the record as CheckIfReadyStep says |
| `TpFileState.TpFile.GotContact` | libempathy/empathy-tp-file.c:575-593 | keeps the invariant and moves the record as GotContactStep says |
| `TpFileState.TpFile.GotAll` | libempathy/empathy-tp-file.c:595-644 | keeps the invariant and moves the record as GotAllStep says |
| `TpFileState.TpFile.SetProperties` | libempathy/empathy-tp-file.c:612-640 | stores size, state and transferred bytes and appends their notifications; nothing else changes |
| `TpFileState.TpFile.GotRequested` | libempathy/empathy-tp-file.c:646-667 | keeps the invariant and moves the record as GotRequestedStep says |
| `TpFileState.TpFile.SetIncoming` | libempathy/empathy-tp-file.c:663-664 | stores the direction and notifies "incoming"; nothing else changes |
| `TpFileState.TpFile.MethodReturned` | libempathy/empathy-tp-file.c:885-934 | keeps the invariant and moves the record as MethodStep says |
| `TpFileState.TpFile.TransferredBytesChanged` | libempathy/empathy-tp-file.c:521-562 | keeps the invariant and moves the record as TransferredBytesStep says |
| `TpFileState.TpFile.RearmStall` | libempathy/empathy-tp-file.c:539-543 | removes the current timeout if one was ever added and arms a fresh one; nothing else changes |
| `TpFileState.TpFile.UpdateProgress` | libempathy/empathy-tp-file.c:549-561 | the progress fields move as ProgressStep says, and "refresh" is emitted exactly when they are recomputed |
| `TpFileState.TpFile.StalledFired` | libempathy/empathy-tp-file.c:418-429 | keeps the invariant and moves the record as StalledStep says |
| `TpFileRegistry.Registry.constructor` | libempathy/empathy-tp-file.c:822 | the table starts absent and empty |
| `TpFileRegistry.Registry.New` | libempathy/empathy-tp-file.c:842-867 | a channel already registered gets its existing object back with one more reference, and the table is unchanged; otherwise exactly one fresh object in the initial record is registered for it with one reference; every object is registered under its own channel |
| `TpFileRegistry.Registry.Finalized` | libempathy/empathy-tp-file.c:824-829 | finalization removes exactly that channel's entry |
| `TpFileRegistry.Registry.Unref` | libempathy/empathy-tp-file.c:824-867 | dropping the last reference removes the channel's entry; dropping any other only lowers its count |
| `PidginImport.FirstMatch` | src/empathy-import-dialog.c:229-238 | the result is a row matching both protocol and name, and no earlier row matches; None means no row matches |
| `PidginImport.Lookup` | src/empathy-import-dialog.c:229-238 | the row found is in the table and matches both protocol and name; None only when no row matches |
| `PidginImport.FindMapItem` | src/empathy-import-dialog.c:229-238 | the search loop finds the first row matching both protocol and Pidgin name, or none when no row matches |
| `PidginImport.LookupJabberServer` | src/empathy-import-dialog.c:54-90 | an example of the table: Jabber's connect_server is Mission Control's server |
| `PidginImport.TypedValue` | src/empathy-import-dialog.c:248-264 | only the types bool, int and string give a value; a bool is true exactly when the parsed number is not 0, an int is the parsed number, a string is the content |
| `PidginImport.ParseSetting` | src/empathy-import-dialog.c:209-271 | the protocol never changes; without a protocol or a name attribute nothing changes; parameters are only added or replaced, and only under a name the table gives for this protocol |
| `PidginImport.ParseSettingStores` | src/empathy-import-dialog.c:229-267 | with the protocol known, the value is stored under the first matching row's Mission Control name exactly when a row matches and the type gives a value; otherwise nothing changes |
| `PidginImport.LaterSettingWins` | src/empathy-import-dialog.c:266-267 | a later setting stored under the same parameter name replaces the earlier one |
| `PidginImport.ApplySettings` | src/empathy-import-dialog.c:395-398 | a `<settings>` element never changes the protocol and never removes a parameter |
| `PidginImport.SettingsNeedProtocol` | src/empathy-import-dialog.c:220-222 | settings read before the protocol is known are all dropped |
| `PidginImport.ApplySetting` | src/empathy-import-dialog.c:209-271 | parse_setting with its search loop computes ParseSetting |
| `PidginImport.NormaliseProtocol` | src/empathy-import-dialog.c:321-331 | a leading "prpl-" is stripped, then bonjour becomes salut and novell becomes groupwise; every other name passes through unchanged |
| `PidginImport.SplitName` | src/empathy-import-dialog.c:344-371 | a server is split off exactly when the protocol is already irc and the name has an "@", and then account + "@" + server rebuilds the name; otherwise the account is the text before the first "/", or the whole name when there is none |
| `PidginImport.ApplyChild` | src/empathy-import-dialog.c:314-398 | protocol sets the normalised protocol; name sets account and, for IRC, server; password is stored verbatim; any other tag changes nothing; only protocol changes the protocol |
| `PidginImport.IrcSplitNeedsProtocolFirst` | src/empathy-import-dialog.c:356-365 | "nick@server" read before the protocol child is kept whole as the account; read after it, it is split into account and server |
| `PidginImport.SplitAtFirstAt` | src/empathy-import-dialog.c:355-366 | for IRC, "nick@server" splits into nick and server; without a protocol it stays whole |
| `PidginImport.KeptAccounts` | src/empathy-import-dialog.c:296-407 | every kept account has a protocol and a parameter, and there are no more of them than elements |
| `PidginImport.Keep` | src/empathy-import-dialog.c:401-406 | an account is kept when it has a protocol and at least one parameter; stated by KeptAccounts and KeptAccountsComplete |
| `PidginImport.KeptAccountsComplete` | src/empathy-import-dialog.c:401-406 | every `<account>` element whose data has a protocol and a parameter is kept |
| `PidginImport.Reverse` | src/empathy-import-dialog.c:403-404 | prepending yields the list backwards: same length, element i is element n-1-i |
| `PidginImport.ParseSettingsElement` | src/empathy-import-dialog.c:395-398 | the loop over a `<settings>` element computes ApplySettings |
| `PidginImport.ParseAccount` | src/empathy-import-dialog.c:309-399 | the loop over an account's children computes ParseChildren |
| `PidginImport.ParseChildren` | src/empathy-import-dialog.c:314-398 | the children of an account applied in document order; stated by ParseAccount, ApplyChild and IrcSplitNeedsProtocolFirst |
| `PidginImport.ReadChild` | src/empathy-import-dialog.c:314-398 | one child is applied as ApplyChild says |
| `PidginImport.Load` | src/empathy-import-dialog.c:273-417 | an unreadable file gives no accounts; otherwise the kept accounts in reverse document order, each with a protocol and a parameter |
| `PidginImport.LoadOne` | src/empathy-import-dialog.c:296-407 | one element of the document adds its account at the front exactly when it is an `<account>` that is kept |
| `PidginImport.UserName` | src/empathy-import-dialog.c:530 | the user name is present exactly when an "account" string parameter is |
| `PidginImport.SameAccount` | src/empathy-import-dialog.c:489-508 | an existing account matches only when its "account" parameter is present and equal to a present user name; stated by Matching and ImportTicked |
| `PidginImport.Matching` | src/empathy-import-dialog.c:489-508 | every account the filter keeps has an "account" parameter equal to the user name, and it keeps none exactly when no existing account matches |
| `PidginImport.FilterAccounts` | src/empathy-import-dialog.c:539-543 | the filter loop computes Matching |
| `PidginImport.ImportTicked` | src/empathy-import-dialog.c:545-547 | ticked exactly when no existing account has an "account" parameter equal to the imported user name; an account without a user name is always ticked |

## Left out

- Socket creation, `connect` and the copy of the address into `sockaddr_un` are left out. They are operating-system calls; their outcome is the `connected` parameter.
- The GIO stream objects and asynchronous calls are left out. The input is whatever the read completions return, and the output is the list of chunks the writes took.
- The `incoming` direction of `tp_file_start_transfer` is left out. It only decides which end of the copy is the socket.
- The D-Bus and Telepathy calls are left out because they are foreign calls. These are `tp_file_constructor`, the property getters and setters, `empathy_tp_file_accept` and `empathy_tp_file_offer`. The replies of the calls the constructor makes are modelled (`GotAll`, `GotRequested`, `GotContact`), with their results as parameters. Of the properties `tp_file_get_all_cb` stores, only Size, State and TransferredBytes are kept; the file name, content hash, hash type, content type and description are not, though their notifications are recorded.
- GObject boilerplate is left out. Notifications and the "refresh" signal are kept only as entries in a list.
- Logging (`DEBUG`, `g_warning`) is left out.
- Floating point is left out: the speed is a Dafny `real`.
  - `TpFileState.Estimate`: the double division and the truncating cast to `gint` are modelled as the floor of the exact quotient, with no bound to the `gint` range.
  - `TpFileState.Estimate`: at speed 0 the C code divides by zero, and the model stores -1, meaning unknown.
- `g_timeout_add_seconds` is a counter handing out source ids; there is no timer. `tp_file_stalled_cb` runs when the caller names a live id.
- `TpFileState.TpFile.MethodReturned`: the string address of the old telepathy-salut branch is stored as its bytes. The `strlen` cut at the first NUL is not modelled.
- `TpFileState.TpFile.IsReady` only states that a ready object has its contact. It does not restate the field.
- `TpFileRegistry.Registry`: GObject reference counting is modelled only for registered objects. The channel reference the table holds is not modelled.
- The header libempathy/empathy-tp-file.h, which defines `EMPATHY_TP_FILE_UNKNOWN_SIZE`, is not part of this model. The constant is taken as the largest guint64.
- `TpFileCopy.CopyComplete` and `TpFileCopy.SinkIsPrefixOfSource` hold for complete writes only. After a partial write the output is not a prefix of the input, because the rest of the chunk is dropped.
- Closing each stream at most once is proved only for runs without an I/O error. `io_error` closes each stream still set again, and it can run more than once.
- The `TpFileCopy.CopyTwoChunks` scenario is proved on the snapshot values with `Run`, not by calling the class methods in sequence.
- These parts of the import dialog are left out:
  - reading the file with libxml (the document is given as a tree, and `Load` receives None when the file cannot be read);
  - the GTK dialog and its callbacks;
  - Mission Control account creation (`import_dialog_add_account`);
  - the profile lookup and the listing of existing accounts (the existing accounts are given as the list of their "account" parameters).
- The link between the record's cancellable and the copier is left out. In the source, `io_error` cancels `copy->cancellable`, the same object as `priv->cancellable` (libempathy/empathy-tp-file.c:124-144, 467-484). The record's `cancelled` field (`Snap.cancelled`) does not see a cancellation made by the copier; `TpFileCopy` and `TpFileState` are separate models.
- `g_ascii_strtod` and the cast to `gint` are an uninterpreted function parameter.
- libempathy-gtk/empathy-theme-irc.h and tests/check-empathy-chatroom-manager.c hold no logic of the core and are not modelled.
