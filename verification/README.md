# Verified model of the shared-memory and storage core

Dafny models of five parts of the DuckDB-Wasm library, with proofs about them:

* **The VGI channel** (`VgiLayout`, `VgiRing`, `VgiChannel`, `VgiInvariant`, `VgiTheorems`,
  `VgiCalls`, `VgiAnswers`, `VgiOpen`, `VgiEos`, `VgiRace`). A transition system over the 32-bit lanes of an array of slots, with any
  number of slots, openers, clients, workers and observers. Every `Atomics` operation and
  every copied byte is a step of its own, in any interleaving. Atomics are sequentially
  consistent (section 29 of ECMA-262). Waits and notifications do nothing. Fields such as
  `sent`, `recv`, `closedAt` and `errLog`, and the three counts in an `Eos` answer, are
  history that no step reads.
* **The file page buffer**, twice. `FrameLifeCycle` and `FrameInvariant` are a transition
  system for the life of frames while the directory latch is dropped for loading and
  flushing. `PageSpec`, `PageQueues`, `PageBuffer` and `PageStream` are the buffer as one
  thread sees it: classes with the FIFO and LRU lists, pins, dirty frames and the file
  directory, the page-wise read loop, and the input stream on top. `logical` is what the
  users have written; the class invariant says that frames and files together stand for it.
* **The HTTP fetch mailbox** (`Mailbox`, `MailboxInvariant`, `MailboxTheorems`,
  `MailboxAnswers`). The caller's state machine, one step per atomic access, with any number of calls and slots.
  The helper does anything the protocol text of `lib/include/duckdb/web/http_fetch.h`
  allows. The hand-over of a slot is one step.
* **JSON to columns** (`JsonTypes`, `JsonBuilders`, `JsonShredding`, `JsonMeaning`,
  `JsonFailures`, `JsonParser`, `JsonStream`, `JsonTable`, `JsonReader`). Builders laid out as the Arrow Columnar Format
  prescribes, the tree of parser objects that appends to them in place, the event buffer
  that batches an array, and the readers of row and column tables.
* **Globs** (`Glob`). The compiler to regular expressions, a reader for the emitted text
  (section 22.2.1 of ECMA-262), and what both accept.

`Wrappers` and `Numbers` hold the types that all of them share.
`dafny verify dfyconfig.toml` checks the whole project.

## What the proofs found

* `ringRead` and the stub's read load the write lane before the closed lane. A byte that a
  worker publishes between the two loads, before it closes, is left in the ring although
  the client is told that its stream has ended: `VgiRace.EosCanLoseBytes` is such a run.
  The bytes published before a close are delivered if and only if all of them were there
  when the write lane was loaded (`VgiRing.DeliveredExactlyWhenSeen`); over whole runs, a
  read that starts on a ring already closed loses none (`VgiEos.ReadsAfterCloseAreWhole`).
* A positional write of an appending file that goes beyond the end of the file reports
  bytes that are lost: `PageBuffer.CrossingWriteLosesBytes` is such a write, and
  `PageBuffer.StoredExactlyWithin` says when all reported bytes are in the file.
* `InputFileStreamBuffer::uflow` returns the first byte of a new page without advancing, so
  the next read delivers it again: `PageStream.InputFileStream.Sbumpc` says when,
  `PageStream.FirstByteTwice` that it happens in every file of more than one page. Bulk
  reads are exact.
* A slice that begins at the end of a file of whole pages leaves the old get area in place
  (`PageStream.InputFileStream.Slice`).
* `glob_to_regex` does not escape a backslash. `Glob.RegexReadsBack` gives the exact
  condition under which the emitted text means the pattern, `Glob.RegexIsGlob` that
  otherwise pattern and expression accept different names, `Glob.BackslashChangesMeaning`
  an example.
* A failed JSON append can leave the builders with a row too many
  (`JsonFailures.FailedRow`) or out of step with each other (`JsonFailures.FailureCanMisalign`).
  `JsonFailures.AlignedAfterFailure` gives the exact condition, on the type and the
  document, under which they are still aligned.
* Claim ids repeat after 2^32 - 1 opens, and 1 repeats first (`VgiLayout.FirstCollision`).

## Model

| member | source | states |
|---|---|---|
| VgiLayout.PartsDisjoint | lib/vgi-sab-ring.js:43-84 | the control block and the two data rings of all slots lie inside channelBytes behind the header, and no two of them share a byte |
| VgiLayout.ControlAligned | lib/vgi-sab-ring.js:82-84 | with a 64-aligned channel every control block is 64-aligned, so the lane index is exact |
| VgiLayout.ClaimIdsCollide | lib/vgi-sab-ring.js:92-93 | a claim id is never 0; two opens share an id exactly when they are whole periods of 2^32 apart or both fall on 0 or 1 of their period |
| VgiLayout.OrdinalInverts | lib/vgi-sab-ring.js:92-93 | over fewer than 2^32 opens the id determines the open, despite the 32-bit wrap |
| VgiLayout.FirstCollision | lib/vgi-sab-ring.js:92-93 | the bound is tight: open number 2^32 repeats the first id |
| VgiRing.IndexIsMod | lib/vgi-sab-ring.js:169-174 | the copy in two pieces puts byte i of a chunk at its stream position modulo the capacity |
| VgiRing.WriterStep | lib/vgi-sab-ring.js:158-178 | every single step of a write keeps the queue and only appends to what was published |
| VgiRing.PieceFillsRing | lib/vgi-sab-ring.js:160-167 | a piece of a write takes all the room left in the ring or all that is left to write; there is none exactly when the ring is full |
| VgiRing.WriterPublishes | lib/vgi-sab-ring.js:175-177 | storing the write position appends exactly the k copied source bytes to the stream |
| VgiRing.ReaderStep | lib/vgi-sab-ring.js:207-231 | every single step of a read, of the library or of the stub, keeps the queue and only appends to what was taken |
| VgiRing.ReaderTakes | lib/js-stubs.js:319-326 | the bytes handed out are the next k of the stream, and the read position counts them |
| VgiRing.LoadSeesPublished | lib/vgi-sab-ring.js:207-210 | the load of the write lane, at the first step of every try, sees exactly what has been published by then |
| VgiRing.DeliveredExactlyWhenSeen | lib/vgi-sab-ring.js:211-217 | at the load of the closed lane every byte published before the close has been delivered if and only if it had been published when the write lane was loaded; what is missing otherwise is what was published in between |
| VgiRing.WouldBlockIsEmpty | lib/js-stubs.js:309-318 | -2 takes nothing, and is returned only after a second try that found every published byte taken and no close of the current claim |
| VgiRing.WriterSparesReader | lib/vgi-sab-ring.js:158-178 | a writer's step never falsifies what the reader of the same ring has loaded or copied |
| VgiRing.ReaderSparesWriter | lib/vgi-sab-ring.js:207-231 | a reader's step never falsifies what the writer of the same ring relies on |
| VgiInvariant.OpenerOwn | lib/vgi-sab-ring.js:94-116 | each store of slotOpen keeps the slot's invariant; the last one publishes two empty, open rings |
| VgiInvariant.CritOwn | lib/vgi-sab-ring.js:131-181 | a worker's step under the reservation keeps the slot's invariant |
| VgiInvariant.PublishSpares | lib/js-stubs.js:405-417 | publishing a claim breaks nothing that any other thread knows |
| VgiInvariant.ErrSpares | lib/vgi-sab-ring.js:349-359 | the stores of workerCloseError, made without a reservation and possibly stale, break nothing that any other thread knows |
| VgiTheorems.NextInv | lib/vgi-sab-ring.js:89-359 | every step of every thread keeps the invariant of the whole channel |
| VgiTheorems.SlotsAreExclusive | lib/js-stubs.js:380-424 | in every run no two threads own a slot or hold its reservation, and STATE is the owner's id |
| VgiTheorems.PublicationIsComplete | lib/js-stubs.js:402-416 | when STATE becomes an id, all four positions and C2W_CLOSED are 0, neither W2C_CLOSED nor TERMINAL_CLAIM equals it, and it was never in use before |
| VgiTheorems.IdsAreFresh | lib/vgi-sab-ring.js:92-93 | an id handed out is nonzero, was never published, and no other opener or client has it |
| VgiTheorems.ReservationPinsState | lib/vgi-sab-ring.js:126-150 | from the successful check after acquiring until the release, STATE is the served claim or 0 |
| VgiTheorems.NeverCurrentAgain | lib/vgi-sab-ring.js:126-130 | a claim that has been replaced never becomes the slot's claim again |
| VgiTheorems.StaleWorkersAreHarmless | lib/vgi-sab-ring.js:126-187 | once a slot has carried a later claim, no step of a worker serving the old one changes a position or a data byte |
| VgiTheorems.DeliveryIsFifo | lib/vgi-sab-ring.js:154-239 | in every state and both directions the bytes taken are a prefix of those published, at most ringCap are under way, and each is in its place |
| VgiCalls.ClientWriteIsWhole | lib/js-stubs.js:264-286 | in every run, when a client's write has returned, its direction has grown by exactly the bytes it was called with, in order |
| VgiCalls.WorkerWriteIsWhole | lib/vgi-sab-ring.js:154-188 | a worker's write that returns n has published in its pieces, over any number of acquires and whatever happened in between, exactly its n bytes in order; one that loses its claim returns how many of the first it has published |
| VgiCalls.ClientReadTakes | lib/js-stubs.js:294-330 | a client's read that returns bytes has taken exactly these, the next ones of the stream, and at least as many as were there when it was called, if wanted; one that returns none has taken none, and there were none when it was called |
| VgiCalls.WorkerReadTakes | lib/vgi-sab-ring.js:191-239 | a worker's read has taken exactly the bytes that it returns, and none otherwise |
| VgiTheorems.StreamsGrow | lib/vgi-sab-ring.js:154-239 | while a claim lasts neither stream loses or changes a byte |
| VgiTheorems.ClientEos | lib/js-stubs.js:440-463 | a client is told 0 or -3 only after a close of its own claim, having been given exactly the bytes it saw at the load of the write lane, so that all bytes published before the close were delivered if and only if the close came after no others; -3 only if a terminal error was stored for the claim |
| VgiAnswers.TerminalErrorIsTold | lib/js-stubs.js:452-462 | the converse: with the feature bit set and TERMINAL_CLAIM holding the client's id during the read, a read that ends with the stream answers -3 and never 0 |
| VgiAnswers.ObserverIsTold | lib/vgi-sab-ring.js:278-289 | stubTerminalError is not null while STATE and TERMINAL_CLAIM hold the same claim during the call, and what it gives is of that claim |
| VgiAnswers.EndIsTold | lib/js-stubs.js:308-317 | while W2C_CLOSED holds the client's id and nothing is left in the ring, a read can only answer the end of its stream: no bytes and no -2 |
| VgiAnswers.WorkerEndIsTold | lib/vgi-sab-ring.js:207-220 | the same for a worker whose claim lasts and whose client has closed |
| VgiAnswers.ErrorCloseIsStored | lib/vgi-sab-ring.js:349-359 | when workerCloseError has returned, its code, its detail and its claim are in the terminal lanes and its claim in W2C_CLOSED, if the slot stayed in use by that claim and no other worker closed it with an error meanwhile |
| VgiAnswers.WorkerCloseIsStored | lib/vgi-sab-ring.js:333-347 | a worker's close that returns true has put its claim into W2C_CLOSED |
| VgiOpen.OpenSkipsOnlyBusy | lib/vgi-sab-ring.js:95-101 | whatever other threads do, an open passes over a slot only after it has found its reservation taken or its STATE in use |
| VgiOpen.OpenFailsOnlyIfBusy | lib/vgi-sab-ring.js:95-118 | and returns -1 only after it has found so at every slot |
| VgiOpen.OpenAlone | lib/vgi-sab-ring.js:89-118 | an open that runs alone takes the first slot whose STATE and RESERVATION are free, fails only if there is none, and ends within thirteen steps per slot and one |
| VgiTheorems.ClosesAreOwn | lib/vgi-sab-ring.js:333-359 | the lanes W2C_CLOSED and TERMINAL_CLAIM become the id in STATE only by a step of a worker that serves this very claim: a stale token ends nothing newer |
| VgiTheorems.WorkerEos | lib/vgi-sab-ring.js:207-238 | a worker's read gives 0 only on a closed ring, with the same exact condition for the bytes published before the close, or because its claim is over, and then for good |
| VgiTheorems.TerminalSnapshot | lib/vgi-sab-ring.js:278-289 | if error closes are clean, a non-null snapshot is the code and detail stored for the claim read first, whatever happened between the loads |
| VgiEos.ReadsAfterCloseAreWhole | lib/js-stubs.js:440-463 | in every run, a client whose read starts when W2C_CLOSED already holds its claim is told the end of its stream, then or later, only when every byte published before the close has been delivered |
| VgiEos.WorkerReadsAfterCloseAreWhole | lib/vgi-sab-ring.js:207-238 | the same for a worker whose read is called when C2W_CLOSED is set |
| VgiRace.EosCanLoseBytes | lib/vgi-sab-ring.js:211-217 | a reachable state in which a client has been told end of stream while a byte published before the close is still in the ring |
| FrameInvariant.NextInv | lib/src/io/file_page_buffer.cc:406-523 | every step of fixing, evicting, loading, flushing and releasing keeps the invariant, with the directory latch dropped in between |
| FrameInvariant.EvictOwn | lib/src/io/file_page_buffer.cc:336-364 | a victim goes on to be erased only while it is EVICTING, unused and clean |
| FrameInvariant.FlushOwn | lib/src/io/file_page_buffer.cc:721-748 | what a flush marks as clean is what it has written, under the frame's shared lock |
| FrameInvariant.UserOther | lib/src/io/file_page_buffer.cc:424-480 | a refix of a frame under eviction (RELOADED) invalidates nothing that the evictor relies on |
| FrameInvariant.OneFramePerPage | lib/src/io/file_page_buffer.cc:487-508 | at most one frame exists per frame id, and the directory leads to it |
| FrameInvariant.RemovalIsSafe | lib/src/io/file_page_buffer.cc:343-376 | a frame disappears only without users, unlocked, with its bytes in the file, and no thread outside the latch refers to it |
| FrameInvariant.NoByteIsLost | lib/src/io/file_page_buffer.cc:309-377 | in every state every page reads as its users have written it, and a page with a clean frame or none is complete in the file |
| FrameInvariant.FixedPagesAreCurrent | lib/src/io/file_page_buffer.cc:470-522 | whoever has a page fixed sees the users' bytes, and an exclusive holder is alone |
| PageSpec.FrameIdsAreUnique | lib/src/io/file_page_buffer.cc:24-33 | a frame id splits into its file and page again, and equal ids mean equal file and page |
| PageSpec.FlushKeeps | lib/src/io/file_page_buffer.cc:738-742 | writing a frame back makes its page clean and touches no other page |
| PageSpec.AppendKeeps | lib/src/io/file_page_buffer.cc:596-631 | an append to the file with a resize of the last page's frame, dirty or not, still stands for the logical bytes |
| PageSpec.UpdateKeeps | lib/src/io/file_page_buffer.cc:569-578 | a change of bytes in a fixed page is a change of the logical bytes at its position; what lies beyond the end of the file changes nothing |
| PageSpec.InsertKeeps | lib/src/io/file_page_buffer.cc:91-117 | a frame filled from a page that has no frame stands for that page's logical bytes |
| PageSpec.FoundKeeps | lib/src/io/file_page_buffer.cc:269 | whatever the file system finds, creates or truncates at a path that is not open, all other files stand for their logical bytes as before |
| PageSpec.CloseKeeps | lib/src/io/file_page_buffer.cc:119-191 | a file without frames holds everything that was written to it |
| PageQueues.VictimIsOldest | lib/src/io/file_page_buffer.cc:315-335 | the victim is the oldest unpinned frame fixed once, else the least recently fixed unpinned one; there is none exactly when all are pinned |
| PageQueues.RefixQueues | lib/src/io/file_page_buffer.cc:458-469 | a refix keeps fifo the frames fixed once in load order and lru the others in order of last fix |
| PageQueues.LoadQueues | lib/src/io/file_page_buffer.cc:506-508 | so does loading a frame |
| PageQueues.EraseQueues | lib/src/io/file_page_buffer.cc:366-376 | so does erasing a frame |
| PageQueues.EvictionMakesRoom | lib/src/io/file_page_buffer.cc:379-395 | making room ends, removes only unpinned frames and no more than needed, and stops early only when every frame is pinned |
| PageBuffer.FilePageBuffer.FindUnpinned | lib/src/io/file_page_buffer.cc:316-334 | the first frame of a list without users |
| PageBuffer.FilePageBuffer.FlushFrame | lib/src/io/file_page_buffer.cc:721-748 | the frame is clean afterwards, its page's logical bytes are in the file, and the rest is unchanged |
| PageBuffer.FilePageBuffer.EvictAnyBufferFrame | lib/src/io/file_page_buffer.cc:309-377 | exactly the victim leaves the directory and the lists, and its logical bytes are in the file |
| PageBuffer.FilePageBuffer.AllocateFrameBuffer | lib/src/io/file_page_buffer.cc:379-395 | the loop ends with the frames and lists that repeated eviction of the victim leaves |
| PageBuffer.FilePageBuffer.FixPage | lib/src/io/file_page_buffer.cc:406-523 | the frame holds the page's logical bytes and has one more user; a hit moves to the end of lru, a miss to the end of fifo after making room, and then the capacity is exceeded only if all frames are pinned |
| PageBuffer.FilePageBuffer.ReleasePage | lib/src/io/file_page_buffer.cc:75-85 | one user less, nothing else |
| PageBuffer.FilePageBuffer.UpdatePage | lib/src/io/file_page_buffer.cc:68-73 | marking fails exactly on files not opened for writing; else the logical bytes at the position change, up to the end of the file, and no others |
| PageBuffer.FilePageBuffer.Read | lib/src/io/file_page_buffer.cc:525-544 | the logical bytes from the offset on, up to the end of the file and of the page, and none beyond |
| PageBuffer.FilePageBuffer.ReadFully | lib/src/io/buffered_filesystem.cc:106-130 | the loop ends with exactly the logical bytes asked for, and throws exactly when they go beyond the end of the file, at any capacity |
| PageBuffer.FilePageBuffer.Append | lib/src/io/file_page_buffer.cc:588-632 | fails exactly on files not opened for writing; else the logical bytes grow by exactly the data, whatever pieces the file system writes |
| PageBuffer.FilePageBuffer.Write | lib/src/io/file_page_buffer.cc:546-579 | fails exactly on files not opened for writing and then changes nothing; an appending file elsewhere than at its end takes the bytes up to the end of the page and keeps its size; else the data is appended; no frame is pinned or unpinned |
| PageBuffer.StoredExactlyWithin | lib/src/io/file_page_buffer.cc:564-578 | a positional write keeps the size of the file and all bytes elsewhere; all bytes that it reports are in the file if and only if they end within it |
| PageBuffer.CrossingWriteLosesBytes | lib/src/io/file_page_buffer.cc:564-578 | a run of the buffer in which six bytes are reported, and three of them are in the file system after the file is closed |
| PageBuffer.FilePageBuffer.OpenFile | lib/src/io/file_page_buffer.cc:216-307 | success exactly under the conditions that rule every error out, each of them spelt out, with what the file system's own open finds, creates or truncates as a parameter; a second open shares the id; a new id belongs to no open file, and no frame or list entry carries it |
| PageBuffer.FilePageBuffer.Release | lib/src/io/file_page_buffer.cc:119-191 | the file goes exactly with its last user (unless kept dangling); then no frame or list entry carries its id, the id is free, and the file is complete |
| PageBuffer.FilePageBuffer.TryDropFile | lib/src/io/file_page_buffer.cc:655-667 | true exactly when the file is not open or has no users, and then it is complete in the file system |
| PageBuffer.FilePageBuffer.DropDanglingFiles | lib/src/io/file_page_buffer.cc:670-683 | exactly the files without users disappear, the others and their frames stay as they were |
| PageBuffer.FilePageBuffer.ClosedFilesAreComplete | lib/src/io/file_page_buffer.cc:154-191 | the file system holds everything that was written to a file that is not open |
| PageStream.InputFileStream.NextPage | lib/src/io/ifstream.cc:9-20 | moves the get area to the next page, cut at the end of the slice, or reports that the slice is over |
| PageStream.InputFileStream.Xsgetn | lib/src/io/ifstream.cc:22-34 | returns exactly the bytes wanted from the current position, fewer only at the end of the slice, and stays on the page of the last one |
| PageStream.InputFileStream.Slice | lib/src/io/ifstream.cc:63-80 | reading goes on at the offset, or at the end of the file, and ends after size bytes if size is positive and these lie within the file, else with the file; a slice that begins at the end of a file of whole pages leaves page and get area as they were |
| PageStream.InputFileStream.ReadSlice | lib/src/io/ifstream.cc:22-80 | Slice followed by one bulk read gives exactly the bytes of the file from the offset on, as many as wanted, up to the end of the slice |
| PageStream.InputFileStream.Sbumpc | lib/include/duckdb/web/io/ifstream.h:50-53 | the next byte, consumed exactly when the get area was not empty before |
| PageStream.FirstByteTwice | lib/include/duckdb/web/io/ifstream.h:50-53 | in every file of more than one page, after the first page has been read in bulk, two calls deliver the first byte of the second page twice |
| MailboxInvariant.HelperKeepsSlot | lib/include/duckdb/web/http_fetch.h:24-38 | whatever the helper does within the protocol keeps the slot's invariant |
| MailboxInvariant.HelperSparesOwner | lib/include/duckdb/web/http_fetch.h:24-38 | and nothing the owner of the slot knows |
| MailboxInvariant.StoreKeeps | lib/src/http_fetch.cc:109-128 | filling the lanes in keeps the invariant; the request is published complete, with the other lanes cleared |
| MailboxInvariant.LeaveKeeps | lib/src/http_fetch.cc:155-220 | whichever way the caller leaves, the slot is no longer its own and its buffer is accounted for |
| MailboxTheorems.NextInv | lib/src/http_fetch.cc:90-221 | every step of any caller and of the helper keeps the invariant of the mailbox |
| MailboxTheorems.InputsOutliveReaders | lib/src/http_fetch.cc:97-220 | once a call has returned, in whichever way, the helper does not read its inputs and no request it could pick up points to them, now or later |
| MailboxTheorems.HelperReadsOneCall | lib/include/duckdb/web/http_fetch.h:24-38 | what the helper reads are the inputs of one call that still waits, and a request that can be picked up is complete |
| MailboxTheorems.SlotsAreExclusive | lib/src/http_fetch.cc:97-107 | a slot belongs to at most one call |
| MailboxTheorems.BufferIsSettledOnce | lib/src/http_fetch.cc:138-171 | the allocated buffer is returned exactly once with OK, freed exactly once on failure, untouched after a hand-over; a request taken back has none |
| MailboxTheorems.WritesGoToLiveBuffers | lib/src/http_fetch.cc:138-171 | a buffer that the helper may still write is neither freed nor returned, and as large as the helper asked for |
| MailboxAnswers.AnswersFollowHelper | lib/src/http_fetch.cc:149-220 | in every run and for every way out: OK with the slot's buffer if and only if the helper left DONE; after FAILED or CANCELLED the call's own reason if it had aborted and allocated nothing, else FAILED; after a hand-over or a request taken back the reason of its abort; UNAVAILABLE after an unserved request was taken back and the ready word cleared |
| MailboxAnswers.RefusedOnlyIfBusy | lib/src/http_fetch.cc:94-107 | a call is refused a slot only if it found the ready word cleared, or every slot in use at some time while it looked |
| MailboxAnswers.BuffersAreAskedFor | lib/src/http_fetch.cc:138-147 | a buffer is allocated only while the helper asks for one, of that size, and not after an abort |
| MailboxAnswers.OkIsReachable | lib/src/http_fetch.cc:90-153 | there is a run in which a call returns OK with the buffer that the helper has filled |
| MailboxTheorems.AbortsAreRaised | lib/src/http_fetch.cc:188-220 | CANCELLED or TIMED_OUT is returned only after the abort lane was raised for that reason |
| JsonTypes.ParseNumberExact | lib/src/json_parser.cc:125-174 | exactly the integers in the type's range are accepted, unchanged, and the errors tell range from kind |
| JsonTypes.FindIsFirst | lib/src/json_parser.cc:587-596 | a field takes the first member of its name, and is null without one |
| JsonShredding.NullGrows | lib/src/json_parser.cc:571-572 | appending a null adds one aligned row that reads as null, at every level of nesting |
| JsonShredding.AppendValueAgrees | lib/src/json_parser.cc:447-601 | AppendValue fails exactly when the document does not fit the type, with the same error; else it adds exactly one row that reads back as the document's value, everything stays aligned and earlier rows unchanged |
| JsonMeaning.CoerceIsMeaning | lib/src/json_parser.cc:93-174 | for every type and document, the value the parser reads is x if and only if the document stands for x, said by cases on type, document and value alone: numbers within their literal bounds, booleans, strings, lists element by element, maps pair by pair, and a struct's fields by position or by the first member of that name |
| JsonMeaning.AppendedRowStands | lib/src/json_parser.cc:447-601 | so the row that AppendValue adds reads back as the one value its document stands for, and it fails exactly on documents that stand for none |
| JsonShredding.AppendItemsAgree | lib/src/json_parser.cc:262-272 | the same for the elements of an array, up to the first error |
| JsonShredding.AppendPairsAgree | lib/src/json_parser.cc:495-511 | the pairs of a map reach the key and item columns in step |
| JsonShredding.AppendFieldsAgree | lib/src/json_parser.cc:573-598 | every field of a struct grows by one row, in order or by name, omitted ones by a null |
| JsonShredding.ArrayIsLossless | lib/src/json_parser.cc:262-272 | from empty builders, row i is the value of element i |
| JsonFailures.FailedRow | lib/src/json_parser.cc:468-500 | a list, map or fixed-size list that fails has its row already, other types do not |
| JsonFailures.AlignedAfterFailure | lib/src/json_parser.cc:447-601 | for every type and every document that does not fit it, the builders are aligned after the failure if and only if FailsAligned holds: a condition on the type and the document alone, whatever was appended before |
| JsonFailures.ItemsAfterFailure | lib/src/json_parser.cc:262-272 | the same for an array that fails at one of its elements: that element decides |
| JsonFailures.FailureCanMisalign | lib/src/json_parser.cc:573-583 | a struct that fails in its second field leaves its children unequally long |
| JsonParser.ArrayParser.Resolve | lib/src/json_parser.cc:841-894 | the parsers of all nested types, each with a builder of its own and nothing in it |
| JsonParser.ArrayParser.AppendValue | lib/src/json_parser.cc:447-601 | the builders after the call, in place, are those of the specification, and so is the error |
| JsonParser.ArrayParser.AppendValues | lib/src/json_parser.cc:262-272 | the same for a whole array |
| JsonParser.ArrayParser.AppendMap | lib/src/json_parser.cc:495-511 | the same for a map |
| JsonParser.ArrayParser.AppendStruct | lib/src/json_parser.cc:571-600 | the same for a struct |
| JsonParser.ArrayParser.Finish | lib/include/duckdb/web/json_parser.h:41-48 | gives the column out and leaves all builders empty |
| JsonStream.ReadNested | lib/src/json_table.cc:81-107 | the events of a value below the outer array put that value on the document's stack and change nothing else |
| JsonStream.ReadElement | lib/src/json_table.cc:48-107 | an element of the outer array counts once, however nested, and fills the batch or not |
| JsonStream.ReadIsChunk | lib/src/json_table.cc:131-145 | for every n >= 1 a read hands over the next n elements, or all that are left, although the parser's own count spans batches |
| JsonStream.BatchesAreTheArray | lib/src/json_table.cc:131-145 | the batches add up to the array, none is empty and only the last may be shorter |
| JsonTable.RunIsOneShot | lib/src/json_table.cc:131-145 | for every batch size the run fails exactly when the one-shot parse fails, with the same error; else its batches are the one-shot result |
| JsonTable.TableRunIsAligned | lib/src/json_table.cc:295-331 | every batch of a column table has equally long columns and all but the last have n rows |
| JsonTable.TableRunIsPadded | lib/src/json_table.cc:317-326 | over the run each column adds up to its array padded with nulls to the longest column |
| JsonReader.ArrayBuffer.HandleEvent | lib/src/json_table.cc:52-107 | each event changes stack, depth, size and done as specified |
| JsonReader.ArrayReader.ReadNextN | lib/src/json_table.cc:131-145 | the loop over the events hands the specified document to the parser |
| JsonReader.RowRunIsOneShot | lib/src/json_table.cc:190-202 | for every batch size the run over an array of rows is free of errors if and only if all rows fit and none is null, and then its batches are the rows read at once; else the error is exactly given |
| JsonReader.RowArrayTableReader.ReadAll | lib/src/json_table.cc:190-202 | calling ReadNext to the end or the first error gives the batches of that run and its error |
| JsonReader.RowArrayTableReader.ReadNext | lib/src/json_table.cc:190-202 | the next batch holds the values of the next rows; None exactly at the end; an error for documents that do not fit or null rows |
| JsonReader.ColumnObjectTableReader.ReadNext | lib/src/json_table.cc:295-331 | the next batch holds each column's next values padded with nulls to the longest, None when all are over, the first column's error otherwise |
| JsonReader.ColumnRunIsOneShot | lib/src/json_table.cc:295-331 | for every batch size the run over columns is free of errors if and only if all columns fit their types, and then it is the aligned and padded run over their values |
| JsonReader.ColumnObjectTableReader.ReadAll | lib/src/json_table.cc:295-331 | calling ReadNext to the end or the first error gives the batches of that run, column by column, and its error |
| JsonReader.ChunksFollowRun | lib/src/json_table.cc:295-331 | successive batches of columns that fit their types are those of the run |
| Glob.GlobToRegex | lib/src/io/glob.cc:16-117 | the scan emits the text of the specification, for all options but case |
| Glob.RegexReadsBack | lib/src/io/glob.cc:26-111 | with the plain options the text reads back as the pattern's characters and runs of stars, each run as one, if and only if every backslash is followed by one of / = ! and comma |
| Glob.RegexMeansGlob | lib/src/io/glob.cc:16-117 | and then it accepts a name without line breaks exactly when the glob does |
| Glob.RegexIsGlob | lib/src/io/glob.cc:16-117 | a pattern whose text can be read as an expression accepts the same names without line breaks as its glob if and only if every backslash is harmless, or the pattern itself has a line break |
| Glob.BackslashChangesMeaning | lib/src/io/glob.cc:107-109 | a pattern with a backslash before a dot accepts a name without a dot |

## Left out

- `SharedMutex`, and with it the file and frame latches as code: they are abstract reader and writer locks; `try_lock_shared` re-tests a stale value.
- `FileRef::Truncate`: it does not cap the frame size at the page size.
- `ReOpen`: it does not update the recorded flags, and neither does the model, which keeps the handle out.
- Direct I/O, I/O errors and file statistics of the page buffer and the file system.
- Eviction liveness with several threads: a refixed frame can stay RELOADED.
- FrameInvariant.NextInv: any unused loaded frame may be the victim, so that the choice by lists and the file latches are left to the sequential model; the state NEW never occurs.
- Waiting, timeouts and wake-ups of the VGI channel and of the mailbox: every wait is a step that does nothing.
- Channels beyond 2^31 bytes: `alignUp` masks 32-bit numbers, the model rounds without a width.
- Streams of 2^31 bytes and more on one claim: positions are never reduced, so a commit beyond that is not a step of the model.
- Workers that are not told the claim they serve and adopt the one in STATE.
- VgiTheorems.NextInv: a channel starts with reservation and sequence lanes at 0, which `initChannel` does not store.
- VgiTheorems.TerminalSnapshot: an error close counts as clean when it is the first of its claim and the claim is current at each of its stores.
- MailboxTheorems.NextInv: the hand-over after the abort grace is one step; a caller paused between its store and its exchanges could free a slot that has a new owner.
- The mailbox's doorbell and slot-size lanes, and the other HTTP paths.
- Decimals, timestamps, floats, binary and dictionary types, and unions in JSON; the JSON text of a non-string value in a string column is a symbol (`VText`).
- `seekoff` and `seekpos` of the input stream; from the current position `seekoff` reads an uninitialised value.
- Reads of a stream after a slice without a page, whose get area does not belong to the slice.
- PageBuffer.FilePageBuffer.Write: positional writes of appending files into a page that starts beyond the end of the file are not covered; loading such a page computes its size by a subtraction of unsigned numbers that wraps around.
- JsonReader.ColumnObjectTableReader.ReadNext: columns have distinct names and a boundary each; finding the boundaries and opening the streams are not modelled.
- Malformed JSON text: the events are those of a well-formed array; the tokenizer of rapidjson is foreign code.
- Extended, globstar and global globs as far as their meaning goes: the emitted text is modelled, not what it accepts; case folding.
- `json_analyzer.cc`, `arrow_casts`, `web_filesystem.cc`, `webdb.cc`, `http_wasm.cc` and the remaining functions of `js-stubs.js`: foreign calls, plumbing or easy members.
