# BATorrent: media pipeline, library list, engine link and parsers, modelled and proved

This project models the parts of BATorrent where a mistake is hardest to see and
proves what they promise for every input and every run. Each part has a
specification on plain values (datatypes and functions), imperative Dafny that
follows the C++ step by step and is proved equal to the specification, and
lemmas that say what the specification guarantees.

| files | what they model |
|---|---|
| `MediaFeed.dfy` | the player's side of byte-range reads: one sliding window over one HTTP range reply, with retry, refusal and trimming |
| `RemoteSource.dfy` | the decoder child's blocking device: cache, outstanding requests, sleeping readers |
| `MediaPipeline.dfy`, `MediaLedger.dfy` | both ends and the two channels between them as one transition system: source changes, restarts, late messages |
| `MediaRefusal.dfy` | a read that asks for too much, followed through both processes and over whole runs |
| `MediaWindow.dfy`, `MediaDevice.dfy` | what each step of the feed and of the device does, said outright: what is answered, asked for, kept and dropped |
| `MediaProgress.dfy` | that reads get through, from opening a source to the bytes, across both processes |
| `FrameRing.dfy` | decoded frames through three shared slots, with busy flags, releases and ring generations |
| `FrameBytes.dfy` | the ring and the packing put together: which bytes of which slot the player copies |
| `FrameFlow.dfy` | that frames get through: rings large enough, frames sent and shown; and when they are not |
| `MediaEndpoints.dfy` | `MediaHost` and `IsolatedMediaPlayer`, the objects that hold the above together |
| `MediaFrame.dfy` | packing a frame's planes into a slot and copying them out again |
| `NameKeys.dfy`, `LibraryGroups.dfy` | the key of a title, the key of a torrent, and the grouped layout |
| `LibraryOrder.dfy` | which torrents share a row and in which order, said of the torrents' own data |
| `LibraryRows.dfy` | `rebuild`: removals, one permutation, insertions, and what the views are told |
| `LibraryModel.dfy` | row keys, row and source lookups, opening groups |
| `LibraryChanges.dfy` | which signals about changed data make the list regroup, and which changes it then misses |
| `IpcProtocol.dfy` | length-prefixed frames, also when a handler reads the socket again |
| `IpcEngine.dfy` | blocking calls over one connection, and the crash-loop guard |
| `IpcLink.dfy` | the calls over the framing: replies as frames of the stream, handled between nested calls |
| `IpcReturns.dfy` | when a call returns, over the calls and over the frames |
| `Codec.dfy` | the stream operators of the records on the wire |
| `FileTree.dfy` | a torrent's paths as a flat pre-order list, and back |
| `Utf8.dfy` | decoding bytes a piece at a time, with nothing remembered in between |
| `LogParser.dfy` | the log window's incremental parser and its polling of a growing file |
| `LogHeads.dfy`, `LogEntries.dfy` | which lines have a head, as a grammar, and what each entry of the log tells |
| `Common.dfy` | options, bytes, slices, multisets |

## What the proofs found

- Reads of an isolated decoder are exact in every interleaving, although request
  ids restart for each source (`MediaPipeline.ReadsAreExact`), and a sleeping
  reader's request is always in exactly one place (`MediaLedger.NoReadIsLost`).
- Row keys are unique if and only if no torrent hash spells another hash followed
  by `#` and the number of one of its later rows (`LibraryKeys.KeysDistinct`);
  `LibraryKeys.HashMarkCollides` is a list on which they do collide. Hexadecimal
  hashes never clash.
- Calls over one connection get their own result in every run of up to n calls if
  and only if n is at most 2^32 (`IpcCalls.ExactlySoManyCalls`). One more can
  receive another call's late reply (`IpcCalls.WrappedIdTakesLateReply`).
- A frame arrives if and only if its body is within 64 MiB. What shares a piece
  with an oversized header is lost, what comes in the next piece is not
  (`IpcFraming.OversizeForgets`), so how a stream is cut up does not matter
  exactly when no byte of it follows such a header (`IpcFraming.ChunkIndependence`).
- A call returns its result if and only if its reply was handled after it began and no
  later call found more than 64 replies kept (`IpcReturns.ReturnsExactly`; over the
  frames, `IpcLinkReturns.ReturnsExactly`).
- The crash guard lets at most nine respawns into any 30 seconds, and nine can
  happen (`CrashGuard.CrashLoopIsBounded`, `CrashGuard.NineIsReached`).
- A read that wants more than 4 MiB with more than that left is asked for in one
  request. The player refuses it, the refusal fails the device, and every later
  read of that source returns -1 (`MediaRefusal.OneReadEndsTheSource`; over whole
  runs, `RefusalRuns.TooLongIsRefused`, `RefusalRuns.FailedSourceIsOver`). Past 2 GiB
  the length is cut to 32 bits; a request is refused outright exactly when the last
  32 bits of what is wanted are not between 1 and 4 MiB (`MediaRefusal.AskedTooMuch`,
  `MediaRefusal.TooLongExactly`).
- The child asks for a ring once per size and never for a smaller one, and the player
  makes none over 64 MiB (exactly: `FrameFlow.HeardIsHeld`). So a first frame over
  64 MiB leaves the child without a ring for every smaller one as well, until it is
  started anew (`FrameFlow.OneTooLarge`, `FrameFlow.StuckForGood`). With no such frame
  every frame asked for is sent and shown (`FrameFlow.AskedFramesGoOut`,
  `FrameFlow.TakenFrameIsShown`).
- The log window takes the file's size before it reads to the file's end. What is
  appended in between is parsed again by the next poll: the bytes read are those of
  the file if and only if nothing was appended in between before the last poll
  (`LogParserSpec.ReadOnceExactly`); two stamped lines can leave three entries
  (`LogParserSpec.SecondLineTwice`).
- Each piece is decoded by itself. Of a well-formed file, with nothing appended in
  between, the text read is the file's if and only if every later piece begins with a
  character's first byte and none with the bytes EF BB BF (`LogParserSpec.WellFormedReadExactly`; for any bytes,
  `LogParserSpec.TextReadExactly`). A poll between C3 and A9 leaves two broken
  characters in the log (`LogParserSpec.CharacterCut`).
- The library list rebuilds on a signal that names nothing or one of six kinds of
  data. A signal is enough for the changes of some data if and only if it
  rebuilds or the rows are not computed from that data
  (`LibraryChanges.SufficesExactly`). Each signal the torrent list sends is enough
  for what it names (`LibraryChanges.SentSuffices`), but the one of each second names
  none of what the rows are computed from: a film whose lookup is asked for again has
  year 0 meanwhile, and its group keeps the old order on show until the next signal
  that rebuilds (`LibraryChanges.TickMissesAYear`).
- A negative length in front of a vector reads as an empty list in some places and
  throws in others (`WireFormat.NegativeLengths`).

## Model

| member | source | states |
|---|---|---|
| `MediaPipeline.ReadsAreExact` | src/ipc/remotesource.cpp:35-73 | in every run of both processes, whatever error pages the server sends, every read of generation g at position p returned the bytes of source g at p, at most as many as asked, and nothing only at the end of the file |
| `MediaPipeline.RunSafe` | src/bridges/isolatedmediaplayer.cpp:244-273 | over whole runs every message to the child carries right bytes, or a right size, of its own generation's source |
| `MediaPipeline.ActSafe` | src/ipc/mediahost.cpp:130-148 | each step of either process or of the network keeps that |
| `MediaPipeline.UiReceivesSafe` | src/bridges/isolatedmediaplayer.cpp:311-314 | a read for another generation is dropped and one for the current source adds only right answers |
| `MediaPipeline.HttpDataSafe` | src/ipc/mediafeed.cpp:134-140 | news from the server adds only right answers to what is under way |
| `MediaPipeline.ChildReceivesSafe` | src/ipc/mediahost.cpp:134-148 | an arriving open, data or dataError leaves a device whose cache is part of its own source |
| `MediaPipeline.ReadsSafe` | src/ipc/remotesource.cpp:35-57 | a turn of a read logs only bytes of the open source |
| `MediaPipeline.AnswersOk` | src/bridges/isolatedmediaplayer.cpp:266-271 | the feed's signals become messages that are right for their generation |
| `MediaLedger.NoReadIsLost` | src/ipc/remotesource.cpp:46-55 | in every run a reader asleep on a byte of the current source has a request out that covers it, and that request is in exactly one of the queue of signals, the channel, the feed's list or the answers under way |
| `MediaLedger.RunAccounted` | src/ipc/mediahost.cpp:177-190 | over whole runs the requests of the open source and the places they can be in agree one to one |
| `MediaLedger.ActAccounted` | src/bridges/isolatedmediaplayer.cpp:301-314 | each step keeps the account of requests and of open messages under way |
| `MediaLedger.ActAwake` | src/ipc/remotesource.cpp:59-94 | each step of the whole system keeps that no reader sleeps in vain |
| `MediaLedger.AskedAccounted` | src/ipc/remotesource.cpp:46-52 | a new request of the device is on the way exactly once |
| `MediaLedger.UiReceivesAccounted` | src/ipc/mediafeed.cpp:68-91 | a request the player takes is answered, refused or listed, once |
| `MediaLedger.HttpDataAccounted` | src/ipc/mediafeed.cpp:134-172 | answering moves requests from the list to the channel and loses none |
| `MediaLedger.ChildReceivesAccounted` | src/ipc/mediahost.cpp:134-148 | an arriving message settles the request it answers and no other |
| `MediaLedger.OpenedAccounted` | src/ipc/mediahost.cpp:177-187 | a newly opened source starts with nothing under way, so its restarted ids are unambiguous |
| `MediaLedger.StaleAccounted` | src/ipc/mediahost.cpp:143-148 | messages of earlier sources leave the account as it is |
| `MediaLedger.AnswerTaken` | src/ipc/remotesource.cpp:59-76 | an honest answer to an outstanding request is never rejected |
| `MediaFeedSpec.OnHttpDataSettles` | src/ipc/mediafeed.cpp:134-172 | requests before = requests still waiting + answers, as multisets of ids; every data answer is non-empty, within what was asked and the file's own bytes; the window invariant holds |
| `MediaFeedSpec.RequestSettles` | src/ipc/mediafeed.cpp:68-91 | the same for a new request: answered, refused or waiting, and nothing else lost |
| `MediaFeedSpec.ServeLoopSettles` | src/ipc/mediafeed.cpp:148-172 | the walk over the list settles the list it started from |
| `MediaFeedSpec.ServeLoopOk` | src/ipc/mediafeed.cpp:148-172 | the walk keeps the window: at most 16 waiting, at most 16 MiB, a slice of the file |
| `MediaFeedSpec.ServeSettles` | src/ipc/mediafeed.cpp:142-178 | a whole pass, trimming included, settles its list and keeps the window |
| `MediaFeedSpec.FillOk` | src/ipc/mediafeed.cpp:137-138 | what is read from the reply goes on the window where the file goes on |
| `MediaFeedSpec.RejectSettles` | src/ipc/mediafeed.cpp:122-129 | a reply from the wrong place refuses every waiting request once |
| `MediaFeedSpec.ErrorPageRefuses` | src/ipc/mediafeed.cpp:112-132 | the network may bring any bytes in a reply that states no start (404, 416, a 206 without a range); the slot then refuses everything waiting and puts none of them on the window |
| `MediaFeedSpec.TrimKeepsPending` | src/ipc/mediafeed.cpp:182-190 | trimming drops no byte at or after a waiting offset and leaves a slice of the file |
| `MediaFeedSpec.NetworkKeepsOk` | src/ipc/mediafeed.cpp:102-107 | bytes arriving in an honest reply, or any bytes in one that will be rejected, keep the window invariant |
| `MediaFeedSpec.AnswerJustified` | src/ipc/mediafeed.cpp:150-156 | the bytes cut from the window are the file's at the offset asked |
| `MediaFeedSpec.ServeLoopMeasure` | src/ipc/mediafeed.cpp:148-172 | a pass never raises twice the number waiting plus the first one's unused retry |
| `MediaFeedSpec.DrainedLowersMeasure` | src/ipc/mediafeed.cpp:159-169 | a pass over a drained reply lowers it |
| `MediaFeedSpec.OnHttpDataMeasure` | src/ipc/mediafeed.cpp:134-140 | so does the whole slot, fill and rejection included |
| `MediaFeedSpec.PassesSpendMeasure` | src/ipc/mediafeed.cpp:142-172 | over any sequence of replies each drained pass spends one of the measure |
| `MediaFeedSpec.RetriesEnd` | src/ipc/mediafeed.cpp:159-169 | with no new requests, two drained passes per waiting request answer all of them: nothing is streamed again for ever |
| `MediaFeedObject.MediaFeed.Request` | src/ipc/mediafeed.cpp:68-91 | new state and signals are those of the specification, on every branch |
| `MediaFeedObject.MediaFeed.StreamFrom` | src/ipc/mediafeed.cpp:95-108 | an empty window at the offset and a fresh unchecked reply |
| `MediaFeedObject.MediaFeed.ReplyStartsAtBuffer` | src/ipc/mediafeed.cpp:112-132 | true exactly for a checked reply, a 200 at byte 0 or a 206 from the window's start; otherwise everything waiting is refused |
| `MediaFeedObject.MediaFeed.OnHttpData` | src/ipc/mediafeed.cpp:134-140 | new state and signals are the specification's |
| `MediaFeedObject.MediaFeed.ServePending` | src/ipc/mediafeed.cpp:142-178 | the in-place walk with removals and early return is the recursive pass |
| `MediaFeedObject.MediaFeed.TrimBuffer` | src/ipc/mediafeed.cpp:182-190 | the loop over the list trims as the specification does, and so as `MediaWindow.WindowTrimmed` says |
| `MediaWindow.WindowTrimmed` | src/ipc/mediafeed.cpp:182-190 | with m the least of the window's end, 2 MiB behind the reader and every waiting offset: if m is 4 MiB or more into the window, it begins at m afterwards and holds the bytes from there; otherwise nothing changes |
| `MediaWindow.TrimmedIsNeeded` | src/ipc/mediafeed.cpp:182-190 | afterwards the first 4 MiB of the window are needed, by the reader or by a waiting request, or the window is shorter |
| `MediaWindow.FullOnlyIfNeeded` | src/ipc/mediafeed.cpp:142-178 | after any pass that began no new stream, a window with no room is one the reader or a request still needs the front of |
| `MediaWindow.LivePass` | src/ipc/mediafeed.cpp:148-172 | while more may come: exactly the requests that are whole in the window, or have 64 KiB of it, or all there is of the file, are answered, in order and with all the window has of them; the others stay |
| `MediaWindow.LastPass` | src/ipc/mediafeed.cpp:159-169 | when no more will come: every request up to the first that asks again is answered with all there is or refused; that one has the feed stream from its offset |
| `MediaWindow.LastReader` | src/ipc/mediafeed.cpp:150-169 | and if none asks again the window stays and the reader is where the last answer ends |
| `MediaWindow.HttpDataDoes` | src/ipc/mediafeed.cpp:134-140 | news from the server: min(room, available) bytes are read, and a pass is made, the last one if the reply is finished and read to its end; a reply from elsewhere refuses everything |
| `MediaWindow.RequestDoes` | src/ipc/mediafeed.cpp:68-91 | a request is refused, read from the disk, served from the window or a stream that is near, or streamed from anew: which, and with what, on every branch |
| `MediaWindow.ReadsOn` | src/ipc/mediafeed.cpp:134-140 | while there is room and the reply has bytes, some are read; and no request is left waiting that the window can answer |
| `RemoteSourceSpec.NoReaderIsForgotten` | src/ipc/remotesource.cpp:28-94 | in every interleaving of readers, answers of any kind, failures and aborts, whoever sleeps has an outstanding request covering its byte, which has not arrived, on a device that is open |
| `RemoteSourceSpec.RunsKeepWakeUp` | src/ipc/remotesource.cpp:35-94 | whole runs keep it from any state that has it |
| `RemoteSourceSpec.HappensKeepsWakeUp` | src/ipc/remotesource.cpp:35-94 | every event keeps it |
| `RemoteSourceSpec.AttemptWakeUp` | src/ipc/remotesource.cpp:42-56 | a turn under the lock goes to sleep only with a covering request out |
| `RemoteSourceSpec.ReadExact` | src/ipc/remotesource.cpp:35-45 | a read returns the file's bytes at its position, empty only at the end |
| `RemoteSourceSpec.CopyCachedExact` | src/ipc/remotesource.cpp:16-26 | what is copied from the cache is the file's, at least one byte and at most what was asked |
| `RemoteSourceSpec.CopyCachedFinds` | src/ipc/remotesource.cpp:16-26 | the cache is found to have a byte if and only if some chunk has it |
| `RemoteSourceSpec.AskCovers` | src/ipc/remotesource.cpp:47-49 | the request covers the byte needed exactly when its 32-bit length is positive, and below 2 GiB its length is what is wanted, at most 4 MiB exactly when not more is wanted or left |
| `RemoteSourceSpec.DeliverKeeps` | src/ipc/remotesource.cpp:59-76 | a taken answer settles its own request only and stays cached through eviction; any other changes nothing |
| `RemoteSourceSpec.EvictKeeps` | src/ipc/remotesource.cpp:70-74 | eviction keeps the byte count right, within the limit or one chunk, and the newest chunk |
| `RemoteSourceSpec.FailKeeps` | src/ipc/remotesource.cpp:78-87 | a failure keeps the cache and the ids sound |
| `RemoteSourceObject.RemoteSource.CopyCachedAt` | src/ipc/remotesource.cpp:16-26 | the loop copies from the first chunk that has the byte as the specification does, and so as much as `MediaDevice.GotExactly` says |
| `RemoteSourceObject.RemoteSource.IsCovered` | src/ipc/remotesource.cpp:28-33 | true exactly when some request covers the byte |
| `RemoteSourceObject.RemoteSource.ReadTurn` | src/ipc/remotesource.cpp:35-57 | one turn of the wait loop, as specified |
| `RemoteSourceObject.RemoteSource.FindId` | src/ipc/remotesource.cpp:62-63 | the place of an id, or the end |
| `RemoteSourceObject.RemoteSource.Deliver` | src/ipc/remotesource.cpp:59-76 | new state as specified, eviction loop included |
| `RemoteSourceObject.RemoteSource.Fail` | src/ipc/remotesource.cpp:78-87 | new state as specified |
| `RemoteSourceObject.RemoteSource.Abort` | src/ipc/remotesource.cpp:89-94 | new state as specified, everyone woken |
| `MediaDevice.GotExactly` | src/ipc/remotesource.cpp:16-26 | before the end of an open device, with the byte in some chunk: the turn gets all that was asked for, as far as the first chunk that has the byte goes |
| `MediaDevice.ReadsGetAll` | src/ipc/remotesource.cpp:35-45 | in every run of both processes: such a read is logged with all it asked for, so one that lies within one cached chunk gets everything |
| `MediaDevice.AsksOrSleeps` | src/ipc/remotesource.cpp:46-55 | with the byte in no chunk: a request of that offset goes out exactly if none that is out covers the byte, for 1 MiB or what was asked, to the end of the file at most, cut to 32 bits; otherwise the reader sleeps |
| `MediaDevice.EvictedExactly` | src/ipc/remotesource.cpp:70-74 | the chunks that stay are the latest, as many as 32 MiB hold and at least one |
| `MediaDevice.Delivered` | src/ipc/remotesource.cpp:59-76 | an answer to a request that is out, from its offset on and no longer than asked, takes its request off the list and goes last into the cache; everyone is woken |
| `MediaDevice.NotDelivered` | src/ipc/remotesource.cpp:59-69 | any other answer changes nothing |
| `MediaDevice.FailedOrNot` | src/ipc/remotesource.cpp:78-94 | a failure of a request that is out closes the device and wakes everyone; of any other changes nothing |
| `MediaDevice.DeadlineWakesOne` | src/ipc/remotesource.cpp:55 | a deadline wakes the reader whose it is and no other |
| `MediaProgress.DeviceRuns` | src/ipc/remotesource.cpp:35-94 | the device alone: a reader asks, sleeps and takes no turn while it does, until its answer, a failure, an abort or its deadline, and what each leaves |
| `MediaProgress.EmptyOpens` | src/ipc/mediafeed.cpp:21-66 | an empty file is told by its size, an empty stream is not told at all, and no device is made for either |
| `MediaProgress.FileIsRead` | src/bridges/isolatedmediaplayer.cpp:244-273 | a run from start to end: a file is opened, a read asks, sleeps, is answered from the disk and returns all it asked for, as far as the file goes |
| `MediaProgress.StreamIsRead` | src/ipc/mediafeed.cpp:85-140 | the same for a stream: a new reply is opened at the offset, fills the window and the request is answered from it |
| `MediaRefusal.TooLongExactly` | src/ipc/remotesource.cpp:47 | what is wanted goes out with a length the feed does not take if and only if its last 32 bits are not between 1 and 4 MiB; below 2 GiB: if and only if more than 4 MiB are wanted and left |
| `MediaRefusal.AskedTooMuch` | src/ipc/mediafeed.cpp:70-74 | a request put by a read is refused by every feed of that size, in any state, if and only if it is too long |
| `MediaRefusal.StaysFailed` | src/ipc/remotesource.cpp:42-43 | a failed device stays failed through any events, answers included |
| `MediaRefusal.OneReadEndsTheSource` | src/ipc/remotesource.cpp:78-87 | one too long read: the player answers with exactly one dataError, the child fails the device, and after any further events every read of any reader before the end is turned away |
| `MediaRefusal.FiveMiB` | src/ipc/remotesource.cpp:46-49 | such a read: 5 MiB of a file of 5 MiB; and one whose length wraps to 1 and is taken |
| `RefusalRuns.TooLongIsRefused` | src/ipc/mediafeed.cpp:70-74 | in every run, once a read has asked for too much, then as long as that source is played and open its device has failed or the request or its refusal is on the way, and no bytes for it are |
| `RefusalRuns.FailedSourceIsOver` | src/ipc/remotesource.cpp:42-43 | in every run, from the failure of a source on, no read of its generation gets a byte |
| `RefusalRuns.OverForGood` | src/ipc/mediahost.cpp:143-148 | so from any safe state in which a failed source is not to be opened again |
| `RefusalRuns.ActOver` | src/ipc/remotesource.cpp:59-87 | each step of either process keeps a failed source failed and reads nothing of it |
| `RefusalRuns.ActDoomed` | src/bridges/isolatedmediaplayer.cpp:311-314 | each step of either process keeps a request that is too long on its way to its refusal |
| `FrameRing.RingIsSafe` | src/ipc/mediahost.cpp:247-268 | in every run a slot of the child's ring is busy exactly while one frame or release for it is under way, and every frame the player copied is the one packed under its header |
| `FrameRing.NeverOverwrites` | src/ipc/mediahost.cpp:247-266 | in every run the next frame never lands on one of the same ring the player has yet to copy |
| `FrameRing.SlotsComeBack` | src/bridges/isolatedmediaplayer.cpp:419 | with both channels empty every slot is free: none leaks |
| `FrameRing.WritesOnlyFreeSlots` | src/ipc/mediahost.cpp:247-258 | the slot written has nothing in flight |
| `FrameRing.CopyExact` | src/bridges/isolatedmediaplayer.cpp:410-418 | a usable frame that is copied is the one its header stands for, pictures being named by a stamp (their bytes are in `FrameBytes`) |
| `FrameRing.RunOk` | src/ipc/mediahost.cpp:203-215 | the ring invariant over whole runs, swaps and restarts included |
| `FrameRing.ActOk` | src/bridges/isolatedmediaplayer.cpp:394-432 | each step keeps it |
| `FrameRing.DecodesOk` | src/ipc/mediahost.cpp:237-268 | packing a frame keeps it |
| `FrameRing.HostReceivesOk` | src/ipc/mediahost.cpp:171-173 | a ring or a release arriving, of any generation, keeps it |
| `FrameRing.PlayerReceivesOk` | src/bridges/isolatedmediaplayer.cpp:394-419 | sharing a new ring and showing a frame keep it |
| `FrameRing.FreeSlot` | src/ipc/mediahost.cpp:247-249 | the first slot that is not busy, or none |
| `FrameFlow.SharesEnough` | src/bridges/isolatedmediaplayer.cpp:394-408 | for a size above the present one and within 64 MiB, if a segment can be made: one ring under the next generation, at least as large as asked and at most a quarter larger; otherwise nothing |
| `FrameFlow.HeardIsHeld` | src/bridges/isolatedmediaplayer.cpp:394-408 | once heard, the player's ring holds the size asked for if and only if it did before or a segment can be made and the size is within 64 MiB |
| `FrameFlow.AskedFramesGoOut` | src/ipc/mediahost.cpp:237-268 | in every run in which segments can be made and no frame is over 64 MiB: once a ring has been asked for and no wish and no ring is under way, each frame as large or smaller goes out in the first free slot |
| `FrameFlow.TakenFrameIsShown` | src/bridges/isolatedmediaplayer.cpp:410-419 | in every run a frame of the player's own ring that it takes is shown, and is the one its header stands for |
| `FrameFlow.AskedFramesFlow` | src/bridges/isolatedmediaplayer.cpp:410-419 | so with both channels empty the next such frame is sent, copied and shown |
| `FrameFlow.SmoothRun` | src/ipc/mediahost.cpp:203-245 | over such runs the player's ring is the child's or on its way, and what the child asked for is held or on its way |
| `FrameFlow.OneTooLarge` | src/ipc/mediahost.cpp:240-241 | a first frame over 64 MiB is refused a ring, and leaves the child having asked for more than any ring has |
| `FrameFlow.StuckForGood` | src/ipc/mediahost.cpp:237-245 | from there on no smaller frame asks for a ring: nothing moves until the child starts anew |
| `FrameBytes.PicturesArriveWhole` | src/bridges/isolatedmediaplayer.cpp:410-418 | in every run, ring swaps and restarts included, the slot of a usable frame holds, byte for byte, the picture packed under its header |
| `FrameBytes.RowsComeOut` | src/ipc/mediaframe.cpp:96-116 | each byte the player then copies out, row by row, is the packed picture's |
| `FrameBytes.OtherSlotsStay` | src/ipc/mediahost.cpp:260-268 | writing one slot leaves the bytes of every other slot |
| `FrameBytes.ActKeeps` | src/ipc/mediahost.cpp:247-268 | each step keeps every slot holding what the ring model says was packed there |
| `MediaEndpoints.MediaHost.CloseSource` | src/ipc/mediahost.cpp:193-201 | the old device is aborted before it goes |
| `MediaEndpoints.MediaHost.OpenSource` | src/ipc/mediahost.cpp:177-190 | the child's step of the pipeline: an empty source is refused, another starts fresh under its generation |
| `MediaEndpoints.MediaHost.TakesAnswer` | src/ipc/mediahost.cpp:140-148 | only the open generation's messages reach the device |
| `MediaEndpoints.MediaHost.AttachRing` | src/ipc/mediahost.cpp:203-215 | a mapped ring replaces the old one with all slots free |
| `MediaEndpoints.MediaHost.TakesRelease` | src/ipc/mediahost.cpp:171-173 | a release frees its slot only in its own ring generation |
| `MediaEndpoints.MediaHost.OnFrame` | src/ipc/mediahost.cpp:217-269 | the slot loop, the dropped frames and the one request per size, as specified |
| `MediaEndpoints.IsolatedMediaPlayer.StartFeed` | src/bridges/isolatedmediaplayer.cpp:244-273 | a new generation with a fresh feed |
| `MediaEndpoints.IsolatedMediaPlayer.Forward` | src/bridges/isolatedmediaplayer.cpp:266-271 | the feed's signals go out in order under the feed's generation |
| `MediaEndpoints.IsolatedMediaPlayer.TakesRead` | src/bridges/isolatedmediaplayer.cpp:311-314 | the player's step of the pipeline |
| `MediaEndpoints.IsolatedMediaPlayer.TakesHttpData` | src/bridges/isolatedmediaplayer.cpp:255-271 | news of the reply, forwarded |
| `MediaEndpoints.IsolatedMediaPlayer.ShareRing` | src/bridges/isolatedmediaplayer.cpp:394-408 | a larger ring under the next generation, or nothing, as specified, and so as large as `FrameFlow.SharesEnough` says |
| `MediaEndpoints.IsolatedMediaPlayer.ShowFrame` | src/bridges/isolatedmediaplayer.cpp:410-432 | the copy is made before the slot is released, and the release always goes out |
| `MediaEndpoints.IsolatedMediaPlayer.Teardown` | src/bridges/isolatedmediaplayer.cpp:507-529 | the feed and the ring go, the generations stay |
| `MediaFrameSpec.PlanesApart` | src/ipc/mediaframe.cpp:20-49 | planes start on 64-byte lines, do not overlap and end within the packed size |
| `MediaFrameSpec.SizeIsTight` | src/ipc/mediaframe.cpp:20-26 | the packed size leaves less than one line over after the last plane |
| `MediaFrameSpec.OffsetsGrow` | src/ipc/mediaframe.cpp:39-47 | each plane ends before the next begins |
| `MediaFrameSpec.PackedFits` | src/ipc/mediaframe.cpp:82-94 | a packed frame's header is accepted if and only if its format is allowed, its sides are in range and its planes have rows and bytes |
| `MediaFrameSpec.Refused` | src/ipc/mediaframe.cpp:82-94 | a header is refused whose format is not allowed, whose sides or number of planes are out of range, or of which a plane has no rows or bytes or leaves the slot |
| `MediaFrameSpec.RowsInside` | src/ipc/mediaframe.cpp:108-116 | for any accepted header every row read lies in the slot, every row written in its plane, and no product overflows |
| `MediaFrameSpec.CheckFits64` | src/ipc/mediaframe.cpp:109 | the bounds check itself cannot overflow 64 bits |
| `MediaFrameSpec.RowsRestored` | src/ipc/mediaframe.cpp:96-116 | each byte of each row comes back as it was packed, as far as both strides go |
| `MediaFrameSpec.SameLayoutRestored` | src/ipc/mediaframe.cpp:96-116 | with the same stride and whole rows the plane is accepted and comes back byte for byte |
| `MediaFrame.PackedSize` | src/ipc/mediaframe.cpp:20-26 | the loop, in 64-bit arithmetic, computes the layout's size |
| `MediaFrame.Pack` | src/ipc/mediaframe.cpp:28-51 | succeeds exactly when the planes are one to four and fit; then the slot holds every plane where the header says and is otherwise unchanged; failing, it changes nothing |
| `MediaFrame.PackPlane` | src/ipc/mediaframe.cpp:40-48 | one more plane in its place, the earlier ones untouched |
| `MediaFrame.CopyIn` | src/ipc/mediaframe.cpp:46 | the bytes in place, everything around them as before |
| `MediaFrame.HeaderFits` | src/ipc/mediaframe.cpp:82-94 | true exactly when every plane lies in the slot and every field is in range |
| `MediaFrame.Unpack` | src/ipc/mediaframe.cpp:96-124 | gives a frame exactly for an accepted header whose rows fit the allocated planes; then every row of every plane is copied |
| `MediaFrame.UnpackPlane` | src/ipc/mediaframe.cpp:104-116 | one plane, in 64-bit arithmetic, with every access in bounds |
| `MediaFrame.CopyRow` | src/ipc/mediaframe.cpp:116 | one row, the rows before it untouched |
| `NameKeys.SameKeySameWords` | src/bridges/librarygroups.cpp:12-27 | two titles have one key if and only if their lower-case words agree |
| `NameKeys.KeyOfKey` | src/bridges/librarygroups.cpp:12-27 | a key is its own key |
| `NameKeys.KeyOfWord` | src/bridges/librarygroups.cpp:12-27 | a title of word characters only is its own key but for case |
| `NameKeys.KeyOfTwo` | src/bridges/librarygroups.cpp:12-27 | any other character parts a title: its key is the two parts' keys with one space between, or the one that is not empty |
| `NameKeys.ComputeNameKey` | src/bridges/librarygroups.cpp:12-27 | the loop with its gap flag gives the words, one space between |
| `LibraryGroupsSpec.SharedKey` | src/bridges/librarygroups.cpp:38-53 | two torrents share a key if and only if they are of one show (their own, or the one their name is tied to), or of none and have one name, or neither and are in one collection |
| `LibraryOrder.SharedExactly` | src/bridges/librarygroups.cpp:31-53 | the same without the lookup: of one show, each its own or that of the first resolved torrent of its name; or of none and of one name; or of neither and in one collection |
| `LibraryGroupsSpec.NamedAlike` | src/bridges/librarygroups.cpp:31-43 | a name is tied to a show if and only if some resolved torrent has it |
| `LibraryGroupsSpec.NumberReadsBack` | src/bridges/librarygroups.cpp:45 | decimal numbers read back, so different shows have different keys |
| `LibraryGroupsSpec.StableSortSorts` | src/bridges/librarygroups.cpp:68-75 | the sorted group is in the order of the comparison, which `LibraryOrder.BeforeIs` spells out, and then of position |
| `LibraryOrder.GroupInOrder` | src/bridges/librarygroups.cpp:68-75 | in every group of every layout each torrent stands before the later ones by season, or then by episode, or then by year, or then by name (a beginning of the other, or smaller at the first difference), or then by its place in the list |
| `LibraryOrder.BeforeIs` | src/bridges/librarygroups.cpp:68-75 | the comparison is that order, in both directions |
| `LibraryOrder.ComparedNames` | src/bridges/librarygroups.cpp:74 | a folded name compares as smaller if and only if it is a beginning of the other or smaller where they first differ, and as equal only to itself |
| `LibraryGroupsSpec.BeforeTransitive` | src/bridges/librarygroups.cpp:68-75 | the comparison with ties broken by position is transitive |
| `LibraryGroupsSpec.BeforeTotal` | src/bridges/librarygroups.cpp:68-75 | and total: the sorted list is unique |
| `LibraryGroupsSpec.CompareFlips` | src/bridges/librarygroups.cpp:74 | comparing two folded names the other way round gives the opposite |
| `LibraryGroupsSpec.CompareTransitive` | src/bridges/librarygroups.cpp:74 | comparing folded names is transitive, and equal only if both steps are |
| `LibraryGroupsSpec.LayoutPartitions` | src/bridges/librarygroups.cpp:56-110 | each torrent is shown by exactly one row that is not a child |
| `LibraryGroupsSpec.LayoutOrdered` | src/bridges/librarygroups.cpp:78-109 | those rows come in order of their first torrent; a group has two or more members, all those of one key, sorted; a torrent on a row of its own shares its key with no other |
| `LibraryGroupsSpec.LayoutOpens` | src/bridges/librarygroups.cpp:99-107 | an open group is followed at once by one child per member, and without children the layout is the closed one |
| `LibraryOrder.RowsInOrder` | src/bridges/librarygroups.cpp:78-109 | rows that are no children stand in the order of their first torrents |
| `LibraryOrder.ChildrenFollow` | src/bridges/librarygroups.cpp:99-107 | in every layout an open group has its children right behind it, one for each torrent and in their order, and no other row is a child |
| `LibraryGroupsSpec.OnlyTheLayout` | src/bridges/librarygroups.cpp:56-110 | the layout is the only row list with these properties: any rows that are so grouped, sorted, ordered and opened and show every torrent are the layout |
| `LibraryGroupsSpec.FirstIsFirst` | src/bridges/librarygroups.cpp:90-98 | a group stands where its first member would |
| `LibraryGroupsSpec.GroupIs` | src/bridges/librarygroups.cpp:60-76 | a group is its members' list rearranged |
| `LibraryGroups.CollectNames` | src/bridges/librarygroups.cpp:33-36 | each name is tied to the first resolved show that has it |
| `LibraryGroups.ComputeKeys` | src/bridges/librarygroups.cpp:38-53 | the loop computes the keys |
| `LibraryGroups.Collect` | src/bridges/librarygroups.cpp:60-63 | the hash holds each key's indices in order |
| `LibraryGroups.SortGroups` | src/bridges/librarygroups.cpp:67-76 | each group sorted, none added or lost |
| `LibraryGroups.AppendGroup` | src/bridges/librarygroups.cpp:94-107 | a header and, when open, its children |
| `LibraryGroups.PlaceAt` | src/bridges/librarygroups.cpp:81-108 | one turn of the placement loop |
| `LibraryGroups.ComputeLayout` | src/bridges/librarygroups.cpp:56-110 | the imperative layout is the specified one |
| `LibraryRows.RowList.Rebuild` | src/bridges/qmllibrarymodel.cpp:330-395 | from any list with distinct keys the rows become the wanted ones; replaying the notifications on the old keys gives the new keys, no key in both is removed and put back, each persistent index follows its key, and the flag says whether the key sequence changed |
| `LibraryRows.RowList.RemoveGone` | src/bridges/qmllibrarymodel.cpp:339-348 | the first phase leaves exactly the wanted rows in their old order |
| `LibraryRows.RowList.RemoveRun` | src/bridges/qmllibrarymodel.cpp:340-347 | one run of unwanted rows goes, told as one range |
| `LibraryRows.RowList.FirstOfRun` | src/bridges/qmllibrarymodel.cpp:341-342 | everything from the found row on is unwanted |
| `LibraryRows.RowList.RemoveRange` | src/bridges/qmllibrarymodel.cpp:343-345 | the rows, the notification and every persistent index agree |
| `LibraryRows.RowList.IsSorted` | src/bridges/qmllibrarymodel.cpp:351 | true exactly when ranks never fall |
| `LibraryRows.RowList.Reorder` | src/bridges/qmllibrarymodel.cpp:350-365 | the second phase puts the rest in the wanted order by one permutation, or leaves it alone |
| `LibraryRows.RowList.Permute` | src/bridges/qmllibrarymodel.cpp:352-363 | the rows become the sorted ones and every persistent index moves with its key |
| `LibraryRows.RowList.Positions` | src/bridges/qmllibrarymodel.cpp:355-356 | each key's place |
| `LibraryRows.RowList.MovedViews` | src/bridges/qmllibrarymodel.cpp:357-360 | where each held index has to go |
| `LibraryRows.RowList.PresentKeys` | src/bridges/qmllibrarymodel.cpp:367-368 | exactly the keys of the list |
| `LibraryRows.RowList.EndOfRun` | src/bridges/qmllibrarymodel.cpp:378-379 | everything up to the found row is new |
| `LibraryRows.RowList.InsertRun` | src/bridges/qmllibrarymodel.cpp:378-384 | one run of new rows comes in, told as one range |
| `LibraryRows.RowList.InsertRange` | src/bridges/qmllibrarymodel.cpp:380-382 | the rows, the notification and every persistent index agree |
| `LibraryRows.RowList.RefreshRow` | src/bridges/qmllibrarymodel.cpp:371-376 | a row that stays sits where the wanted list has it and takes its contents |
| `LibraryRows.RowList.InsertNew` | src/bridges/qmllibrarymodel.cpp:367-385 | the third phase ends with the wanted list |
| `LibraryRowsSpec.RebuildTold` | src/bridges/qmllibrarymodel.cpp:337-385 | the three phases' notifications put end to end explain the whole change |
| `LibraryRowsSpec.RebuildChanged` | src/bridges/qmllibrarymodel.cpp:393-394 | some phase acts if and only if the key sequence changes |
| `LibraryRowsSpec.SortRowsOrders` | src/bridges/qmllibrarymodel.cpp:353-354 | sorting by target puts keys in the target's order |
| `LibraryRowsSpec.SortedKeys` | src/bridges/qmllibrarymodel.cpp:353-354 | and keeps exactly the same keys |
| `LibraryRowsSpec.AmongIsUnique` | src/bridges/qmllibrarymodel.cpp:351-363 | there is only one list of the wanted keys in the wanted order |
| `LibraryRowsSpec.KeepIs` | src/bridges/qmllibrarymodel.cpp:339-348 | what is kept is exactly what was there and is wanted |
| `LibraryRowsSpec.FollowThrough` | src/bridges/qmllibrarymodel.cpp:357-362 | following a key phase by phase is following it from start to end |
| `LibraryRowsSpec.FollowRemove` | src/bridges/qmllibrarymodel.cpp:343-345 | an index after a removal is its key's place |
| `LibraryRowsSpec.FollowInsert` | src/bridges/qmllibrarymodel.cpp:380-382 | an index after an insertion is its key's place |
| `LibraryKeys.KeysDistinct` | src/bridges/qmllibrarymodel.cpp:313-321 | row keys are distinct if and only if no hash spells another hash with one of its numbers |
| `LibraryKeys.PlainHashes` | src/bridges/qmllibrarymodel.cpp:316-320 | hashes without `#` never clash |
| `LibraryKeys.HashMarkCollides` | src/bridges/qmllibrarymodel.cpp:318-320 | a list of three torrents on which two rows get one key |
| `LibraryModelSpec.WantedDistinct` | src/bridges/qmllibrarymodel.cpp:304-324 | computed rows have distinct keys, given hashes without `#` |
| `LibraryModelSpec.FoundWhereShown` | src/bridges/qmllibrarymodel.cpp:411-441 | a session row the filter shows is found on a row that stands for it; a hidden one is not found |
| `LibraryModelSpec.RevealedRow` | src/bridges/qmllibrarymodel.cpp:555-565 | with its group open, the row found maps back to the session row |
| `LibraryModelSpec.RowKeyIs` | src/bridges/qmllibrarymodel.cpp:308-324 | a header has its group's key; any other row the hash of its torrent, and from the second row of that hash on the number of earlier ones; the rest of a row is the layout's |
| `LibraryModelSpec.GroupRowKey` | src/bridges/qmllibrarymodel.cpp:421-429 | a group row has the key of every torrent on it |
| `LibraryModelSpec.ShapeShows` | src/bridges/qmllibrarymodel.cpp:306-312 | every torrent of the filter is on a row that is not a child |
| `LibraryModelSpec.ShapeOpens` | src/bridges/qmllibrarymodel.cpp:306-312 | one in an open group has a row of its own |
| `LibraryModelSpec.ProxyRow` | src/bridges/qmllibrarymodel.cpp:413 | the filter's row of a session row, or -1 exactly when there is none |
| `LibraryModelSpec.SourcesExact` | src/bridges/qmllibrarymodel.cpp:431-441 | one session row per member, in order |
| `LibraryModel.NextKey` | src/bridges/qmllibrarymodel.cpp:313-321 | the running counts give the row's key |
| `LibraryModel.ComputeKeyed` | src/bridges/qmllibrarymodel.cpp:304-324 | the loop with its hash of counts computes the keyed rows |
| `LibraryModel.QmlLibraryModel.ComputeRows` | src/bridges/qmllibrarymodel.cpp:285-325 | the layout with keys |
| `LibraryModel.QmlLibraryModel.Rebuild` | src/bridges/qmllibrarymodel.cpp:330-395 | the rows are the computed ones, persistent indices follow their keys, and the flag says whether keys changed |
| `LibraryModel.QmlLibraryModel.FilterChanged` | src/bridges/qmllibrarymodel.cpp:65-70 | after rows are inserted, removed or moved, a new layout or a reset, the rows are the computed ones for whatever the filter is then |
| `LibraryModel.QmlLibraryModel.DataChanged` | src/bridges/qmllibrarymodel.cpp:71-77 | new data rebuilds exactly when no role or one of the six grouping roles is named, and the rows are then the computed ones, whatever they were before; rows that were right stay right exactly if it rebuilds or the computed rows are the same, and always if the signal is one of the three that are sent and names all that changed |
| `LibraryChanges.SufficesExactly` | src/bridges/qmllibrarymodel.cpp:71-77 | for any two sets of roles: a signal that names the one keeps the rows right through all changes of the other if and only if it regroups or the rows are not computed from any of that data |
| `LibraryChanges.RegroupsOn` | src/bridges/qmllibrarymodel.cpp:18-23 | a signal regroups if and only if it names no role or name, show id, show key, season, episode or collection |
| `LibraryChanges.NamingSufficesExactly` | src/bridges/qmllibrarymodel.cpp:18-23 | a signal that names all that changed is enough if and only if it regroups or names neither years nor hashes |
| `LibraryChanges.SentSuffices` | src/bridges/qmlpostermodel.cpp:429-475 | each of the three signals the torrent list sends regroups, or nothing it names is looked at |
| `LibraryChanges.TickSufficesExactly` | src/bridges/qmlpostermodel.cpp:435-447 | after the signal of each second the rows are right whatever changed among some data if and only if they are not computed from it |
| `LibraryChanges.TickMissesAYear` | src/bridges/qmlpostermodel.cpp:290-295 | two films of one collection and year, the second one's year falling to 0: the signal of the next second leaves the old order |
| `LibraryChanges.EachRoleCounts` | src/bridges/qmllibrarymodel.cpp:285-300 | for each of the eight kinds of data there is a change of it alone that changes the computed rows |
| `LibraryModel.QmlLibraryModel.SetExpandable` | src/bridges/qmllibrarymodel.cpp:525-531 | a change rebuilds, and the rows are then the computed ones, whatever they were before; without one nothing moves |
| `LibraryModel.QmlLibraryModel.SetExpanded` | src/bridges/qmllibrarymodel.cpp:567-578 | the key is in the set exactly as asked, an empty key never; a change rebuilds, and the rows are then the computed ones, whatever they were before; without one nothing moves |
| `LibraryModel.QmlLibraryModel.RowToSource` | src/bridges/qmllibrarymodel.cpp:404-409 | the session row of a row with one torrent, -1 for groups and outside |
| `LibraryModel.QmlLibraryModel.SourceToRow` | src/bridges/qmllibrarymodel.cpp:411-419 | the loop finds its own row first, then its group's |
| `LibraryModel.QmlLibraryModel.GroupRowOf` | src/bridges/qmllibrarymodel.cpp:421-429 | the first group row that has it |
| `LibraryModel.QmlLibraryModel.SourceRowsAt` | src/bridges/qmllibrarymodel.cpp:431-441 | the loop lists the session rows of a row |
| `LibraryModel.QmlLibraryModel.RevealSource` | src/bridges/qmllibrarymodel.cpp:555-565 | -1 exactly for a hidden row; otherwise a row that stands for it, and in an expandable list one that maps back to it; at most its own group is opened and none is closed |
| `LibraryModel.QmlLibraryModel.RowForKey` | src/bridges/qmllibrarymodel.cpp:585-590 | the first row with the key, -1 exactly when there is none |
| `LibraryModel.QmlLibraryModel.KeyFindsRow` | src/bridges/qmllibrarymodel.cpp:580-590 | a row's key finds that row |
| `IpcFraming.ChunkIndependence` | src/ipc/ipcprotocol.h:51-70 | every cutting of a stream gives the frames and the residue of the whole, if and only if no byte of the stream follows an oversized header |
| `IpcFraming.FramesArrive` | src/ipc/ipcprotocol.h:36-70 | any frames within the limit, cut up in any way, arrive as exactly that list with nothing left |
| `IpcFraming.PrefixParses` | src/ipc/ipcprotocol.h:51-70 | after any number of bytes the first k frames are out and the residue is a proper prefix of the next |
| `IpcFraming.ArrivesExactlyWithinLimit` | src/ipc/ipcprotocol.h:62 | a frame alone arrives if and only if kind and payload are within 64 MiB, lengths past 32 bits included |
| `IpcFraming.OversizeForgets` | src/ipc/ipcprotocol.h:62 | an oversized header takes the rest of its piece with it and nothing more |
| `IpcFraming.ParseMore` | src/ipc/ipcprotocol.h:51-70 | later bytes only continue what was parsed |
| `IpcFraming.FeedParses` | src/ipc/ipcprotocol.h:51-70 | feeding pieces from any point on is parsing the whole |
| `IpcFraming.LastByteCut` | src/ipc/ipcprotocol.h:62 | where a byte follows an oversized header, cutting off the last byte changes what is left |
| `IpcFraming.WireParses` | src/ipc/ipcprotocol.h:36-70 | written frames parse back, whatever follows |
| `IpcFraming.RestIsPartial` | src/ipc/ipcprotocol.h:55-63 | the residue holds no complete frame |
| `IpcFraming.Get32Put32` | src/ipc/ipcprotocol.h:44-60 | a length reads back modulo 2^32 |
| `IpcFraming.WrittenBytes` | src/ipc/ipcprotocol.h:36-48 | a frame on the wire: the length in four bytes, most significant first and cut to 32 bits, then the kind, then the payload |
| `IpcFraming.EmptyFramePassed` | src/ipc/ipcprotocol.h:51-70 | a frame of no bytes is passed over and what follows is parsed as without it |
| `IpcConnection.Connection.OnReadyRead` | src/ipc/ipcengine.cpp:71-76 | however handlers read the socket again, afterwards every complete frame was started once, in stream order, and the residue is in the buffer: stretch by stretch, where each stretch but the last ends at an oversized header |
| `IpcConnection.Connection.Drain` | src/ipc/ipcprotocol.h:51-70 | the same for the loop itself, which ends; nothing started is taken back |
| `IpcConnection.Connection.Handle` | src/ipc/ipcengine.cpp:114-137 | a handler that pumps and drains keeps the account of frames exact |
| `IpcConnection.Connection.ThrowAway` | src/ipc/ipcprotocol.h:62 | at an oversized header every frame before it in the stretch has been started, and a new stretch begins with an empty buffer |
| `IpcLink.StartedAreWritten` | src/ipc/ipcprotocol.h:36-70 | of any part of a stream of frames within the limit, a drained connection has started the first k frames, in order, those that parsing the part gives, and all of them when the whole stream has come |
| `IpcLink.RepliesArriveInOrder` | src/ipc/ipcengine.cpp:126-131 | every run over the frames, with calls begun, pruned and finished between any two of them, bytes received in any pieces and lost connections, is a run of the calls' model: the same is kept, taken and returned as when replies arrive one by one in the order the engine gave them |
| `IpcLink.ResultsComeOverTheWire` | src/ipc/ipcengine.cpp:185-206 | over the wire, too, with at most 2^32 calls a call returns nothing or the engine's result for that very call |
| `IpcLink.TakeMatches` | src/ipc/ipcengine.cpp:114-137 | each step over the frames is no step or one step of the calls |
| `IpcLink.ReceivedInOrder` | src/ipc/ipcprotocol.h:51-70 | the frames in the bytes received are the first of those written, and no handler is started ahead of them |
| `IpcLink.PairBack` | src/ipc/enginehost.cpp:117-121 | the id and the result read back from the payload the engine writes |
| `IpcLink.ReplyBytes` | src/ipc/enginehost.cpp:117-121 | a reply on the wire: kind 5, the request's id, the result's length, most significant bytes first, and the result |
| `IpcLink.PairRead` | src/ipc/ipcengine.cpp:126-131 | what any payload reads as: an id that is cut short as 0, a result that is not all there as empty |
| `IpcCalls.CallsGetTheirOwn` | src/ipc/ipcengine.cpp:185-206 | with at most 2^32 calls, nested, late, orphaned or pruned, a call returns nothing or the engine's result for that very call |
| `IpcReturns.ReturnsExactly` | src/ipc/ipcengine.cpp:126-131 | over every run with at most 2^32 calls, whatever begins and finishes meanwhile: a call returns the engine's result for it if and only if its reply was handled since it began and no call begun after that found more than 64 replies kept; otherwise nothing |
| `IpcReturns.CallReturns` | src/ipc/ipcengine.cpp:185-206 | with nothing under way a call that is served and whose reply is handled returns what the engine computed, whatever is kept of calls before |
| `IpcReturns.NestedCallsReturn` | src/ipc/ipcengine.cpp:185-206 | if a handler makes a call while another waits and both are served, each returns its own result |
| `IpcLinkReturns.ReturnsExactly` | src/ipc/ipcengine.cpp:126-131 | the same if and only if over the frames of the connection: a frame with a reply of its id was handled since it began |
| `IpcLinkReturns.CallReturns` | src/ipc/ipcengine.cpp:185-206 | with nothing under way, a call over the connection whose reply fits a frame, arrives and is handled returns the result |
| `IpcCalls.WrappedIdTakesLateReply` | src/ipc/ipcengine.cpp:191-205 | a run of 2^32 + 1 calls in which the last returns the first one's late reply |
| `IpcCalls.ExactlySoManyCalls` | src/ipc/ipcengine.cpp:191 | all runs of up to n calls give every call its own result if and only if n is at most 2^32 |
| `IpcCalls.RunOk` | src/ipc/ipcengine.cpp:185-206 | over whole runs every reply kept or under way carries its own call's result |
| `IpcCalls.ActOk` | src/ipc/enginehost.cpp:103-125 | the engine answering under the request's id, and every other step, keeps that |
| `CrashGuard.CrashLoopIsBounded` | src/ipc/ipcengine.cpp:91-105 | for exits at any non-decreasing times, any 30 seconds see at most nine respawns |
| `CrashGuard.NineIsReached` | src/ipc/ipcengine.cpp:91-105 | exits for which nine fall into one such interval |
| `CrashGuard.RespawnsWithinBudget` | src/ipc/ipcengine.cpp:93-101 | from any state on, any 30 seconds see at most what the window under way has left, and five more if a new one can begin in them |
| `CrashGuard.FivePerWindow` | src/ipc/ipcengine.cpp:93-101 | over whole runs each respawn falls into the 30 seconds of its window, a window has at most five, and windows start more than 30 seconds apart |
| `IpcEngineObject.IpcEngine.BeginRequest` | src/ipc/ipcengine.cpp:190-197 | prunes past 64, numbers the call modulo 2^32 |
| `IpcEngineObject.IpcEngine.TakesReply` | src/ipc/ipcengine.cpp:126-131 | the reply is kept under its id and the others stay, as specified, and so as `IpcReturns.ReturnsExactly` needs |
| `IpcEngineObject.IpcEngine.FinishRequest` | src/ipc/ipcengine.cpp:199-205 | takes what is kept under the call's id, or nothing |
| `IpcEngineObject.IpcEngine.OnProcFinished` | src/ipc/ipcengine.cpp:91-105 | window, count and decision as specified |
| `WireFormat.AllBack` | src/ipc/ipcserialize.h:16-62 | any fields written read back as they were and leave exactly what follows |
| `WireFormat.TakesBack` | src/ipc/ipcserialize.h:16-62 | the same for one field: numbers, flags, texts, nested lists |
| `WireFormat.BytesOf` | src/ipc/ipcserialize.h:16-62 | what stands on the wire: numbers with their most significant byte first and negative ones in two's complement, a flag as 1 or 0, a text as its length in bytes and its units, a list as its length and its rows |
| `WireFormat.ReadsOneWay` | src/ipc/ipcserialize.h:115-126 | a stream of records of known kinds can be taken apart in one way only |
| `WireFormat.TakenAre` | src/ipc/ipcserialize.h:23-31 | whatever bytes come, a read that completes gives fields in range for their kinds |
| `WireFormat.TakenIs` | src/ipc/ipcserialize.h:118-120 | the same for one field |
| `WireFormat.NegativeLengths` | src/ipc/ipcserialize.h:118 | a length of -1 reads as an empty list where a loop alone uses it, and the read fails where memory is reserved with it |
| `WireFormat.TextTaken` | src/ipc/mediaprotocol.h:78-79 | reading a text fails if and only if its length is cut short, odd or more than what is left, and is not the one that stands for no text |
| `WireFormat.TextBack` | src/ipc/mediaprotocol.h:78-79 | a text, null or not, reads back |
| `WireFormat.SignBack64` | src/ipc/ipcserialize.h:35 | negative 64-bit numbers read back |
| `WireRecords.AddOptionsReadsBack` | src/ipc/ipcserialize.h:16-32 | reading a written AddOptions gives it back and leaves the rest |
| `WireRecords.TorrentReadsBack` | src/ipc/ipcserialize.h:34-62 | so for TorrentInfo, without its handle |
| `WireRecords.TorrentFieldsMatch` | src/ipc/ipcserialize.h:49-62 | the reading operator puts each of the thirty fields where the writing one took it |
| `WireRecords.BoolVecReadsBack` | src/ipc/ipcserialize.h:122-126 | so for a vector of flags |
| `WireRecords.SnapshotReadsBack` | src/ipc/ipcserialize.h:130-155 | so for EngineSnapshot: hashes and rows both come back whole, so they stay parallel |
| `WireRecords.TorrentRowsReadBack` | src/ipc/ipcserialize.h:144-149 | a list of torrents reads back element by element |
| `WireRecords.EachReadsBack` | src/ipc/ipcserialize.h:116-120 | a list whose elements can be read back can be, too |
| `WireRecords.TracksReadBack` | src/ipc/mediaprotocol.h:78-88 | so for Tracks |
| `WireRecords.StateReadsBack` | src/ipc/mediaprotocol.h:66-76 | so for State |
| `WireRecords.HeaderReadsBack` | src/ipc/mediaprotocol.h:90-101 | so for FrameHeader with its four planes |
| `WireStream.DataStream.Write` | src/ipc/ipcserialize.h:115-117 | appends a value's bytes, list loops included |
| `WireStream.DataStream.WriteAll` | src/ipc/ipcserialize.h:16-22 | appends the fields in order |
| `WireStream.DataStream.Read` | src/ipc/ipcserialize.h:118-120 | consumes exactly one value, or finds the stream dry |
| `WireStream.DataStream.ReadAll` | src/ipc/ipcserialize.h:23-32 | consumes the fields in order |
| `WireStream.DataStream.ReadRows` | src/ipc/ipcserialize.h:118-120 | the reading loop of a list |
| `FileNodes.BuildFileTree` | src/torrent/filetree.cpp:31-66 | the vector of nodes with its hash of folders and the recursive output give the rows of the plainly inserted tree |
| `FileNodes.AddPath` | src/torrent/filetree.cpp:37-59 | one path is one insertion |
| `FileNodes.EnterFolder` | src/torrent/filetree.cpp:45-57 | the folder found or made under its full path, and the insertion still to come is the same |
| `FileNodes.EmitRows` | src/torrent/filetree.cpp:20-27 | appends the pre-order rows of a node's children; it ends because children come later in the vector |
| `FileNodes.ListHoldsThePaths` | src/torrent/filetree.cpp:31-66 | reading the list with a depth stack gives each path with a segment once, as a file with its index and its own folders, each folder once, and nothing else |
| `FileNodes.GrownAppends` | src/torrent/filetree.cpp:52-59 | a node added to the vector is a leaf put last into its folder |
| `FileNodes.KeysReadBack` | src/torrent/filetree.cpp:46 | folder keys read back, so different folders never share one |
| `FileNodes.LookedUp` | src/torrent/filetree.cpp:47-51 | the hash finds a folder exactly when it is there |
| `FileNodes.MakingFoldersFirst` | src/torrent/filetree.cpp:45-57 | making a missing folder ahead changes nothing about where the file goes |
| `FileNodes.FileGoesLast` | src/torrent/filetree.cpp:58-59 | once its folders are there the file goes last into the deepest |
| `FileTreeSpec.RowsReadBack` | src/torrent/filetree.cpp:20-27 | rows in pre-order with depths give the tree's entries back |
| `FileTreeSpec.DecodeRows` | src/torrent/filetree.cpp:20-27 | the same under any folder, with anything following |
| `FileTreeSpec.FilesOnce` | src/torrent/filetree.cpp:37-59 | each path with a segment is in the tree once, under its own folders, and no other file is |
| `FileTreeSpec.FoldersOnce` | src/torrent/filetree.cpp:45-57 | a folder is in the tree once exactly when some path goes through it |
| `FileTreeSpec.SiblingsByAppearance` | src/torrent/filetree.cpp:52-59 | every folder lists its entries in order of first appearance |
| `FileTreeSpec.InsertAdds` | src/torrent/filetree.cpp:37-59 | what one path adds: its file, and the folders that were missing |
| `FileTreeSpec.InsertLabels` | src/torrent/filetree.cpp:52-59 | what one path appends to each folder's list |
| `FileTreeSpec.CountIsMultiplicity` | src/torrent/filetree.cpp:20-27 | counting in the tree is counting in the list read back |
| `FileTreeSpec.Segments` | src/torrent/filetree.cpp:40 | no segment is empty or holds a separator |
| `LogParserSpec.ChunksDoNotMatter` | src/bridges/qmllogbridge.cpp:85-131 | however the text is cut up, entries, unfinished line and session line end as if it came in one piece, the 20000 cap after each piece included |
| `LogParserSpec.TwoChunks` | src/bridges/qmllogbridge.cpp:91-94 | two pieces in a row do what one does |
| `LogParserSpec.FoldCapped` | src/bridges/qmllogbridge.cpp:130 | cutting early to the newest entries loses nothing that would have stayed |
| `LogParserSpec.EntriesShowTheText` | src/bridges/qmllogbridge.cpp:96-129 | the entries' raw text, line after line, is the kept text, and each stamped line starts exactly one entry |
| `LogParserSpec.OnlyTheRunningSession` | src/bridges/qmllogbridge.cpp:105-108 | a line that opens the log makes everything before it irrelevant |
| `LogParserSpec.ShrunkStartsOver` | src/bridges/qmllogbridge.cpp:51-54 | a file that is shorter than before gives the entries and the unfinished line of its text alone; one of the same size changes nothing |
| `LogEntries.ParsedEntriesTell` | src/bridges/qmllogbridge.cpp:85-130 | each entry left after a parse tells the time, level, module and message of its own head line, with the lines that continue it, and those left are the latest 20000 |
| `LogEntries.EntriesTell` | src/bridges/qmllogbridge.cpp:96-129 | so does each entry after any lines, and the session line is the time and message of a versions entry |
| `LogHeads.HeadExactly` | src/bridges/qmllogbridge.cpp:87-88 | a line has a head if and only if it is a date and time, a part of a second or none, `Z`, a word in brackets and more; the head is then the stamp, the word in capitals and the rest without a space that follows the brackets |
| `LogHeads.UpperIs` | src/bridges/qmllogbridge.cpp:113 | small letters become capitals and nothing else changes |
| `LogEntries.LineGoes` | src/bridges/qmllogbridge.cpp:96-129 | where a line goes: nowhere, on to the last entry, or into a new one, the first of all if it opens the log |
| `LogEntries.HoldsExactly` | src/bridges/qmllogbridge.cpp:105 | the search finds a text in a line if and only if it begins somewhere in it |
| `LogEntries.ReturnsAside` | src/bridges/qmllogbridge.cpp:97-98 | a carriage return at the end of a line makes no difference, and an empty line none at all |
| `LogParserSpec.PollsReadTheFile` | src/bridges/qmllogbridge.cpp:47-69 | a growing file to which nothing is appended between size and reading, with no poll inside a character and none beginning with a byte order mark, is parsed as if once |
| `LogParserSpec.ReadOnceExactly` | src/bridges/qmllogbridge.cpp:51-58 | the bytes read by all polls of a growing file are the file if and only if nothing was appended between size and reading in any poll but the last |
| `LogParserSpec.TextReadExactly` | src/bridges/qmllogbridge.cpp:55-58 | with nothing appended in between, the text read is the file's, whatever its bytes, if and only if no poll ends inside a character and no later one begins with a byte order mark |
| `LogParserSpec.WellFormedReadExactly` | src/bridges/qmllogbridge.cpp:55-58 | in a file of well-formed text: if and only if each later piece begins with a character's first byte and none with EF BB BF |
| `LogParserSpec.PollsReadThePieces` | src/bridges/qmllogbridge.cpp:47-69 | whatever is appended when, the log is that of the pieces read, decoded one by one |
| `LogParserSpec.AppendedBetween` | src/bridges/qmllogbridge.cpp:51-58 | what is appended between size and reading is parsed again by the next poll |
| `LogParserSpec.AppendedLineTwice` | src/bridges/qmllogbridge.cpp:51-58 | so for any two lines that make entries: three entries for two lines |
| `LogParserSpec.SecondLineTwice` | src/bridges/qmllogbridge.cpp:51-58 | two polls after which a file of two stamped lines, as the head expression matches them, has three entries |
| `LogParserSpec.CharacterCut` | src/bridges/qmllogbridge.cpp:55-56 | a line that goes on with C3 A9, polled between the two bytes: the log has two broken characters where the file has one letter |
| `Utf8.ReadsAsOnce` | src/bridges/qmllogbridge.cpp:56 | for any bytes in any non-empty pieces: the pieces decoded one by one are the whole decoded if and only if no cut falls inside a character and no later piece begins with a byte order mark |
| `Utf8.TextReadsAsOnce` | src/bridges/qmllogbridge.cpp:56 | the same for written text, by the first byte of each piece |
| `Utf8.CutDecodes` | src/bridges/qmllogbridge.cpp:56 | cut between characters the text is the same, cut inside one it is longer, and no byte order mark comes of it |
| `Utf8.TextBack` | src/bridges/qmllogbridge.cpp:56 | text written as bytes decodes to the text |
| `LogParserSpec.LinesAppend` | src/bridges/qmllogbridge.cpp:92-95 | the lines of two pieces are those of the first and those of its tail with the second |
| `LogParser.SplitIsLines` | src/bridges/qmllogbridge.cpp:92-95 | splitting before the last line feed gives the ended lines, and the rest is the unfinished one |
| `LogParser.QmlLogBridge.Parse` | src/bridges/qmllogbridge.cpp:85-131 | the loop over the lines is the specified parse |
| `LogParser.QmlLogBridge.TakesLine` | src/bridges/qmllogbridge.cpp:96-129 | one line: skipped, continuing, opening or a new entry |
| `LogParser.QmlLogBridge.Poll` | src/bridges/qmllogbridge.cpp:47-69 | with the size seen first and the content read later: nothing new, more at the end, or a file that shrank and starts over |

## Left out

- Processes, pipes, shared-memory mapping, sandboxes, QMediaPlayer, QNetworkReply and
  libtorrent: replaced by queues, byte sequences and maps; shared memory is a map
  from address to what was packed there, and in `FrameBytes.dfy` a byte sequence per ring.
- The server: a 200 is taken to stream the file's bytes from the start and a 206 from
  the start it states (section 14.4 of RFC 9110), and the file not to change while it
  is open. Any other reply may carry anything.
- The 20 ms poll timer and the queued call at the end of `servePending`: the reply's
  slot may happen at any time instead.
- Unconditional liveness of the feed: a request just past a full window with the
  reader far behind is kept waiting. When a window stays full
  (`MediaWindow.FullOnlyIfNeeded`), when it reads on and what each pass settles is proved.
- Bytes that arrive after a reply was replaced, and its deletion: the network step
  may change the reply to any honest one.
- Wrap-around of generations and of the device's request ids (32 bits), and of 64-bit
  file offsets: unbounded here. Call ids over the engine link do wrap.
- The "close" message, which the player never sends, and the play, seek, volume and
  track messages.
- A hostile child: messages from the child are those its code sends. The header
  checks against hostile values are in `MediaFrame.dfy`.
- The pixel formats themselves: a predicate.
- `nameKey` as applied by the poster model, groups' titles and sums, `groupEpisodes`,
  `groupSummary`, saved settings, and which rows `dataChanged` names.
- Case folding: names come folded, character by character, as the comparison sees
  them. The choice of sorting algorithm: any stable one gives the proved result.
- Members of rows as persistent indices that the filter may invalidate: positions
  in the filter's current list.
- `LibraryModel.QmlLibraryModel.RevealSource`: stated for rows that are up to date, not
  for the time between a change that no signal named and the next rebuild.
- The torrent list's other roles: one kind of data, which the rows do not depend on.
- Framing across an engine respawn: the buffer is not cleared there, so framing and
  calls are stated per connection.
- What a handler does to the socket, other than read it and drain again. A null result
  array in a reply, which is written with another length and reads back empty; in
  `IpcLink.dfy`, frames the engine writes past the 64 MiB limit.
- The prune at 64 may drop an outer call's reply while an inner one begins; the outer
  call then returns nothing, which the statement allows.
- Respawns are counted at the exit that schedules them, not 500 ms later.
- The wire kinds of FileInfo, PeerInfo, TrackerInfo, RemovedEntry and AdvancedSettings:
  records of the same fields as those modelled.
- `WireStream.DataStream.Read`: after the stream runs dry the code goes on with zeros
  and a bad status, and at some negative lengths it throws; here the read says so and stops.
- `WireRecords.TorrentReadsBack`, `WireRecords.AddOptionsReadsBack` and the like hold
  for lists whose length fits the 32-bit count on the wire.
- The log's regular expressions and time zone: functions of the line, but for the head
  expression, which is `LogParserSpec.Head`. The decoder is Qt's as documented, one broken character
  for each byte that belongs to none, and its text is in code points here. Text mode,
  which takes out carriage returns; the trimmed copy of the text; and the re-reading
  after a change of level.
- The choice of torrents, scheduling, RSS, updater, themes, translations and all QML.
