# A verified model of the chat room back end and its balancer

The repository keeps one chat room in three forms on every back end: rows in a
database, JSON entries in memory, and one append-only gzip stream. A balancer in
front sends requests to the back ends and replays the ones that failed cleanly.
Each part has a simple meaning and a fast or concurrent implementation; this
project states the simple meaning, models the implementation, and proves that
they agree.

| file | what it models |
|---|---|
| `Collections.dfy` | sequence vocabulary |
| `Gzip.dfy` | CRC-32, an independent gzip and inflate decoder, and the hand-built closing block |
| `FeedSpec.dfy`, `Generation.dfy`, `GzipFeed.dfy` | the compressed feed: on values, and as the two classes of `gzipFeed.js` |
| `RoomSpec.dfy`, `FeedStore.dfy` | the in-memory room with its cache, trimming and reads: on values over every interleaving, and as the class of `feedStore.js` |
| `Entry.dfy` | one message as a line of JSON, the timestamp read back out of it, the narrowed views |
| `RoomLog.dfy` | the collection in the order it was written and in the order of its keys |
| `FeedSync.dfy`, `Reconciler.dfy` | the change stream, its resume token, the resync, and the check that starts one |
| `WriteQueue.dfy`, `UniqueIndex.dfy` | the batching queue, and several of them against one unique index |
| `Delivery.dfy` | a message from the balancer to the rows and the feeds, over any number of back ends |
| `Health.dfy`, `Selection.dfy`, `Accounting.dfy`, `LatencyRing.dfy` | the balancer: score and up/down state, the choice of a back end, counters and the retry, latencies |
| `RoundRobin.dfy` | the first balancer's rotation |

A class method models one event-loop turn or one lock-held section. Its
postcondition equates the new state with a function of the old one
(`State() == Push(old(State()), ...)`); the invariants and theorems are proved
about those functions, over every run.

The compressor is not modelled as an algorithm. `Gzip.SyncFlushed` says what a
flush promises about its output: behind the text flushed before it, to which it
may refer back, it decodes to the text taken in and leaves the stream between two
blocks, on a byte boundary. The decoder of the Huffman-coded blocks is a parameter
that is given everything decoded so far. Everything about the feed is proved for
every compressor that keeps this promise. Two encoders are proved to keep it, one
with stored blocks only and one that repeats earlier text
(`Gzip.SyncFlushDecodes`, `Gzip.RepeatFlushDecodes`).

Assumptions about the configuration: the cap is at least 1 and at most the trim
point (the code's trim point is above the cap, and so are those of the runs given
below), and the chunk, the batch and the number of bulk writes in flight are at
least 1. Numbers with a decimal point are modelled by the reals.

## Where the code does not do what its comments say

- `sources/server/src/api/gzipFeed.js:354-357` says that a read whose generation
  is replaced during its flush is answered from the generation it flushed. The
  swap destroys that generation and with it the buffer, so the read throws, and
  `/feed` sends the uncompressed room instead. `RoomSpec.SwapCutsOffReads` and
  `GzipFeeds.GzipFeed.ReadAcrossStep` state exactly when, and
  `RoomSpec.SwapCutOffHappens` gives the run.
- The compressed answer for a room nothing was ever pushed to decodes to `]`.
  `RoomSpec.StreamIsArray` shows that this is the only such room, and
  `RoomSpec.EmptyRoomReply` gives the run.
- `sources/server/src/api/feedStore.js:573-574` looks for the timestamp's key as
  text. That is right because `ts` is written behind everything a user chooses
  and the last occurrence is taken (`EntryText.KeyIsLast`); escaping plays no part.
- The resume token keeps the feed complete only once there is one. A stream
  opened without a token loses exactly the gap: `FeedSync.BlindOpenLosesTheGap`.
  `FeedSync.BlindOpenHappens` is a start that loses a message.
- Load and resync sort by `_id`, which each back end's driver makes up, so they
  push in key order. `FeedSync.ResyncInWriteOrder` and `FeedSync.LoadInWriteOrder`
  say exactly when that is the order of writing; `FeedSync.CrossedKeysLoadCrossed`
  and `FeedSync.CrossedKeysResyncCrossed` are runs where it is not, and where the
  cap leaves out the newer message.
- For a room over the cap at load the reconciler's shortfall does not close, however
  often it resyncs, except by counting needless pushes: `Reconciler.ShortNeverCloses`
  says exactly when, and `Reconciler.RepeatsCloseTheShortfall` is a run where it does.
- A body of unknown length over the replay limit is forwarded cut short:
  `Accounting.BodyIsIntact` says exactly when the body is whole.
- An id of white space only is replaced by each back end with one of its own, so
  a replay is stored twice: `Delivery.SameIdEverywhere` says exactly when ids agree,
  and `Delivery.BlankIdIsStoredTwice` gives the run.

## Model

| member | source | states |
|---|---|---|
| Gzip.CrcChains | sources/server/src/api/gzipFeed.js:140-147 | the checksum updated piece by piece equals the checksum of the whole |
| Gzip.Le32RoundTrip | sources/server/src/api/gzipFeed.js:194-195 | the trailer's little-endian words read back as the numbers written |
| Gzip.ClosingBlockEnds | sources/server/src/api/gzipFeed.js:65-69 | the six hand-built bytes decode, after any window, to a final block holding `]` |
| Gzip.MemberDecodes | sources/server/src/api/gzipFeed.js:189-209 | header, flushed bytes, closing block and trailer form one gzip member; it decodes to the text and `]` exactly when the trailer is that text's, and is refused otherwise |
| Gzip.OkMeansGzip | sources/server/src/api/gzipFeed.js:189-209 | a file accepted has the gzip header of RFC 1952 and ends with the checksum and the length of its text, low byte first |
| Gzip.BadLengthIsRefused | sources/server/src/api/gzipFeed.js:65-69 | a stored block whose length is not confirmed by its complement is refused, so the closing block cannot pass by a lenient decoder |
| Gzip.SyncFlushDecodes | sources/server/src/api/gzipFeed.js:168-171 | what is assumed of a sync flush is kept, behind any text, by an encoder with stored blocks of at most 65535 bytes |
| Gzip.RepeatFlushDecodes | sources/server/src/api/gzipFeed.js:168-171 | it is kept too by an encoder that refers back to what one stream has flushed before |
| Gzip.ChunksDependOnTheWindow | sources/server/src/api/gzipFeed.js:168-171 | such output is good only behind the text it was made for, so the assumption must name that text |
| Gzip.SyncFlushedAppend | sources/server/src/api/gzipFeed.js:157-178 | the output of a flush that decodes behind the text flushed before it extends the stream by the new text |
| Generations.TrailerTellsTheTruth | sources/server/src/api/gzipFeed.js:189-209 | the trailer counts texts not yet compressed, so a body taken early is refused by a decoder, and one taken with nothing waiting is accepted |
| Generations.Generation.constructor | sources/server/src/api/gzipFeed.js:95-110 | a new stream is empty and consistent |
| Generations.Generation.Grow | sources/server/src/api/gzipFeed.js:122-133 | doubling ends with room for what is needed, keeps the bytes, and writes to no buffer already handed out |
| Generations.Generation.Collect | sources/server/src/api/gzipFeed.js:122-136 | a piece of output goes behind everything collected so far, and every view ever given to a reader still shows what it showed |
| Generations.Generation.Append | sources/server/src/api/gzipFeed.js:140-147 | the text waits behind all others; checksum and length cover it |
| Generations.Generation.StartFlush | sources/server/src/api/gzipFeed.js:157-169 | a flush takes everything that waits, in order, as one chunk |
| Generations.Generation.FinishFlush | sources/server/src/api/gzipFeed.js:173-177 | once its output is out, the collected bytes decode to every text taken, provided the output decodes behind the text before it |
| Generations.Generation.Destroy | sources/server/src/api/gzipFeed.js:211-218 | the buffer is gone from the stream; views given out are untouched |
| Generations.Generation.CurrentBody | sources/server/src/api/gzipFeed.js:189-209 | the body decodes to everything appended and `]` if nothing waits, and is refused if something does; its stated length is its number of bytes; a destroyed stream has none |
| GzipFeeds.GzipFeed.Append | sources/server/src/api/gzipFeed.js:241-253 | the text goes to the live stream, and to the carry list while a rebuild runs; a failed compressor turns the feed off |
| GzipFeeds.GzipFeed.Rebuild | sources/server/src/api/gzipFeed.js:273-292 | a rebuild starts afresh from the texts given, one under way is abandoned, and one callback is outstanding for it |
| GzipFeeds.GzipFeed.Step | sources/server/src/api/gzipFeed.js:294-324 | a callback moves one chunk; it swaps exactly when that is the last chunk of a rebuild whose stream has not failed, after appending the carried texts; a stray one does nothing |
| GzipFeeds.GzipFeed.Swap | sources/server/src/api/gzipFeed.js:309-323 | the replacement with the carried texts behind it becomes live, and the old stream loses its buffer |
| GzipFeeds.GzipFeed.Disable | sources/server/src/api/gzipFeed.js:326-336 | the feed is off and no rebuild is left |
| GzipFeeds.GzipFeed.StartFlush | sources/server/src/api/gzipFeed.js:157-171 | a round of flushing takes everything that waits, unless one is under way or the stream has failed |
| GzipFeeds.GzipFeed.Collect | sources/server/src/api/gzipFeed.js:122-136 | output arriving for the live stream leaves both streams and their buffers consistent |
| GzipFeeds.GzipFeed.FinishFlush | sources/server/src/api/gzipFeed.js:168-177 | the flush callback leaves nothing in the compressor |
| GzipFeeds.GzipFeed.ReadAcrossStep | sources/server/src/api/gzipFeed.js:294-359 | a read with a callback between its halves throws exactly when, before the callback, its stream had not failed and an unfailed rebuild had at most one chunk to go; otherwise it is answered with everything its stream held |
| GzipFeeds.GzipFeed.FinishBody | sources/server/src/api/gzipFeed.js:343-359 | a read that captured the stream still live gets one gzip member of everything it holds; one whose stream was replaced throws; a failure turns the feed off |
| RoomSpec.StreamIsArray | sources/server/src/api/feedStore.js:220-223 | entries with their separators, followed by the closing bracket, are the JSON array exactly when there is an entry |
| RoomSpec.PushHolds | sources/server/src/api/feedStore.js:213-230 | after a push the id is held, entries are the successful pushes less the number dropped, ids are distinct and are the set looked up, and the cap holds |
| RoomSpec.PushTrimsOnlyWhenOver | sources/server/src/api/feedStore.js:213-255 | an id held changes nothing; below the trim point the entry goes behind the others and nothing is dropped; at it all but the cap go |
| RoomSpec.PushKeeps | sources/server/src/api/feedStore.js:213-255 | a push, with or without a trim, keeps the room, its cached prefix and both compressed streams consistent with the pushes so far |
| RoomSpec.StepKeeps | sources/server/src/api/gzipFeed.js:294-324 | at every callback, what is built, what is left of the snapshot and what is carried together are the texts of the current entries; after the swap the live stream is exactly those |
| RoomSpec.NextKeeps | sources/server/src/api/gzipFeed.js:241-359 | every event (push, callback, flush, failure, read) keeps the whole room consistent |
| RoomSpec.WhatTurnsTheFeedOff | sources/server/src/api/gzipFeed.js:241-359 | the compressed feed goes off exactly at a push into a failed stream, a callback of a failed rebuild, or a read that ends without a body |
| RoomSpec.ReadBegins | sources/server/src/api/gzipFeed.js:343-359 | a read captures the live stream and the moment it began, and is over once answered |
| RoomSpec.EveryRunIsConsistent | sources/server/src/api/feedStore.js:213-325 | so does every interleaving of them from an empty room |
| RoomSpec.CallbackMakesProgress | sources/server/src/api/gzipFeed.js:294-306 | a running rebuild always has a callback outstanding, and each one brings it strictly nearer its end without touching the entries |
| RoomSpec.RebuildEnds | sources/server/src/api/gzipFeed.js:273-324 | left to its callbacks a rebuild ends, and the live stream is then the entries and nothing else |
| RoomSpec.CompressedAnswer | sources/server/src/api/gzipFeed.js:259-268 | a compressed answer misses nothing pushed before the read began; it is the entries, preceded during a rebuild by a run just dropped; off a rebuild it is exactly the entries |
| RoomSpec.RouteAnswersWithTheRoom | sources/server/src/api/router.js:152-192 | whatever happens to the compressor, the reply once decoded is the JSON array of a run of consecutive pushes, up to date with the start of the read |
| RoomSpec.SwapCutsOffReads | sources/server/src/api/gzipFeed.js:309-323 | a callback makes a read of the live stream throw exactly when that stream has not failed and an unfailed rebuild has at most one chunk to go; any other callback leaves its answer as it was |
| RoomSpec.SwapCutOffHappens | sources/server/src/api/gzipFeed.js:309-323 | a run of three pushes into a room with a cap of one, a read and a callback in which it happens |
| RoomSpec.ReadEnds | sources/server/src/api/gzipFeed.js:157-178 | with no push meanwhile a read waits for at most the flush under way and one more |
| RoomSpec.AnswersOnlyWhenFlushed | sources/server/src/api/gzipFeed.js:157-178 | a read waits exactly while its stream is live, sound and not wholly flushed, and gets a compressed body exactly when it is live, sound and wholly flushed |
| RoomSpec.EmptyRoomReply | sources/server/src/api/feedStore.js:286-291 | with nothing ever pushed the compressed reply is `]` and not the array of the entries |
| RoomSpec.PayloadIsArray | sources/server/src/api/feedStore.js:293-308 | cached prefix and fresh tail together are the JSON array of the entries, and the tail has at most 1024 of them |
| RoomSpec.PrefixIsReused | sources/server/src/api/feedStore.js:293-308 | the cached prefix is used again until more than 1024 entries have come behind it, and then covers them all; nothing else changes |
| RoomSpec.PlainReadCaches | sources/server/src/api/feedStore.js:293-308 | after an uncompressed read the cached prefix is the array as far as it goes, and lacks at most 1024 entries; nothing else has changed |
| FeedStores.FeedStore.constructor | sources/server/src/api/feedStore.js:75-112 | a new store is the empty room |
| FeedStores.FeedStore.Trim | sources/server/src/api/feedStore.js:225-252 | the oldest entries and their ids go, the cached prefix goes, and the compressed stream is rebuilt from what is kept |
| FeedStores.FeedStore.Add | sources/server/src/api/feedStore.js:213-255 | an entry is added unless its id is held; the id is held afterwards either way |
| FeedStores.FeedStore.AddAll | sources/server/src/api/feedStore.js:157-162 | a batch read from the database is pushed in order |
| FeedStores.FeedStore.WholeRoom | sources/server/src/api/feedStore.js:293-308 | the two chunks are the array of the entries and only the cache changes |
| FeedStores.FeedStore.RunCallback | sources/server/src/api/gzipFeed.js:294-324 | step() run on the store keeps the whole room consistent, and leaves the stream a reader captured as it was or destroyed |
| FeedStores.FeedStore.FinishFlush | sources/server/src/api/gzipFeed.js:168-177 | so does a flush callback |
| FeedStores.FeedStore.Serve | sources/server/src/api/router.js:168-188 | the bytes a client is sent gunzip to the JSON array of what the live stream holds, which ends with the room and off a rebuild is the room; or they are that array of the room uncompressed; with nothing ever pushed they gunzip to a bare bracket |
| FeedStores.FeedStore.ReadFeed | sources/server/src/api/router.js:152-192 | a whole read, flush included: the bytes sent gunzip to the array up to the last push |
| FeedStores.FeedStore.ReadAcrossCallback | sources/server/src/api/router.js:168-183 | a read is answered with the uncompressed array exactly when the callback between its halves is one that swaps |
| FeedStores.FeedStore.AddMessage | sources/server/src/api/feedStore.js:170-172 | a message is added as its line unless its id is held, so what was pushed stays a list of messages |
| FeedStores.FeedStore.Narrowed | sources/server/src/api/feedStore.js:310-324 | the bytes for a limit and a time read back as the last so many of the messages held that are newer than it |
| FeedStores.FeedStore.ReadMessages | sources/server/src/api/router.js:152-192 | what a client gunzips, decodes and parses from a whole read is the messages held, in order, preceded only during a rebuild by some just dropped |
| EntryText.TimestampRoundTrip | sources/server/src/api/feedStore.js:566-580 | the timestamp read out of an entry is the one written into it, whatever the id, name and text |
| EntryText.KeyIsLast | sources/server/src/api/feedStore.js:575-577 | the key that ends the free text is the last occurrence of that key |
| EntryText.NarrowedViewIsRight | sources/server/src/api/feedStore.js:310-324 | the view for a limit and a time is the last so many of the messages newer than it |
| EntryText.SinceIsTheNewer | sources/server/src/api/feedStore.js:315-317 | the messages newer than a time: each one whose time is later, once, in order, and no other |
| EntryText.LastIsTheEnd | sources/server/src/api/feedStore.js:318-320 | the last so many are the end of the list, and all of it when the limit is not positive |
| EntryText.StringRoundTrip | sources/server/src/api/feedStore.js:566-571 | an escaped string reads back as itself, whatever follows (RFC 8259 section 7) |
| EntryText.MessageRoundTrip | sources/server/src/api/feedStore.js:566-571 | an entry reads back as the message it was written for |
| EntryText.MembersAreNamed | sources/server/src/api/feedStore.js:566-571 | the line spelled out: `id`, `client-name`, `msg`, `ts` in that order, and `integrity` only when the text failed its check |
| EntryText.PlainTextIsWrittenAsItIs | sources/server/src/api/feedStore.js:566-571 | text with nothing JSON requires to be escaped is written unchanged |
| EntryText.FeedRoundTrip | sources/server/src/api/feedStore.js:561-571 | the array sent reads back as the messages, in order |
| EntryText.BytesRoundTrip | sources/server/src/api/feedStore.js:294-308 | the bytes of the array read back as the messages |
| Gzip.Utf8RoundTrip | sources/server/src/api/feedStore.js:299-305 | text written as UTF-8 reads back as itself, by a decoder that goes by the byte ranges of RFC 3629 section 4 and does not use the encoder |
| Gzip.OneSpelling | sources/server/src/api/feedStore.js:299-305 | what that decoder accepts is exactly the UTF-8 of what it reads, so no text has a second spelling |
| Gzip.AsciiIsItself | sources/server/src/api/feedStore.js:299-305 | ASCII text is its own bytes |
| FeedSync.LoadIsTheRoom | sources/server/src/api/feedStore.js:125-162 | loading gives the documents of the room with the highest keys, up to the cap, in key order |
| RoomLog.LatestIsLastWritten | sources/server/src/api/feedStore.js:133-137 | those are the last ones written, in that order, exactly when their keys rise and are above all earlier ones |
| RoomLog.KeysTellTheOrder | sources/server/src/api/feedStore.js:499-503 | ids in key order are in the order of writing exactly when keys rise along the log among these documents |
| FeedSync.LoadInWriteOrder | sources/server/src/api/feedStore.js:125-162 | a loaded room holds the last messages written, in the order written, exactly when their keys rise and are above all earlier ones |
| FeedSync.CrossedKeysLoadCrossed | sources/server/src/api/feedStore.js:125-162 | two documents with crossed keys are loaded in the wrong order, and at the cap the newer one is left out |
| FeedSync.StartIsConsistent | sources/server/server.js:96-99 | a back end starts consistent, and a first open straight after the load leaves behind exactly the documents the cap left out |
| FeedSync.NothingIsLost | sources/server/src/api/feedStore.js:414-476 | delivery, local adds, breaks, resumption and every later step of a resync add nothing to what is missing |
| FeedSync.ResumptionLosesNothing | sources/server/src/api/feedStore.js:436-475 | nor does any run of them |
| FeedSync.BlindOpenLosesTheGap | sources/server/src/api/feedStore.js:436-440 | an open with no token loses exactly the room's documents written since the old position that were never pushed, and loses nothing exactly when there are none |
| FeedSync.BlindOpenHappens | sources/server/server.js:96-99 | a start whose first open comes after a message was written elsewhere, and never hears of it |
| FeedSync.InHandKept | sources/server/src/api/feedStore.js:486-542 | once the query of a resync is answered, with the room within the cap and no blind open since, everything missing is still in its hands |
| FeedSync.CompletedResyncLosesNothing | sources/server/src/api/feedStore.js:486-542 | when the last of them is pushed nothing is missing |
| FeedSync.ResyncRecoversEverything | sources/server/src/api/feedStore.js:486-542 | over any run that ends a resync with no blind open after its query was answered, everything missing is recovered |
| FeedSync.ResyncGoesOn | sources/server/src/api/feedStore.js:486-542 | a resync always has a step of its own to take, and each brings it strictly nearer its end |
| FeedSync.OnlyTheRoomIsPushed | sources/server/src/api/feedStore.js:414-542 | over any run everything pushed is a document of the room as the log has it, or was added locally |
| FeedSync.ResyncKeepsOrder | sources/server/src/api/feedStore.js:499-532 | what a resync recovers it pushes in key order, whatever is inserted meanwhile |
| FeedSync.EveryResyncInKeyOrder | sources/server/src/api/feedStore.js:499-532 | over any run |
| FeedSync.ResyncInWriteOrder | sources/server/src/api/feedStore.js:499-532 | that is the order of writing exactly when keys rise along the log among the documents it recovers |
| FeedSync.CrossedKeysResyncCrossed | sources/server/src/api/feedStore.js:499-532 | a resync of two documents with crossed keys queues them in the wrong order |
| Reconciler.ShortIsWhatWasNeverPushed | sources/server/src/api/feedStore.js:382-384 | stored minus held is, in every state, the number of the room's documents never pushed, less the foreign ids pushed and the pushes repeated |
| Reconciler.AmongTheLatest | sources/server/src/api/feedStore.js:133-137 | a document is among those a query returns exactly when fewer than the cap have higher keys |
| Reconciler.CapLeavesBehind | sources/server/src/api/feedStore.js:125-162 | what the cap leaves out at load is behind the stream from its first open |
| Reconciler.BehindForEver | sources/server/src/api/feedStore.js:414-542 | no delivery and no resync ever brings it in, over any run in which the back end does not itself receive it again |
| Reconciler.ShortNeverCloses | sources/server/src/api/feedStore.js:364-412 | over any run the shortfall stays at least the number of documents left out at load and not sent here again, less foreign and repeated pushes, and it closes exactly when those make up for all documents never pushed |
| Reconciler.RepeatsCloseTheShortfall | sources/server/src/api/feedStore.js:382-384 | a run in which a message repeated to a back end that has forgotten its id is counted twice, and hides one that is missing |
| FeedSync.CaughtUpFeedIsComplete | sources/server/src/api/feedStore.js:401-435 | with nothing missing, the stream at its end and no trim yet, every document of the room is held |
| WriteQueues.FlushKeeps | sources/server/src/api/writeQueue.js:87-105 | sending a batch keeps order and conservation, and leaves documents waiting only if a write is in flight |
| WriteQueues.FlushSendsWhatItCan | sources/server/src/api/writeQueue.js:87-105 | a batch goes out exactly when something waits and a slot is free, and it is full unless it empties the queue |
| WriteQueues.ArrivalSendsAFullBatch | sources/server/src/api/writeQueue.js:67-85 | an arrival sends a batch exactly when it fills one and a slot is free; short of a full batch a flush is scheduled, once |
| WriteQueues.FreedSlotIsUsed | sources/server/src/api/writeQueue.js:154-160 | the end of a bulk write schedules a flush for whatever waits, unless one is scheduled already |
| WriteQueues.InsertKeeps | sources/server/src/api/writeQueue.js:67-85 | so does a new document, and something is scheduled or in flight to take it |
| WriteQueues.AnswerKeeps | sources/server/src/api/writeQueue.js:107-160 | so does the end of a bulk write, however it ended |
| WriteQueues.BatchRejectedAsAWhole | sources/server/src/api/writeQueue.js:109-121 | a failed write whose error, in any of the shapes the driver uses, names no document is the one that is not counted and rejects everybody; one that names some settles each caller by its index |
| WriteQueues.VerdictIsAboutTheDocument | sources/server/src/api/writeQueue.js:107-148 | when some documents failed, a caller is told its document was stored exactly when no error carries its index; otherwise the last one that does decides between duplicate and rejected |
| WriteQueues.NormaliseReadsThrough | sources/server/src/api/writeQueue.js:177-191 | a nested error stands for its wrapper, a lone one for a list of one, and a list is read entry by entry |
| WriteQueues.AnswerIsCounted | sources/server/src/api/writeQueue.js:123-143 | an answered batch is counted once, with its documents and as many duplicates as callers were told so; one that failed as a whole is not |
| WriteQueues.NextKeeps | sources/server/src/api/writeQueue.js:67-160 | in every reachable state batches are consecutive slices of arrival order of size 1 to maxBatch, each caller is in exactly one place, depth is right, and whatever waits will be woken |
| WriteQueues.EveryStepIsProgress | sources/server/src/api/writeQueue.js:87-160 | with nothing new arriving every step lowers 3*pending + 2*inFlight + callbacks |
| WriteQueues.RunsAreBounded | sources/server/src/api/writeQueue.js:67-160 | so a run without arrivals is no longer than that number |
| WriteQueues.AtRestEveryoneIsAnswered | sources/server/src/api/writeQueue.js:67-160 | when nothing more can happen, nothing waits and every caller has been answered exactly once |
| WriteQueues.AnsweredAtMostOnce | sources/server/src/api/writeQueue.js:115-148 | no caller is ever answered twice |
| WriteQueues.WriteQueue.Enqueue | sources/server/src/api/writeQueue.js:67-85 | the class's insert is the modelled one |
| WriteQueues.WriteQueue.TakeBatch | sources/server/src/api/writeQueue.js:87-103 | the batch sent is the oldest documents, at most maxBatch, and only if a slot is free |
| WriteQueues.WriteQueue.RunCallback | sources/server/src/api/writeQueue.js:82 | so is the scheduled flush |
| WriteQueues.WriteQueue.Finish | sources/server/src/api/writeQueue.js:107-160 | so is the end of a bulk write: counters, verdicts and the next flush |
| WriteQueues.WriteQueue.SettleEach | sources/server/src/api/writeQueue.js:127-148 | each caller gets the verdict its index has among the errors, and the duplicates are counted |
| UniqueIndex.ApplyKeeps | sources/server/src/db/index.js:102-109 | one document applied by the database, in any order, keeps one row per id and the record of what happened |
| UniqueIndex.TheIndexDecides | sources/server/src/db/index.js:102-109 | a document goes in exactly when no row has its id, and is refused with code 11000 exactly when one has; one dealt with is not written again |
| UniqueIndex.ForeignRowsCount | sources/server/src/db/index.js:102-109 | an id written from outside keeps its one row, and a document under it is a duplicate from then on |
| UniqueIndex.AnswerTruthful | sources/server/src/api/writeQueue.js:109-148 | the verdicts handed out on an answer are what the database did |
| UniqueIndex.EveryoneIsTold | sources/server/src/api/writeQueue.js:107-148 | an answer settles every caller of its batch in order: stored, duplicate or rejected as its document was, or all rejected when the write failed as a whole |
| UniqueIndex.AnswerCanBeGiven | sources/server/src/api/writeQueue.js:109-148 | once every document of a batch has been dealt with, an answer that lists what happened exists, so what is assumed of answers can be met |
| UniqueIndex.NextKeeps | sources/server/src/api/writeQueue.js:105-148 | both hold for any number of queues, interleaved, with writes that fail as a whole after an arbitrary part was stored |
| UniqueIndex.ResolvedMeansStored | sources/server/src/api/writeQueue.js:130-143 | a caller whose promise resolved has its id in the collection |
| UniqueIndex.DuplicateMeansSomeoneElse | sources/server/src/api/writeQueue.js:133-143 | the row under its id is its own exactly when it was told it was not a duplicate |
| UniqueIndex.AtMostOneIsToldStored | sources/server/src/db/index.js:94-109 | of all callers of an id, on all back ends, at most one is told so |
| Delivery.SameIdEverywhere | sources/server/src/api/router.js:92-93 | two back ends given the same request use the same id exactly when what they trim is not blank |
| Delivery.TrimTakesOffTheEnds | sources/server/src/api/router.js:92-93 | trimming takes off the white space at both ends and nothing else |
| Delivery.IdsStayDistinct | sources/server/src/api/router.js:92-93 | an id with no white space around it is used unchanged, so different ones stay different |
| Delivery.BlankIdIsStoredTwice | sources/server/src/api/router.js:92-93 | for every blank id and every configuration, a run with one replay that leaves two rows |
| Delivery.CallerIdWins | sources/server/src/api/router.js:38-52 | a caller's own id, the first in the body or else in the query string, is used whatever the balancer stamped |
| Delivery.StampedIdIsUsed | sources/lb/main.go:443-445 | a request with no id of its own travels under the balancer's |
| Delivery.OwnHeaderWins | sources/lb/main.go:443-445 | a header the caller sent itself is left alone, and used when it names no id elsewhere |
| Delivery.AcceptedAsSent | sources/lb/main.go:443-445 | a request travels with the text and the fields it came with, but for the header when it had none |
| Delivery.RequestsKeepTheirMessage | sources/lb/main.go:494-508 | over any run its text and fields do not change, so every attempt sends the same message |
| Delivery.ReplayRule | sources/lb/main.go:494-508 | an attempt is made exactly when there was none yet, or when the only one was lost and this one goes elsewhere; the copy queued carries the id chosen for it |
| Delivery.NextKeeps | sources/server/src/api/router.js:100-132 | queues, index, feeds and requests stay consistent at every step, with any number of back ends |
| Delivery.ExactlyOnce | sources/lb/main.go:494-508 | a non-blank id is used by both attempts, which go to different back ends; it has at most one row, and at most one attempt is told the message was new |
| Delivery.OkMeansStored | sources/server/src/api/router.js:100-119 | a 200 means the row exists, then and in every later state |
| Delivery.RefusedIsUnavailable | sources/server/src/api/router.js:112-115 | a document refused for any other reason is answered 503 and goes into no feed |
| Delivery.AnswerIsInTheFeed | sources/server/src/api/router.js:117-132 | when the 200 is sent the message is held by the back end that sends it |
| Delivery.AnswerAddsTheMessage | sources/server/src/api/router.js:117-132 | what goes into the feed is the text of this request under its id, unless the id is held; no other feed changes |
| Delivery.HeardOfIsAdded | sources/server/src/api/feedStore.js:414-435 | what one back end hears of through the change stream or a resync goes into its feed alone, unless the id is held |
| Health.RawInRange | sources/lb/main.go:707-710 | the weighted sum of clamped readings is in [0,1] |
| Health.RawIsWeighted | sources/lb/main.go:707-710 | within the reference values the sum weighs load 50, lag 20, latency 15 and queue 15 of a hundred |
| Health.RawIsCapped | sources/lb/main.go:707-710 | a reading beyond 100% load, 60 ms, 250 ms or 200 waiting counts as that, one below zero as zero |
| Health.RawRises | sources/lb/main.go:707-710 | worse readings never lower the score's input |
| Health.UpDownFollowsTheTrace | sources/lb/main.go:683-705 | counters and flag are a function of the past: up unless three failures came after the last two good probes in a row |
| Health.GoesDownOnThirdFailure | sources/lb/main.go:639-650 | a back end goes down exactly on the third failure with no good probe between |
| Health.ComesBackOnSecondGoodProbe | sources/lb/main.go:697-705 | it comes back exactly on the second good probe with no failure between, and overload is then judged afresh |
| Health.ScoreStaysInRange | sources/lb/main.go:707-716 | the score stays in [0,1] |
| Health.ScoreMixes | sources/lb/main.go:712-716 | a good probe moves the score by 45 of a hundred towards its reading, or to it from zero; failures leave it |
| Health.ScoreGrows | sources/lb/main.go:712-716 | while reports stay at or above r what the score lacks of r shrinks by 0.55 per probe |
| Health.ScoreDecays | sources/lb/main.go:712-716 | while reports stay at or below r the excess over r shrinks by 0.55 per probe |
| Health.OverloadClears | sources/lb/main.go:718-728 | an overloaded back end reporting at most r is back in use as soon as its score's excess over r, shrunk by 0.55 per good probe, is less than r's distance from the band |
| Health.FlagFollowsTheScore | sources/lb/main.go:718-728 | after a good probe the flag is set above the threshold and clear below the band; inside the band it is kept unless the probe brought the back end up |
| Health.OverloadFollowsTheTrace | sources/lb/main.go:677-729 | over every trace the flag is the one the score last left the band on, since the last recovery |
| Health.OverloadSets | sources/lb/main.go:718-728 | good probes at or above r, above the threshold, set the flag as soon as what the score lacks of r has shrunk below the distance |
| Health.OverloadClearsInTime | sources/lb/main.go:718-728 | whatever the score was, after a number of good probes given by that distance |
| Health.EachFlipCrossesTheBand | sources/lb/main.go:718-728 | each change of the overloaded flag is paid for by a crossing of the whole band |
| Health.FlappingIsBounded | sources/lb/main.go:718-728 | n changes take more than n-1 crossings of the hysteresis band |
| Health.Backend.MarkFailure | sources/lb/main.go:639-650 | a failure, from a probe or from traffic, is recorded as the trace says |
| Health.Backend.Probe | sources/lb/main.go:677-729 | so is a good probe: streaks, recovery, score, then the switch |
| Health.Backend.AfterAttempt | sources/lb/main.go:575-585 | an attempt the client abandoned changes nothing |
| Selection.LeastOf | sources/lb/main.go:275-284 | the loop finds the first member of least instant score |
| Selection.InstantScoreIsLoad | sources/lb/main.go:143-151 | instant score and weight in numbers: three parts of the polled score to one part of the in-flight count, which counts up to 96; the weight is the threshold less that, at least 0.02 |
| Selection.LeastLoadIsLeast | sources/lb/main.go:143-151 | which of two back ends is less loaded, in terms of polled scores and in-flight counts |
| Selection.Gather | sources/lb/main.go:247-271 | the loop sorts live, not excluded back ends into the pool and the fallback, at most 16 |
| Selection.EveryoneIsConsidered | sources/lb/main.go:247-271 | below 16 every live back end not excluded is considered, and later ones push nobody out |
| Selection.Headrooms | sources/lb/main.go:318-332 | weights are the headrooms, at least 0.02, and the total is their sum |
| Selection.Walk | sources/lb/main.go:334-341 | the walk stops in the interval the random point falls into |
| Selection.Pick | sources/lb/main.go:237-342 | the choice is right for the policy, the pool and the random number |
| Selection.NobodyOnlyIfNobodyIsUp | sources/lb/main.go:273-280 | nobody is picked exactly when no other back end is up, and whoever is picked is up and not excluded |
| Selection.OverloadedOnlyAsALastResort | sources/lb/main.go:273-291 | the performance policy picks an overloaded back end exactly when all considered are, and then the first of least load |
| Selection.ShareIsWeight | sources/lb/main.go:323-341 | the intervals of the walk are disjoint, as wide as the weights, and cover every point up to the total |
| Selection.EveryoneIsReachable | sources/lb/main.go:318-341 | every member of the pool is drawn by some random number |
| Selection.RotationReachesEveryone | sources/lb/main.go:300-303 | under round robin every member of the pool is the pick within as many turns as there are members |
| Selection.EveryMemberIsPicked | sources/lb/main.go:237-342 | for every member of the pool there is a random number for which it, and nobody else, is the performance policy's pick |
| Accounting.NextKeeps | sources/lb/main.go:434-614 | at every step the counters agree with the requests, each back end's in-flight count is the attempts at it, blame and abandonment are what the attempts ended with, and no request has more than two attempts, on different back ends, the second only after a clean failure |
| Accounting.RetryRule | sources/lb/main.go:494-508 | a request goes on to a second back end exactly when its first attempt failed with the client there and nothing written, and its body may be replayed |
| Accounting.EveryStepIsProgress | sources/lb/main.go:434-614 | whatever happens to a request brings it nearer its end and touches no other, so a request takes at most four more steps |
| Accounting.NobodyIsForgotten | sources/lb/main.go:434-614 | in every reachable state a request is over exactly when nothing more can happen to it |
| Accounting.TheBooksBalance | sources/lb/main.go:434-614 | so over every run requests = succeeded + failures + panicked + active, and with nothing active no in-flight count is left over |
| Accounting.BlameIsFair | sources/lb/main.go:575-585 | over every run a back end has been blamed once for each attempt at it that failed with the client still there, and abandoned attempts are counted apart; each other counter is the number of requests that ended that way |
| Accounting.Balancer.Blame | sources/lb/main.go:575-585 | each blame is one failed attempt in that back end's record of failures and probes, and each such failure is one blame |
| Accounting.Balancer.Probe | sources/lb/main.go:677-729 | a probe goes into that record and blames nobody |
| Accounting.BodyIsIntact | sources/lb/main.go:449-471 | the body forwarded is the body sent unless its length is unknown and over the limit, and whatever may be replayed is intact |
| Accounting.Balancer.Accept | sources/lb/main.go:434-436 | a request is counted on arrival |
| Accounting.Balancer.Refuse | sources/lb/main.go:461-485 | an unreadable body or nobody to send to is one failure |
| Accounting.Balancer.Launch | sources/lb/main.go:494-503 | an attempt is counted at its back end, and a second one as a retry |
| Accounting.Balancer.Count | sources/lb/main.go:596-614 | finish() counts the request as succeeded or failed and samples its latency only if it was served |
| Accounting.Balancer.Land | sources/lb/main.go:570-614 | the in-flight count goes down however the attempt ends, and the request is counted once, when it ends; it is sent again only after a clean failure of its first attempt |
| LatencyRings.LatencyRing.Add | sources/lb/main.go:778-796 | the slots hold the last samples, clamped, in order of age |
| LatencyRings.ClampedFits | sources/lb/main.go:778-783 | a latency is stored as it is up to 2147483647 microseconds, and as that beyond |
| LatencyRings.LatencyRing.SortedSamples | sources/lb/main.go:798-810 | what is returned is the last samples since the reset, as many as fit, sorted |
| LatencyRings.LatencyRing.Reset | sources/lb/main.go:812-816 | nothing from before a reset is seen again |
| LatencyRings.Rank | sources/lb/main.go:823-826 | the index is the share of the samples rounded down, cut to the last one, and never out of range |
| LatencyRings.PercentileIsTheOrderStatistic | sources/lb/main.go:818-829 | a percentile is a sample with at most its rank of them below it and at most the rest above it |
| LatencyRings.PercentilesIncrease | sources/lb/main.go:818-829 | a higher percentile is never a lower latency |
| RoundRobins.Balancer.NextBackend | sources/assignment1/lb_main.go:46-59 | the next live back end in rotation is picked and counted; none exactly when all are down |
| RoundRobins.Balancer.Check | sources/assignment1/lb_main.go:157-181 | three failures with no good check between take a back end down, one good check brings it back |
| RoundRobins.VisitsAreEven | sources/assignment1/lb_main.go:50-52 | any stretch of the rotation passes any two back ends equally often, to within one |
| RoundRobins.SharesAreEven | sources/assignment1/lb_main.go:46-59 | over any picks, wherever they begin, with the same back ends up throughout, live ones have equal shares to within one and dead ones none |
| RoundRobins.SharesBetween | sources/assignment1/lb_main.go:46-59 | the same of the counts at any two moments between changes of who is up |
| RoundRobins.PickMany | sources/assignment1/lb_main.go:46-59 | so of any number of picks in a row |

## Left out

- Huffman coding and deflate matching: `Gzip.Codec` stands for a decoder of those blocks, and `Gzip.SyncFlushed` for what a flush emits.
- HTTP, TLS, sockets, cookies, rate limiting, presence, the admin endpoints and the timeline: plumbing.
- Encryption: a stored text that does not decrypt is a message with no text; the cipher is not modelled.
- Text is a sequence of Unicode scalar values, so a lone surrogate in a message (written as an escape, and as U+FFFD in UTF-8) is not modelled; an entry goes into the compressed stream as its UTF-8 bytes.
- Rounding of floating point, and a reading that is not a number: reals are used, and the trim point, a rounded-up product in the code, is a parameter.
- The reconciler's timer, its slack and its cooldown: a resync may start at any time in the model, which covers whatever decides to start one.
- FeedSync.ResyncRecoversEverything: assumes that the stream a resync opens is positioned before its query is answered. The code does not wait for that, so the two race at the server, and a document inserted between them could be missed by both.
- A resync that starts while the old stream is still open leaves a second stream behind in the code; the model keeps one stream, and a document delivered twice is a push of an id already held or dropped.
- The change stream and the resync are a protocol between several event-loop turns, so `FeedSync` models them as steps on values and not as a class; the pushes they make are those of `FeedStores.FeedStore.Add`.
- Two resyncs at once, a stream that cannot be opened at all, and close().
- Counters that only feed reports (rebuilds, deliveries by stream, batches' averages, served, sticky hits) and the reset of the balancer's counters.
- Memory and time: that a rebuild takes a few milliseconds per turn is not a statement about the logic.
- The moving average of latency per back end: it is a number given to the probe.
- Requests with several values for a field, or values that are not strings: an id field is a string or absent.
- The order in which the event loop runs callbacks: any order is allowed, and outstanding callbacks are counted.
- Writers outside the modelled back ends appear only as rows somebody else inserted.
- The sticky first choice: an attempt's first back end may be any back end.
- GzipFeeds.GzipFeed.Disable: leaves the cursor where it was, as the code does, and says nothing about the message logged.
- EntryText.TimestampRoundTrip: stated for integers; a date that is not one is not modelled.
