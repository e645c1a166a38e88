# ShrikeDB verification model

A Dafny model of the core of ShrikeDB, a sharded, Redis-compatible in-memory store. Five layers are
modelled in the form the Rust code has (classes and loops where it updates in place, functions where
it computes), each proved against a simple reference, and then stacked:

- **Dash hash table** (`SlotBitmap`, `Bucket`, `Placement`, `Segment`, `Entries`, `TableTheory`,
  `DashTable`, `TableRuns`, `StashWitness`): packed slot words, fingerprints, probing, stash pointers
  and overflow counters, growth by rebuilding. The reference is a finite map, reached through multisets
  of entries.
- **RESP2** (`Decimal`, `RespProtocol`, `RespParser`, `Replies`, `WireForms`, `Gather`, `Pipelines`): the
  incremental parser, the reply printers and the gather-side readers. The references are functions on whole
  byte streams, and the bytes of every form a client may write.
- **Keyspace** (`PrimeValues`, `Databases`, `DbSlice`, `EagerCommands`, `CommandLaws`, `Handlers`, `Lifetimes`,
  `Commands`, `ExpiryRuns`, `Glob`, `SortedSets`, `ListValues`, `ListCommands`): lazy expiry against a store
  that expires eagerly, that store against what GET and TTL answer at every time, the glob loop against a
  declarative matcher, the two indexes of sorted sets, list commands.
- **Sharding** (`Numbers`, `Routing`, `KeyOps`, `KeyCommands`, `KeyMeaning`, `Scatter`, `GlobalCommands`,
  `ShardTasks`, `ShardSystem`, `Deliveries`, `ShardRuns`, `ShardedCommands`): routing by hash tag, scatter and
  gather, and all interleavings of connections, queues, shard loops and sweeps as a step system in which no
  task is lost. The reference is one unsharded store.
- **Persistence** (`Crc64`, `CrcDivision`, `CrcPowers`, `Primes`, `CrcPeriod`, `Words`, `RdbFormat`, `RdbFiles`,
  `RdbExamples`, `RdbReads`, `RdbSave`, `RdbLoad`, `RdbStray`, `Snapshot`, `Recovery`): RDB bytes written and
  read back, the checksum against polynomial division over single bits, and a restart with another number of
  shards.

`dafny verify dfyconfig.toml` checks everything.

## Main results

- `TableRuns.Run`: over every guarded run the Dash table answers like a map and stores each key once.
- `DashTables.DashTable.Remove`, `Placement.DeleteVisibleIff`, `StashWitness.LoseKey`: exactly when a delete hides another key, and a run in which it does.
- `TableRuns.TwiceIffLost`, `StashWitness.StoreTwice`: exactly when a key is then stored twice, and a run in which it is.
- `RespProtocol.ChunkingIndependent`, `RespProtocol.CleanIffCutsAgree`: parsing a clean stream does not depend on chunking, and the clean streams are exactly those of which no cut changes the lines taken.
- `WireForms.ArrayArrives`, `WireForms.LineArrives`: what every form of command, given as bytes, arrives as.
- `ExpiryRuns.Run`: lazy expiry is invisible over every run of string and expiry commands, KEYS and sweeps (DEL and RENAME are below).
- `Lifetimes.SetLifetime`, `ExpiryRuns.SetThenAsk`: at every later time, what GET, PTTL and TTL answer after an expiry was set.
- `SortedSets.ZSet.RankOf`, `SortedSets.ZSet.Pop`: ranks and popped members in terms of the scores alone.
- `Scatter.DispatchMGet`, `Scatter.DispatchSum`, `Scatter.DispatchMSet`: sharded commands equal the unsharded ones in any order of shards.
- `ShardRuns.RunKeeps`, `ShardRuns.EveryMSetNx`: every interleaving simulates one store.
- `Deliveries.SubmitCarries`, `ShardRuns.NothingLost`, `ShardRuns.CommandCompletes`: every argument is carried once, no task is lost or repeated along any run, and a command that has been worked off has done what it does on the unsharded store.
- `ShardedCommands.ShardedIsEager`: the two results together: whenever its log holds string and expiry commands, MSET, MSETNX and sweeps at times that do not go back, a sharded, lazily expiring server answers like one eagerly expiring store.
- `RdbFiles.SavedFileLoads`, `Recovery.SaveAndRecover`: what a dump brings back.
- `RdbStray.DumpLoadsIff`, `RdbStray.DeadlineStolen`: which last record breaks a dump, and which record silently hands its deadline to the next.
- `CrcDivision.CrcIsRemainder`, `CrcPeriod.ZeroRuns`: the checksum is the remainder of a polynomial division, complemented, and the exact lengths at which a run of zero bytes goes unseen.
- `Glob.LoopDecidesIff`: for exactly which keys the glob loop is right.

## Where the code and expectations differ

The model follows the code in each of these.

- `Segment::delete` of a stash item also unsets a pointer in the next bucket, which can hide another
  key (`Placement.DeleteVisibleIff`, `StashWitness.LoseKey`). Inserting a hidden key stores it twice
  (`TableRuns.TwiceIffLost`, `StashWitness.StoreTwice`).
- README.md:76 speaks of splitting one segment at a time; `grow` rebuilds all segments, and may panic.
  The panic is modelled as a failure result.
- A bare LF in a stream makes the result depend on where the stream is cut
  (`RespProtocol.CleanIffCutsAgree`, `RespProtocol.BareLfMatters`).
- The glob loop compares literally before it looks for `*` and `[` (`Glob.LoopDecidesIff`).
- DEL and RENAME do not look at deadlines (`ExpiryRuns.DelIff`, `ExpiryRuns.RenameIff`; runs
  that show it are `ExpiryRuns.DelWitness` and `ExpiryRuns.RenameWitness`).
- A negative stop that lies before the list makes LRANGE and LTRIM keep the first element
  (`ListValues.RangeIff`).
- A collection with a deadline leaves its deadline in the dump without a record. At the end of a dump
  that makes it unreadable (`RdbStray.DumpLoadsIff`); in front of a string without a deadline the string
  gets it (`RdbStray.DeadlineStolen`); some pairs of them do no harm (`RdbStray.StraysCancel`).
  Collections are not saved at all.
- PTTL casts the remaining time to i64, so after PEXPIREAT with a negative time it is negative
  (`Commands.CmdTtl`).
- A run of zero bytes can have the checksum zero, but only at multiples of 1080731969173463055 bytes
  (`CrcPeriod.ZeroRuns`), the number of zero bytes after which the division is back at its start.
- The table is filled with shifts to the right by 0xad93d23594c935a9, so the divisor that the checksum
  stands for has the coefficients of `CrcDivision.POLYNOMIAL`, read from the lowest bit
  (`CrcDivision.CrcIsRemainder`).
- LREM with the smallest i64 removes nothing: the absolute value wraps around in release builds
  (`ListCommands.RemNegative`).

## Model

| member | source | states |
|---|---|---|
| Slots.EmptyConsistent | crates/shrikedb-core/src/dash/bucket.rs:95-97 | a cleared word is a consistent bitmap with no busy slot |
| Slots.FullMeansNoneFree | crates/shrikedb-core/src/dash/bucket.rs:52-66 | in every consistent word "full" holds exactly when no empty slot is found, and exactly when all twelve busy bits are set, so the unwraps that follow a fullness check cannot fire |
| Slots.SetSlotMeaning | crates/shrikedb-core/src/dash/bucket.rs:68-83 | setting a free slot makes it busy with the given ownership, changes no other slot, and keeps count = number of busy bits |
| Slots.ClearSlotMeaning | crates/shrikedb-core/src/dash/bucket.rs:85-93 | clearing a busy slot frees exactly it, drops its ownership bit, and keeps count = number of busy bits |
| Slots.TrailingZeros | crates/shrikedb-core/src/dash/bucket.rs:58-66 | the lowest set bit of a mask: set, with none below it |
| Slots.DropLowestBit | crates/shrikedb-core/src/dash/segment.rs:185-199 | `mask & (mask - 1)` removes exactly the lowest set bit, which is what the mask loops rely on |
| Buckets.FullView | crates/shrikedb-core/src/dash/bucket.rs:52-54 | the packed fullness test agrees with the slots: full exactly when all twelve hold an entry |
| Buckets.NewView | crates/shrikedb-core/src/dash/bucket.rs:115-128 | a new bucket is valid and shows twelve free slots, no pointer and no overflow |
| Buckets.FindMatching | crates/shrikedb-core/src/dash/bucket.rs:132-147 | the mask has exactly the bits of the occupied slots with that fingerprint and that ownership |
| Buckets.TryInsert | crates/shrikedb-core/src/dash/bucket.rs:150-158 | fails exactly when the bucket is full and then changes nothing; otherwise one free slot takes the entry and nothing else changes |
| Buckets.Remove | crates/shrikedb-core/src/dash/bucket.rs:161-170 | returns the entry of the slot and frees that slot only |
| Buckets.Replace | crates/shrikedb-core/src/dash/bucket.rs:188-192 | puts a value in place of another in one slot and returns the one it replaced |
| Buckets.SetStashPtr | crates/shrikedb-core/src/dash/bucket.rs:206-226 | the first idle pointer takes (fingerprint, stash id); with none idle the overflow counter goes up |
| Buckets.UnsetStashPtr | crates/shrikedb-core/src/dash/bucket.rs:229-252 | clears the first equal pointer, or else counts the overflow down; reports true exactly when it did either |
| Buckets.Settle | crates/shrikedb-core/src/dash/bucket.rs:229-252 | the stash flag is cleared exactly when neither pointer nor overflow is left |
| Placement.SetPtrTracks | crates/shrikedb-core/src/dash/bucket.rs:206-226 | tracking one more stash item keeps the pointers a sub-multiset of the items and keeps the count exact if and only if it was exact |
| Placement.UnsetOwn | crates/shrikedb-core/src/dash/bucket.rs:229-252 | untracking an own stash item keeps soundness, and keeps the count exact |
| Placement.UnsetNext | crates/shrikedb-core/src/dash/segment.rs:135-137 | the extra unset in the next bucket keeps soundness always, and keeps the count exact if and only if that bucket has no equal pointer and no overflow |
| Placement.UnsetNextReaches | crates/shrikedb-core/src/dash/segment.rs:135-137 | after that extra unset every stash item of the next bucket can still be reached if and only if the removal was harmless for it |
| Placement.InsertSound | crates/shrikedb-core/src/dash/segment.rs:255-298 | placing an entry in its home, next or stash bucket keeps every segment invariant, adds exactly that entry to the multiset of entries, and keeps stash tracking complete |
| Placement.DeleteSound | crates/shrikedb-core/src/dash/segment.rs:126-142 | removing a slot keeps every segment invariant and takes exactly that entry; tracking stays complete if and only if the guard on the next bucket holds |
| Placement.CompleteVisible | crates/shrikedb-core/src/dash/segment.rs:37-83 | with exact tracking, find looks at every stored entry |
| Placement.VisibleIffReaches | crates/shrikedb-core/src/dash/segment.rs:61-83 | find looks at every stored entry if and only if every stash item is reached by a pointer or the overflow path of its home |
| Placement.DeleteVisibleIff | crates/shrikedb-core/src/dash/segment.rs:126-142 | after a removal every remaining entry is still findable if and only if the removed slot was not in the stash or its next bucket is not harmed |
| Placement.ReplaceSound | crates/shrikedb-core/src/dash/table.rs:103-113 | overwriting a value keeps every segment invariant and exchanges exactly one entry |
| Placement.EmptySound | crates/shrikedb-core/src/dash/segment.rs:20-30 | a new segment satisfies every invariant and holds nothing |
| Placement.OverflowFits | crates/shrikedb-core/src/dash/bucket.rs:206-226 | the overflow counter of a home bucket never exceeds the 48 stash slots, so the u8 cannot overflow |
| Segments.Segment.constructor | crates/shrikedb-core/src/dash/segment.rs:20-30 | a new segment is ready, empty and complete |
| Segments.Segment.FindInBucket | crates/shrikedb-core/src/dash/segment.rs:185-199 | finds a slot with fingerprint, ownership and key, and finds none only if there is none |
| Segments.Segment.FindInStashViaPtrs | crates/shrikedb-core/src/dash/segment.rs:201-245 | finds the key through a pointer of the bucket, and finds none only if no pointed-to stash bucket has it |
| Segments.Segment.ScanStash | crates/shrikedb-core/src/dash/segment.rs:73-83 | scans one stash bucket for fingerprint and key |
| Segments.Segment.Find | crates/shrikedb-core/src/dash/segment.rs:37-84 | returns a slot that holds the key if any slot it may look at does, and None only if none does |
| Segments.Segment.InsertNew | crates/shrikedb-core/src/dash/segment.rs:255-298 | fails exactly when home, next and all stash buckets are full, and then changes nothing; otherwise adds exactly the entry and keeps stash tracking complete |
| Segments.Segment.Delete | crates/shrikedb-core/src/dash/segment.rs:126-142 | returns and removes exactly the entry of the slot; completeness survives if and only if the guard holds |
| Segments.Segment.Positions | crates/shrikedb-core/src/dash/segment.rs:145-158 | visits every occupied slot once, in ascending order |
| Segments.Segment.Overwrite | crates/shrikedb-core/src/dash/table.rs:103-113 | changes the value of one slot and nothing else |
| Segments.BitsOf | crates/shrikedb-core/src/dash/segment.rs:185-199 | the mask loop visits exactly the set bits, in ascending order |
| StashWitness.LoseKey | crates/shrikedb-core/src/dash/segment.rs:126-142 | a concrete run of inserts and one delete after which a key that is still stored is no longer found |
| StashWitness.StoreTwice | crates/shrikedb-core/src/dash/table.rs:103-130 | continuing that run as the insert of the table does: the key is looked up, missed and added again, and is then stored twice |
| Entries.HoldsSize | crates/shrikedb-core/src/dash/table.rs:60-62 | a multiset of entries that is a map has as many entries as the map |
| TableTheory.GrowDraws | crates/shrikedb-core/src/dash/table.rs:261-301 | after doubling, each new segment holds exactly those entries of the one old segment congruent to it that hash to it |
| TableTheory.SeenIffFinds | crates/shrikedb-core/src/dash/segment.rs:37-84 | find answers for every key of the map the table holds if and only if it looks at every stored entry |
| DashTables.Drain | crates/shrikedb-core/src/dash/table.rs:263-284 | collecting and deleting a segment in reverse order yields exactly its entries |
| DashTables.DrainAll | crates/shrikedb-core/src/dash/table.rs:261-285 | collecting all segments yields exactly the entries of the table |
| DashTables.Rebuild | crates/shrikedb-core/src/dash/table.rs:287-300 | reinserting into fresh segments yields exactly the given entries with complete tracking, or reports the panic |
| DashTables.DashTable.constructor | crates/shrikedb-core/src/dash/table.rs:47-58 | a new table has four empty segments and agrees with the empty map |
| DashTables.DashTable.Locate | crates/shrikedb-core/src/dash/table.rs:81-93 | finds a slot of the key if and only if find looks at one; with complete tracking a miss means the key is not stored anywhere |
| DashTables.DashTable.Find | crates/shrikedb-core/src/dash/table.rs:87-93 | answers if and only if find looks at a slot of the key; a table that agrees with a map returns what the map would |
| DashTables.DashTable.Grow | crates/shrikedb-core/src/dash/table.rs:261-301 | when it returns, the multiset of entries is unchanged, every entry is in the segment of its hash, and each segment draws from one old segment only |
| DashTables.DashTable.Insert | crates/shrikedb-core/src/dash/table.rs:103-130 | stores the pair, returns the value a map would have returned, and keeps agreement with the updated map, growing as needed |
| DashTables.DashTable.InsertNoDup | crates/shrikedb-core/src/dash/table.rs:132-149 | places a new key after a growth, growing again as needed, or reports the panic |
| DashTables.DashTable.DeleteIn | crates/shrikedb-core/src/dash/table.rs:151-159 | deleting a located slot takes exactly that entry out of the table, and leaves every other key findable if and only if it was harmless |
| DashTables.DashTable.Remove | crates/shrikedb-core/src/dash/table.rs:151-159 | returns and removes what a map would; afterwards find answers for every remaining key if and only if the removal was harmless, and the table agrees with the map without the key, its stash accounting included, if and only if the removal was guarded |
| TableRuns.Step | crates/shrikedb-core/src/dash/table.rs:87-159 | one operation of a run has exactly its effect on the entries, finds a key if and only if find looks at a slot of it and, if guarded, answers like the map |
| TableRuns.TwiceIffLost | crates/shrikedb-core/src/dash/table.rs:103-130 | from a state with every key stored once, a step leaves one stored twice if and only if it inserts a key that is stored but not findable |
| TableRuns.Run | crates/shrikedb-core/src/dash/table.rs:87-159 | over every run without a panic each step has exactly its effect on the entries and `len` is their number; over every guarded run all answers are those of a plain map, `len` is its size, and in every state each key is stored once |
| RespProtocol.LineMeaning | crates/shrikedb-facade/src/resp_parser.rs:298-321 | a line is consumed if and only if there is an LF: what stands before the first CRLF, or without any CRLF before the first LF; line, line end and rest are the buffer |
| RespProtocol.StepShrinks | crates/shrikedb-facade/src/resp_parser.rs:105-282 | every turn of the state machine consumes input or leaves Init, so parsing ends on every buffer, and between elements fewer arguments are held than expected |
| RespProtocol.DrainSplits | crates/shrikedb-facade/src/resp_parser.rs:105-321 | draining a clean stream is draining its prefix and resuming with the rest |
| RespProtocol.ChunkingIndependent | crates/shrikedb-facade/src/resp_parser.rs:105-321 | for every clean stream and every way of cutting it, the commands and the final state or error are those of the uncut stream |
| RespProtocol.CleanPrefix | crates/shrikedb-facade/src/resp_parser.rs:298-321 | a prefix of a clean stream is clean |
| RespProtocol.DirtyCut | crates/shrikedb-facade/src/resp_parser.rs:298-321 | every stream that is not clean has a cut that changes the lines taken from it (the lines, not always the commands) |
| RespProtocol.CleanIffCutsAgree | crates/shrikedb-facade/src/resp_parser.rs:298-321 | a stream is clean if and only if no single cut changes the lines taken from it |
| RespProtocol.CrlfOnlyClean | crates/shrikedb-facade/src/resp_parser.rs:298-321 | a stream in which every LF follows a CR is clean |
| RespProtocol.BareLfMatters | crates/shrikedb-facade/src/resp_parser.rs:300-319 | a concrete stream with a bare LF that is read as one command or as two, depending on the cut |
| RespProtocol.HarmlessDirt | crates/shrikedb-facade/src/resp_parser.rs:298-321 | a concrete stream that is not clean and yet gives the same error, and no commands, however it is cut |
| RespParsers.TakeLine | crates/shrikedb-facade/src/resp_parser.rs:298-321 | the scan for a line end takes the first CRLF, else the first LF |
| RespParsers.RespParser.constructor | crates/shrikedb-facade/src/resp_parser.rs:97-102 | a new parser is in its initial state |
| RespParsers.RespParser.Parse | crates/shrikedb-facade/src/resp_parser.rs:105-282 | the loop over the state field computes the parse of the buffer that the rows of WireForms pin to bytes, and leaves its rest |
| WireForms.ArrayArrives | crates/shrikedb-facade/src/resp_parser.rs:105-282 | an array of any `$`, `$-1`, `+`, `:` and `-` elements, its bytes written out and followed by any tail, parses to as many arguments in the same order: the bytes, nil, the text, the number, the error text; the tail is left |
| WireForms.LineArrives | crates/shrikedb-facade/src/resp_parser.rs:134-158 | an inline line followed by any tail parses to its words in order, an empty line or one without words is skipped, and the tail is left |
| WireForms.BadCounts | crates/shrikedb-facade/src/resp_parser.rs:113-188 | an array length below 0 or above 1048576 and a bulk length below -1 or above 536870912 are refused with their errors, wherever they stand |
| WireForms.BadTexts | crates/shrikedb-facade/src/resp_parser.rs:113-251 | a text that is no number is refused as array length, bulk length and integer, and an element with any other mark as bad protocol |
| RespParsers.ParseThenDrain | crates/shrikedb-server/src/shard_thread.rs:143-166 | parsing again and again until Incomplete gives all commands of the buffer in order |
| RespParsers.ParseAll | crates/shrikedb-server/src/shard_thread.rs:143-166 | parsing again and again until Incomplete, an error or a command that closes the connection gives the commands of the buffer in order up to there |
| RespParsers.Serve | crates/shrikedb-server/src/shard_thread.rs:143-182 | the connection loop over any chunks delivers the commands of the uncut stream up to and including the first QUIT, or all of them and then the error if any, whenever that stream is clean |
| Pipelines.CommandClean | crates/shrikedb-facade/src/reply_builder.rs:89-94 | a printed command in front of a clean stream is clean, whatever bytes its arguments contain |
| Pipelines.ScriptDrains | crates/shrikedb-facade/src/reply_builder.rs:89-94 | a printed script of commands drains to exactly those commands |
| Pipelines.PipelineDelivered | crates/shrikedb-server/src/shard_thread.rs:143-182 | any list of commands, printed and cut anywhere, arrives as exactly that list |
| Replies.ReplyBuilder.SendBulkString | crates/shrikedb-facade/src/reply_builder.rs:56-63 | appends the length line, the bytes and CRLF |
| Replies.ReplyBuilder.SendNull | crates/shrikedb-facade/src/reply_builder.rs:65-68 | appends the null bulk string |
| Replies.ReplyBuilder.SendInteger | crates/shrikedb-facade/src/reply_builder.rs:75-80 | appends the integer line |
| Replies.ReplyBuilder.SendArrayLen | crates/shrikedb-facade/src/reply_builder.rs:82-87 | appends the array header |
| Replies.ReplyBuilder.SendStringArray | crates/shrikedb-facade/src/reply_builder.rs:89-94 | appends the array of bulk strings |
| Replies.ReplyBuilder.SendOptions | crates/shrikedb-server/src/shard_thread.rs:477-484 | appends the array of values and nulls that MGET answers with |
| Replies.CommandRoundTrip | crates/shrikedb-facade/src/reply_builder.rs:56-100 | any list of byte strings within the limits, printed and followed by any tail, parses to that list and leaves that tail |
| WireForms.RepliesAreForms | crates/shrikedb-facade/src/reply_builder.rs:56-94 | integer and array replies are written in the forms that the parser reads, byte for byte |
| WireForms.RepliesArrive | crates/shrikedb-facade/src/reply_builder.rs:56-94 | an array reply of any optional values, followed by any tail, is read back as those values in order, nil for none |
| Gather.ParseArray | crates/shrikedb-server/src/main_service.rs:636-683 | the index loop reads the elements that stand in the bytes |
| Gather.IntegerRoundTrip | crates/shrikedb-server/src/main_service.rs:626-632 | reading an integer reply inverts printing it on all of i64 |
| Gather.ArrayRoundTrip | crates/shrikedb-server/src/main_service.rs:636-683 | reading an array reply inverts printing it, for every array of optional byte strings |
| Decimal.DecimalRoundTrip | crates/shrikedb-facade/src/resp_parser.rs:292-296 | printing an i64 and parsing the text, trimmed or not, gives it back |
| Decimal.PlaceValues | crates/shrikedb-facade/src/reply_builder.rs:96-100 | a number is printed so that the weighted sum of its digits, the highest place first, is the number, and without a leading zero |
| Decimal.ReadInPlaces | crates/shrikedb-facade/src/resp_parser.rs:292-296 | digits are read as their weighted sum, and a text has a value exactly if all its bytes are digits |
| PrimeValues.BytesRoundTrip | crates/shrikedb-core/src/compact_obj.rs:119-125 | bytes stored and read back are the same bytes, kept as text or as a number |
| PrimeValues.IntegerRoundTrip | crates/shrikedb-core/src/compact_obj.rs:164-175 | the text of an i64 is stored as that number |
| PrimeValues.IntegerOfBytes | crates/shrikedb-core/src/compact_obj.rs:127-133 | the number that a value stands for is what its text parses to, however it is kept |
| Databases.TimePasses | crates/shrikedb-server/src/db_slice.rs:24-33 | passing time only removes entries whose deadline has come |
| Databases.PurgedView | crates/shrikedb-server/src/db_slice.rs:24-33 | expiring a key lazily changes nothing that a client of an eagerly expiring store could see |
| Databases.PutView | crates/shrikedb-server/src/db_slice.rs:92-96 | storing keeps the deadline that the key had |
| Databases.SetDeadlineView | crates/shrikedb-server/src/db_slice.rs:123-129 | a deadline that has passed removes the key at once from view |
| Databases.ClearDeadlineView | crates/shrikedb-server/src/db_slice.rs:131-134 | clearing makes the key permanent |
| Databases.DropView | crates/shrikedb-server/src/db_slice.rs:112-117 | deleting removes exactly the key from view |
| Databases.TtlView | crates/shrikedb-server/src/db_slice.rs:136-156 | the remaining time is that of the visible entry |
| DbSlices.DbSlice.constructor | crates/shrikedb-server/src/db_slice.rs:36-42 | sixteen empty databases |
| DbSlices.DbSlice.CheckAndExpire | crates/shrikedb-server/src/db_slice.rs:24-33 | removes the key from both tables exactly if its deadline has passed |
| DbSlices.DbSlice.Find | crates/shrikedb-server/src/db_slice.rs:64-90 | expires the key if due and returns what is then stored |
| DbSlices.DbSlice.AddOrUpdate | crates/shrikedb-server/src/db_slice.rs:92-96 | stores the value, leaves the deadline, reports whether the key is new |
| DbSlices.DbSlice.AddIfAbsent | crates/shrikedb-server/src/db_slice.rs:98-110 | stores only if no live value was there |
| DbSlices.DbSlice.Del | crates/shrikedb-server/src/db_slice.rs:112-117 | removes the key from both tables whether expired or not |
| DbSlices.DbSlice.Exists | crates/shrikedb-server/src/db_slice.rs:119-121 | reports whether a live value is there |
| DbSlices.DbSlice.AddExpire | crates/shrikedb-server/src/db_slice.rs:123-129 | sets a deadline on stored keys only |
| DbSlices.DbSlice.RemoveExpire | crates/shrikedb-server/src/db_slice.rs:131-134 | removes the deadline and reports whether there was one |
| DbSlices.DbSlice.TtlMs | crates/shrikedb-server/src/db_slice.rs:136-156 | the three answers of a TTL query |
| DbSlices.DbSlice.Rename | crates/shrikedb-server/src/db_slice.rs:158-176 | moves value and deadline without looking at the deadline |
| DbSlices.DbSlice.Keys | crates/shrikedb-server/src/db_slice.rs:207-231 | lists each live matching key once and expires the others, unseen |
| DbSlices.DbSlice.ExpireSweep | crates/shrikedb-server/src/db_slice.rs:238-257 | removes exactly the expired keys among the first ones of the table, unseen, and returns their number |
| Commands.CmdGet | crates/shrikedb-server/src/commands/string_family.rs:68-76 | GET on the lazily expiring store is GET on the eagerly expiring one |
| Commands.CmdSet | crates/shrikedb-server/src/commands/string_family.rs:78-236 | SET with NX, XX, GET, KEEPTTL and every expiry option is SET on the eager store; whenever it writes, the key holds the new bytes exactly until now + ms with a relative expiry, exactly until ms with an absolute one, as long as before with KEEPTTL, and for good otherwise |
| Commands.CmdSetNx | crates/shrikedb-server/src/commands/string_family.rs:238-247 | SETNX is SETNX on the eager store |
| Commands.CmdSetEx | crates/shrikedb-server/src/commands/string_family.rs:249-287 | SETEX and PSETEX are those of the eager store, and the key then holds the bytes exactly until now + amount units, modulo 2^64 |
| Commands.CmdMSet | crates/shrikedb-server/src/commands/string_family.rs:301-318 | MSET is MSET on the eager store: last value per key, no deadline left |
| Commands.CmdMSetNx | crates/shrikedb-server/src/commands/string_family.rs:320-344 | MSETNX is MSETNX on the eager store: all keys or none |
| Commands.CmdGetSet | crates/shrikedb-server/src/commands/string_family.rs:346-369 | GETSET is GETSET on the eager store |
| Commands.CmdGetDel | crates/shrikedb-server/src/commands/string_family.rs:371-384 | GETDEL is GETDEL on the eager store |
| Commands.CmdIncrBy | crates/shrikedb-server/src/commands/string_family.rs:488-517 | INCRBY is INCRBY on the eager store: the deadline stays, overflow and non-numbers are refused |
| Commands.CmdAppend | crates/shrikedb-server/src/commands/string_family.rs:567-593 | APPEND is APPEND on the eager store: the deadline stays |
| Commands.CmdExpire | crates/shrikedb-server/src/commands/generic_family.rs:199-226 | relative expiry is that of the eager store: a live key keeps its value exactly until now + amount units, modulo 2^64, and is gone if the amount is not positive |
| Commands.CmdExpireAt | crates/shrikedb-server/src/commands/generic_family.rs:228-251 | absolute expiry is that of the eager store: a live key keeps its value exactly until the given time, and is gone at once if that has passed |
| Commands.CmdPersist | crates/shrikedb-server/src/commands/generic_family.rs:273-282 | PERSIST is PERSIST on the eager store: a live key then keeps its value at all later times |
| Commands.CmdTtl | crates/shrikedb-server/src/commands/generic_family.rs:253-271 | TTL and PTTL are those of the eager store, with the cast of the remaining time to i64 |
| Commands.CmdKeys | crates/shrikedb-server/src/commands/generic_family.rs:284-292 | KEYS lists the live matching keys of the eager store |
| Handlers.SetView | crates/shrikedb-server/src/commands/string_family.rs:78-236 | the exact tables and reply that SET leaves, seen by a client at the time of the command, are those of SET on the eager store; how long they last is Lifetimes.SetLifetime |
| Lifetimes.SetLifetime | crates/shrikedb-server/src/commands/string_family.rs:78-236 | at every time t: a SET that writes makes the key hold exactly the given bytes for t before now + ms (relative) or ms (absolute), nothing from then on; KEEPTTL keeps the span it had; without an option it lasts; a SET that does not write changes nothing visible |
| Lifetimes.SetExLifetime | crates/shrikedb-server/src/commands/string_family.rs:249-287 | at every time t the key of a SETEX holds its bytes exactly before now + amount units |
| Lifetimes.ExpireLifetime | crates/shrikedb-server/src/commands/generic_family.rs:199-226 | at every time t a live key keeps its value exactly before now + amount units, and is gone if the amount is not positive |
| Lifetimes.ExpireAtLifetime | crates/shrikedb-server/src/commands/generic_family.rs:228-251 | at every time t a live key keeps its value exactly before the given time, and is gone if that has passed |
| Lifetimes.PersistLifetime | crates/shrikedb-server/src/commands/generic_family.rs:273-282 | at every time t a persisted key has its value |
| Lifetimes.Countdown | crates/shrikedb-server/src/commands/generic_family.rs:253-271 | on a key that lives until some time, PTTL at t answers the milliseconds that are left and TTL the whole seconds in them, both -2 from that time on |
| Lifetimes.NoCountdown | crates/shrikedb-server/src/commands/generic_family.rs:253-271 | on a key that lives on, TTL and PTTL answer -1 at all times |
| Lifetimes.SecondsLeft | crates/shrikedb-server/src/commands/generic_family.rs:265-270 | the seconds of a TTL are those that fit in the milliseconds left, and the cast of a PTTL to i64 only changes spans of 2^63 and more |
| CommandLaws.SetReply | crates/shrikedb-server/src/commands/string_family.rs:78-236 | SET changes its key alone; it answers the error exactly for NX with XX, with GET what GET would have answered, and otherwise OK exactly if it wrote |
| CommandLaws.SetNxLaw | crates/shrikedb-server/src/commands/string_family.rs:238-247 | SETNX answers 1, and GET then the bytes, exactly if GET answered nil before; otherwise 0 and nothing changes |
| CommandLaws.GetSetLaw | crates/shrikedb-server/src/commands/string_family.rs:346-369 | GETSET answers as GET would, and GET then answers the new bytes, for good |
| CommandLaws.GetDelLaw | crates/shrikedb-server/src/commands/string_family.rs:371-384 | GETDEL answers as GET would, and GET then answers nil; a value that is not a string stays |
| CommandLaws.AppendLaw | crates/shrikedb-server/src/commands/string_family.rs:567-593 | after APPEND, GET answers the old bytes followed by the new ones, APPEND answered their number, and the deadline is the old one |
| CommandLaws.IncrByLaw | crates/shrikedb-server/src/commands/string_family.rs:488-517 | INCRBY takes the number that the text of GET parses to, 0 for nil; it answers that plus delta, GET then the text of it, and the deadline is the old one; other values and sums outside i64 are refused and nothing changes |
| CommandLaws.PersistLaw | crates/shrikedb-server/src/commands/generic_family.rs:273-282 | PERSIST answers 1 exactly on a key with a deadline and 0 exactly if nothing changed; GET answers as before and TTL -1 |
| CommandLaws.ExpireLaw | crates/shrikedb-server/src/commands/generic_family.rs:199-226 | EXPIRE answers 1 exactly on a live key, and removes it if the amount is not positive |
| CommandLaws.KeysLaw | crates/shrikedb-server/src/commands/generic_family.rs:284-292 | KEYS names exactly the live keys that match |
| CommandLaws.MSetLaw | crates/shrikedb-server/src/commands/string_family.rs:301-318 | after MSET, GET answers for each key the last bytes given for it, at all times |
| CommandLaws.MSetElsewhere | crates/shrikedb-server/src/commands/string_family.rs:301-318 | MSET leaves keys alone that it does not name |
| CommandLaws.MSetNxLaw | crates/shrikedb-server/src/commands/string_family.rs:320-344 | MSETNX answers 1 and does what MSET does exactly if GET answers nil for all its keys; otherwise 0 and nothing changes |
| ExpiryRuns.Execute | crates/shrikedb-server/src/commands/string_family.rs:68-593 | every command of a run has the effect and reply of the eager store, in whatever order the tables are iterated at that moment |
| ExpiryRuns.SetThenAsk | crates/shrikedb-server/src/commands/string_family.rs:78-236 | on the lazily expiring store: SET with PX or PXAT, then at any time t GET answers the bytes exactly before the deadline, and PTTL and TTL count down to it |
| ExpiryRuns.SetExThenAsk | crates/shrikedb-server/src/commands/string_family.rs:249-287 | the same for SETEX and PSETEX |
| ExpiryRuns.ExpireThenAsk | crates/shrikedb-server/src/commands/generic_family.rs:199-226 | the same for EXPIRE and PEXPIRE on a live key |
| ExpiryRuns.AskedUntil | crates/shrikedb-server/src/commands/generic_family.rs:253-271 | what GET, PTTL and TTL answer at any time on a key that lives until a given time |
| ExpiryRuns.Run | crates/shrikedb-server/src/db_slice.rs:24-257 | over every script with nondecreasing time, lazy expiry and sweeps are invisible: all replies and the final view are those of the eagerly expiring store, whatever order the tables are iterated in at each step |
| ExpiryRuns.DelIff | crates/shrikedb-server/src/db_slice.rs:112-117 | DEL always has the eager effect, and answers like the eager store if and only if the key is not stored past its deadline |
| ExpiryRuns.RenameIff | crates/shrikedb-server/src/db_slice.rs:158-176 | RENAME answers like the eager store if and only if the source key is not stored past its deadline, and acts like it if and only if no such key is renamed to a live one |
| ExpiryRuns.RenameLaw | crates/shrikedb-server/src/db_slice.rs:158-176 | after RENAME of a live key the target has its value and deadline, the key is gone, and no other key changes |
| ExpiryRuns.Overdue | crates/shrikedb-server/src/db_slice.rs:24-33 | a run of two SETs and time passing that leaves a key stored past its deadline beside a live one |
| ExpiryRuns.DelWitness | crates/shrikedb-server/src/db_slice.rs:112-117 | DEL in that state answers that it removed a key, which the eager store does not have |
| ExpiryRuns.RenameWitness | crates/shrikedb-server/src/db_slice.rs:158-176 | RENAME in that state answers OK and destroys the live target, which the eager store would keep |
| Glob.LaterStarSuffices | crates/shrikedb-server/src/db_slice.rs:289-292 | forgetting an earlier star loses no match |
| Glob.ScanClass | crates/shrikedb-server/src/db_slice.rs:294-320 | the class loop finds whether a byte is in the class, its negation, and where the class ends, closed or not |
| Glob.GlobMatch | crates/shrikedb-server/src/db_slice.rs:279-341 | the loop with one remembered star ends, and on keys without `*` and `[` decides the declarative meaning of the pattern |
| Glob.LoopDecides | crates/shrikedb-server/src/db_slice.rs:279-341 | for every pattern and every key without `*` and `[` the loop agrees with the declarative matcher |
| Glob.LoopDecidesIff | crates/shrikedb-server/src/db_slice.rs:286 | a key is matched correctly by all patterns if and only if it contains neither `*` nor `[` |
| Glob.MarksMean | crates/shrikedb-server/src/db_slice.rs:279-341 | a leading `*` takes any number of bytes, a leading `?` any one byte, and any other byte but `[` itself, and the rest of the pattern decides the rest of the key |
| Glob.ListedClass | crates/shrikedb-server/src/db_slice.rs:294-320 | a leading class that lists bytes takes one byte: exactly a listed one, or with `^` exactly another |
| Glob.ClassesMean | crates/shrikedb-server/src/db_slice.rs:294-320 | a leading class takes one byte: that byte, or one between the two ends of a range, or with `^` any other |
| SortedSets.LessTotal | crates/shrikedb-core/src/compact_obj.rs:97-104 | entries are totally ordered: by smaller score, and among equal scores by the member whose bytes come first at the first difference |
| SortedSets.LessTrans | crates/shrikedb-core/src/compact_obj.rs:97-104 | the order is transitive |
| SortedSets.BeforeMeaning | crates/shrikedb-core/src/compact_obj.rs:97-104 | members are compared by their first different byte, and a proper prefix comes first |
| SortedSets.SameSize | crates/shrikedb-server/src/commands/zset_family.rs:282-294 | the index has as many entries as there are members |
| SortedSets.RankCounts | crates/shrikedb-server/src/commands/zset_family.rs:190-196 | the size of the range below an entry is the number of members that come before it |
| SortedSets.ZSet.constructor | crates/shrikedb-server/src/commands/zset_family.rs:39-44 | an empty sorted set has matching empty indexes |
| SortedSets.ZSet.Add | crates/shrikedb-server/src/commands/zset_family.rs:46-57 | the member map is updated and the ordered index stays in bijection with it; reports whether the member is new |
| SortedSets.ZSet.Remove | crates/shrikedb-server/src/commands/zset_family.rs:59-66 | the member leaves both indexes, which stay in bijection |
| SortedSets.ZSet.RankOf | crates/shrikedb-server/src/commands/zset_family.rs:182-221 | range count and position count agree without underflow; rank is the number of members with a smaller score, or an equal one and a name that comes first; reverse rank the number of those with a larger score, or an equal one and a name that comes later |
| SortedSets.ZSet.Pop | crates/shrikedb-server/src/commands/zset_family.rs:354-391 | pops as many members as asked for or present: in the order of their scores from the smallest (ZPOPMIN) or the largest (ZPOPMAX), ties by name, each with its own score, none with a score beyond one that is left; the others stay |
| ListValues.RemovedCount | crates/shrikedb-server/src/commands/list_family.rs:251-256 | exactly the asked-for number of occurrences goes, as far as present, and nothing else |
| ListValues.FirstGoes | crates/shrikedb-server/src/commands/list_family.rs:251-256 | what stands before the first occurrence stays, that occurrence goes, and the rest loses one less |
| ListValues.Retain | crates/shrikedb-server/src/commands/list_family.rs:253-256 | retain with a counter removes the first occurrences |
| ListValues.RemoveLastMirrors | crates/shrikedb-server/src/commands/list_family.rs:257-267 | removing the last occurrences is reversing, removing the first and reversing back |
| ListValues.RemoveFromTail | crates/shrikedb-server/src/commands/list_family.rs:257-267 | collecting positions from the tail and removing them one by one is reversing, removing from the head and reversing back |
| ListValues.LRange | crates/shrikedb-server/src/commands/list_family.rs:183-191 | the loop shows the elements at the positions between the two ends, in order |
| ListValues.RangeSelects | crates/shrikedb-server/src/commands/list_family.rs:183-187 | the slice between the computed ends consists of the elements whose positions lie between start and stop, negative ones counted from the end, in order |
| ListValues.LTrim | crates/shrikedb-server/src/commands/list_family.rs:286-294 | draining the tail and then the head keeps the elements at the positions between the two ends, in order: what LRANGE shows for the same start and stop, for every start and stop |
| ListValues.RangeIff | crates/shrikedb-server/src/commands/list_family.rs:183-187 | a range is the one that Redis documents if and only if the stop does not lie before a non-empty list whose range starts at its head |
| ListCommands.PushedAt | crates/shrikedb-server/src/commands/list_family.rs:52-98 | after LPUSH the values stand in reverse order in front of the old elements, after RPUSH in order behind them, position by position |
| ListCommands.PoppedAt | crates/shrikedb-server/src/commands/list_family.rs:100-160 | LPOP with a count answers the first elements in order, RPOP the last ones from the end, as many as asked for or present, and leaves the others in order |
| ListCommands.PoppedOne | crates/shrikedb-server/src/commands/list_family.rs:100-160 | LPOP answers the first element and RPOP the last, and the rest is left |
| ListCommands.PushThenPop | crates/shrikedb-server/src/commands/list_family.rs:52-160 | on the database: popping at the end that was pushed to answers the pushed value and restores the database; popping at the other end answers what it would have answered before |
| ListCommands.RemNegative | crates/shrikedb-server/src/commands/list_family.rs:252-267 | a negative count is reversing, removing from the head and reversing back, except the smallest i64, whose wrapped absolute value removes nothing |
| ListCommands.Apply | crates/shrikedb-server/src/commands/list_family.rs:52-302 | push, pop, LREM and LTRIM change the list as specified and answer as specified |
| ListCommands.Execute | crates/shrikedb-server/src/commands/list_family.rs:52-302 | a list command changes only its key, and deletes it when the list becomes empty |
| ListCommands.AfterNoEmpty | crates/shrikedb-server/src/commands/list_family.rs:123 | no command leaves an empty list stored |
| ListCommands.Run | crates/shrikedb-server/src/commands/list_family.rs:52-302 | over every run of list commands the databases and replies are those specified, and no empty list is stored |
| Routing.HashTagMeaning | crates/shrikedb-server/src/sharding.rs:11-22 | the tag is what stands between the first opening brace and the next closing one if that is not empty, and the whole key otherwise |
| Routing.TagGroups | crates/shrikedb-server/src/sharding.rs:1-9 | keys with the same tag in braces land on the same shard for every checksum and number of shards |
| Routing.ShardsByChecksum | crates/shrikedb-server/src/sharding.rs:1-9 | two keys share a shard exactly if the checksums of their tags differ by a multiple of the number of shards, and a checksum below that number is the shard |
| KeyOps.ActElsewhere | crates/shrikedb-server/src/db_slice.rs:64-134 | an operation on one key leaves all that is held for any other key alone |
| KeyOps.ActHere | crates/shrikedb-server/src/db_slice.rs:64-134 | effect and answer of an operation depend on what is held for its key only |
| KeyOps.SpreadUnique | crates/shrikedb-server/src/sharding.rs:6-9 | the store that shards make up together is unique |
| KeyOps.SubSimulates | crates/shrikedb-server/src/shard_thread.rs:343-580 | a shard running its part of a command and the whole store running all of it agree on the keys of that shard |
| KeyOps.SubAnswers | crates/shrikedb-server/src/shard_thread.rs:404-475 | each answer of a shard is the answer of the whole command at the position the key came from |
| KeyMeaning.GetsMeaning | crates/shrikedb-server/src/commands/string_family.rs:289-299 | every value that MGET returns is the live one from before the command |
| KeyMeaning.LastWins | crates/shrikedb-server/src/commands/string_family.rs:301-318 | of a key given several times the last value stays, without deadline; other keys are untouched |
| KeyMeaning.DelsMeaning | crates/shrikedb-server/src/commands/generic_family.rs:122-132 | DEL removes exactly the named keys and counts each stored one once |
| KeyMeaning.ExistsMeaning | crates/shrikedb-server/src/commands/generic_family.rs:134-144 | EXISTS counts live keys as often as they are named and changes nothing visible |
| KeyCommands.CmdMGet | crates/shrikedb-server/src/commands/string_family.rs:289-299 | runs the lookups in order and prints the array of their answers |
| KeyCommands.CmdDel | crates/shrikedb-server/src/commands/generic_family.rs:122-132 | runs the deletions in order and prints their number |
| KeyCommands.CmdExists | crates/shrikedb-server/src/commands/generic_family.rs:134-144 | runs the checks in order and prints their number |
| KeyCommands.Dispatch | crates/shrikedb-server/src/shard_thread.rs:87-94 | a task reaching a shard runs its handler to the end at the current time, in one database |
| Scatter.Split | crates/shrikedb-server/src/shard_thread.rs:354-359 | every argument goes to the group of its shard, in order |
| Scatter.SplitPlaced | crates/shrikedb-server/src/shard_thread.rs:414-420 | every key goes to the group of its shard together with its position |
| Scatter.RunOn | crates/shrikedb-server/src/shard_thread.rs:87-94 | a task changes one shard and no other |
| Scatter.SpreadRun | crates/shrikedb-server/src/shard_thread.rs:343-580 | when every shard has run its part, the union of the shards is the whole store after the whole command |
| Scatter.Place | crates/shrikedb-server/src/shard_thread.rs:466-475 | values are written back to the positions their keys came from |
| Scatter.DispatchSum | crates/shrikedb-server/src/shard_thread.rs:343-401 | DEL and EXISTS over the shards, remote parts in any order, print what one unsharded store would print and leave its contents |
| Scatter.DispatchMSet | crates/shrikedb-server/src/shard_thread.rs:536-580 | MSET over the shards, in any order, leaves what one unsharded store would hold |
| Scatter.DispatchMGet | crates/shrikedb-server/src/shard_thread.rs:404-485 | MGET over the shards, in any order, prints byte for byte the array that one unsharded store would print |
| GlobalCommands.CmdDbSize | crates/shrikedb-server/src/commands/generic_family.rs:105-108 | prints the number of stored keys |
| GlobalCommands.DispatchDbSize | crates/shrikedb-server/src/shard_thread.rs:594-642 | the total over all shards is the size of the unsharded store |
| GlobalCommands.CmdKeys | crates/shrikedb-server/src/commands/generic_family.rs:284-292 | prints the live matching keys of a shard, each once |
| GlobalCommands.DispatchKeys | crates/shrikedb-server/src/shard_thread.rs:594-663 | the keys of all shards together are the live matching keys of the unsharded store, each once, and nothing visible changes |
| ShardTasks.TaskTogether | crates/shrikedb-server/src/shard_thread.rs:258-314 | a task does and answers on its shard what it would do and answer on the whole store |
| ShardTasks.TaskElsewhere | crates/shrikedb-server/src/shard_thread.rs:258-314 | the keys of other shards do not notice a task |
| ShardTasks.GlobalTogether | crates/shrikedb-server/src/shard_thread.rs:594-663 | FLUSHDB, KEYS and DBSIZE on the keys of one shard do and answer there what they would on those keys of the whole store |
| ShardTasks.GlobalOwn | crates/shrikedb-server/src/commands/generic_family.rs:105-113 | on a shard its share of FLUSHDB, KEYS and DBSIZE is everything it holds |
| Deliveries.SubmitCarries | crates/shrikedb-server/src/shard_thread.rs:343-580 | submitting a command over several keys adds tasks that carry every argument exactly once, in one task of its database, at the shard of its key, in argument order, and no empty task |
| Deliveries.SubmitAdds | crates/shrikedb-server/src/shard_thread.rs:258-314 | submitting any command adds exactly its tasks to those under way, waiting and executed, and loses none |
| Deliveries.NextConserves | crates/shrikedb-server/src/shard_thread.rs:82-125 | no step of connections, queues, shards, sweeps, snapshots and loads drops or repeats a task |
| Deliveries.RunConserves | crates/shrikedb-server/src/shard_thread.rs:82-125 | along every run, what is under way, waiting or executed is together what was there at the start and what was handed in, as multisets |
| Deliveries.Completed | crates/shrikedb-server/src/shard_thread.rs:343-580 | a command over several keys on a quiet server, once the server is quiet again, has run on every shard exactly the part of it that belongs there, once, and nothing else |
| ShardRuns.SpreadTask | crates/shrikedb-server/src/shard_thread.rs:87-94 | one task run on its shard is that task run on the union of all shards |
| ShardRuns.SubmitKeeps | crates/shrikedb-server/src/shard_thread.rs:258-314 | dispatching a command, on keys or to all shards, sends tasks only to the shard of their keys, and adds exactly its tasks to the system |
| ShardRuns.SweepAddressed | crates/shrikedb-server/src/shard_thread.rs:67-75 | a shard only sweeps keys of its own |
| ShardRuns.LoadKeeps | crates/shrikedb-server/src/shard_thread.rs:706-725 | a load message keeps the invariant: each entry it stores is a step of the unsharded store |
| ShardRuns.NextKeeps | crates/shrikedb-server/src/shard_thread.rs:82-125 | every step of connections, queues, shards, sweeps, snapshot and load messages keeps the invariant and neither drops nor repeats a task |
| ShardRuns.RunKeeps | crates/shrikedb-server/src/shard_thread.rs:82-125 | along every interleaving, with commands to all shards, snapshots and loads, each key stays on its shard, the union of the shards is one store replaying what was executed, in order, every message was answered as that store would answer, and what was handed in is exactly what is under way, waiting or executed |
| ShardRuns.NothingLost | crates/shrikedb-server/src/shard_thread.rs:82-125 | from an empty server, in every reachable state in which nothing is under way or waiting, exactly what was handed in was executed, each once |
| ShardRuns.CommandCompletes | crates/shrikedb-server/src/shard_thread.rs:343-580 | in any reachable quiet state: a command over several keys, delivered and run in any order until the server is quiet again, leaves the union of the shards as the unsharded store after the whole command, and every shard answered for each of its arguments what the whole command answers at that place |
| ShardRuns.KeysStayHome | crates/shrikedb-server/src/sharding.rs:6-22 | from an empty server, in every reachable state, a shard stores only keys that belong to it |
| ShardRuns.NxAllOrNothing | crates/shrikedb-server/src/commands/string_family.rs:320-344 | if no key of an MSETNX is live, all of them are set to their last value without deadline, nothing else changes and it answers 1; otherwise nothing visible changes and it answers 0 |
| ShardRuns.HonestNx | crates/shrikedb-server/src/commands/string_family.rs:320-344 | in a log whose answers are honest, an MSETNX answered 1 exactly if none of its keys was live, set all of them if it did and changed nothing visible if it did not |
| ShardRuns.EveryMSetNx | crates/shrikedb-server/src/shard_thread.rs:506-534 | in every run, every MSETNX that was executed answered 1 exactly if none of its keys was live on the union of all shards; then it set all of them, and otherwise it changed nothing visible there |
| ShardedCommands.HandleLocal | crates/shrikedb-server/src/commands/string_family.rs:68-593 | what a handler of a string, expiry or list command does and answers depends on what is held for its key only, and it leaves every other key alone |
| ShardedCommands.TaskIsHandler | crates/shrikedb-server/src/shard_thread.rs:87-94 | sent to a shard as a task, such a command leaves exactly the tables and gives exactly the answer of its handler |
| ShardedCommands.TaskIsEager | crates/shrikedb-server/src/commands/string_family.rs:68-593 | any task of a string or expiry command, of an MSET or MSETNX or of a sweep has the effect and answer of the eager store |
| ShardedCommands.ReplayIsEager | crates/shrikedb-server/src/db_slice.rs:24-257 | at any later time the union of the shards shows what the eager store holds |
| ShardedCommands.ShardedIsEager | crates/shrikedb-server/src/shard_thread.rs:82-125 | in every run from an empty server, over any number of shards and any interleaving, whose log holds such tasks at nondecreasing times, every answer is that of one eagerly expiring unsharded store, and everything handed in is under way, waiting or in that log |
| Crc64.CrcSplits | crates/shrikedb-persistence/src/rdb_format.rs:33-40 | the checksum of a concatenation is the checksum of the second part carried on from the first |
| Crc64.TableStep | crates/shrikedb-persistence/src/rdb_format.rs:36-37 | for every state and byte the table step equals eight bitwise shift steps |
| Crc64.BuildTable | crates/shrikedb-persistence/src/rdb_format.rs:44-63 | the nested loops fill each of the 256 entries with its index after eight shifts |
| Crc64.Update | crates/shrikedb-persistence/src/rdb_format.rs:33-40 | the table loop computes the bitwise checksum, which CrcDivision.CrcIsRemainder pins to the division by the polynomial |
| CrcDivision.CrcIsRemainder | crates/shrikedb-persistence/src/rdb_format.rs:33-63 | over the bits of start value, data and 64 zeros: a polynomial is the complement of the checksum if and only if it is the remainder of dividing the message, its first 64 bits complemented, by the polynomial whose 65 coefficients are written out |
| CrcDivision.ZeroByte | crates/shrikedb-persistence/src/rdb_format.rs:33-40 | the checksum of a single zero byte, as a literal |
| CrcPowers.AllGood | crates/shrikedb-persistence/src/rdb_format.rs:44-63 | raising to the eighth power modulo the polynomial is the linear map given by the 64 images of the bits |
| CrcPeriod.OnesReturn | crates/shrikedb-persistence/src/rdb_format.rs:33-40 | shifting brings the all-ones start value back exactly when it brings 1 back |
| CrcPeriod.ZeroRuns | crates/shrikedb-persistence/src/rdb_format.rs:33-40 | a run of n zero bytes has the checksum zero if and only if n is a multiple of 1080731969173463055 |
| Words.LeRoundTrip | crates/shrikedb-persistence/src/rdb_load.rs:191-214 | reading little-endian bytes inverts writing them |
| Words.BeRoundTrip | crates/shrikedb-persistence/src/rdb_load.rs:231-239 | reading big-endian bytes inverts writing them |
| Words.LittleEndian | crates/shrikedb-persistence/src/rdb_load.rs:191-214 | the byte at place i counts 256 to the power i |
| Words.BigEndian | crates/shrikedb-persistence/src/rdb_load.rs:231-239 | the last byte counts one, the one before it 256, and so on |
| Words.SignedRoundTrip | crates/shrikedb-persistence/src/rdb_load.rs:266-281 | a signed number cut to one, two or four bytes is read back as itself if it fits |
| RdbFormat.LengthRoundTrip | crates/shrikedb-persistence/src/rdb_save.rs:126-144 | every u64 length in any of its four encodings is read back, and reading goes on behind it |
| RdbFormat.IntegerTextRoundTrip | crates/shrikedb-persistence/src/rdb_save.rs:160-180 | every i64, in one of three compact forms or as text, is read back as its text |
| RdbFormat.TextRoundTrip | crates/shrikedb-persistence/src/rdb_save.rs:147-157 | every byte string is read back unchanged, whether written as text or as an integer |
| RdbFormat.CanonicalInteger | crates/shrikedb-persistence/src/rdb_save.rs:183-192 | a text is taken for an integer only if printing the integer gives the text back |
| RdbFiles.RecordRead | crates/shrikedb-persistence/src/rdb_save.rs:55-86 | a string or integer record is read back with key, value bytes, database and deadline |
| RdbFiles.SectionLoads | crates/shrikedb-persistence/src/snapshot.rs:49-58 | a database section brings back exactly its strings and integers under its own number |
| RdbFiles.SavedFileLoads | crates/shrikedb-persistence/src/rdb_load.rs:304-313 | loading a saved file succeeds, without checksum mismatch, and returns exactly the string and integer entries in order |
| RdbExamples.LengthBytes | crates/shrikedb-persistence/src/rdb_save.rs:126-144 | lengths of the four forms as literal bytes |
| RdbExamples.IntegerBytes | crates/shrikedb-persistence/src/rdb_save.rs:147-192 | integers of the three forms as literal bytes, and a text that only looks like an integer |
| RdbExamples.RecordBytes | crates/shrikedb-persistence/src/rdb_save.rs:55-86 | a record with a deadline as literal bytes |
| RdbExamples.PreambleBytes | crates/shrikedb-persistence/src/snapshot.rs:28-30 | header and metadata as literal bytes |
| RdbReads.SecondsRead | crates/shrikedb-persistence/src/rdb_load.rs:102-107 | a record with a deadline in seconds is read with a thousand times as many milliseconds |
| RdbReads.HintsDropped | crates/shrikedb-persistence/src/rdb_load.rs:112-119 | access counters and idle times are dropped, and reading goes on behind them |
| RdbReads.OtherTypes | crates/shrikedb-persistence/src/rdb_load.rs:120-158 | slot information, functions and module data are refused; any other unknown type is dropped together with its key only |
| RdbReads.CompressedRead | crates/shrikedb-persistence/src/rdb_load.rs:261-301 | a compressed string is read as empty and its bytes are passed over |
| RdbReads.EndRead | crates/shrikedb-persistence/src/rdb_load.rs:78-89 | a file ends well exactly if the stored checksum is zero or that of everything up to the end mark; otherwise both checksums are reported |
| RdbReads.HeaderVersions | crates/shrikedb-persistence/src/rdb_load.rs:54-71 | after the magic every version of four digits is accepted up to 12 and refused above |
| RdbReads.OtherMagic | crates/shrikedb-persistence/src/rdb_load.rs:54-59 | a file with any other start is refused |
| RdbExamples.FileBytes | crates/shrikedb-persistence/src/snapshot.rs:19-69 | a whole dump: preamble, database, sizes, record and end mark as bytes, then the checksum of all of these |
| RdbFiles.RecordReadsIff | crates/shrikedb-persistence/src/rdb_save.rs:62-82 | the bytes of a record are read correctly in front of whatever bytes follow if and only if it is not a collection with a deadline |
| RdbFiles.StrayMisreads | crates/shrikedb-persistence/src/rdb_save.rs:62-82 | in front of an end marker the bytes left by a collection with a deadline swallow the marker |
| RdbStray.StrayFileFails | crates/shrikedb-persistence/src/rdb_save.rs:62-82 | every dump in which only the last entry is a collection with a deadline fails to load altogether |
| RdbStray.DumpLoadsIff | crates/shrikedb-persistence/src/rdb_save.rs:62-82 | a dump that is fine up to its last entry loads as its strings and integers if and only if that entry is not a collection with a deadline |
| RdbStray.StraysCancel | crates/shrikedb-persistence/src/rdb_load.rs:91-130 | of two such collections in a row the second can bring the reader back in step, so a dump may survive them |
| RdbStray.DeadlineMoves | crates/shrikedb-persistence/src/rdb_save.rs:62-82 | a dump in which such a collection stands before a string without deadline is byte for byte the dump in which the string has the deadline |
| RdbStray.DeadlineStolen | crates/shrikedb-persistence/src/rdb_save.rs:62-82 | such a dump loads without error, with the deadline on the string, which is not what was saved |
| RdbSavers.RdbSaver.constructor | crates/shrikedb-persistence/src/rdb_save.rs:15-21 | nothing written, checksum zero |
| RdbSavers.RdbSaver.WriteBytes | crates/shrikedb-persistence/src/rdb_save.rs:114-119 | appends the bytes and carries the checksum of all output on |
| RdbSavers.RdbSaver.WriteU64Le | crates/shrikedb-persistence/src/rdb_save.rs:121-123 | appends eight little-endian bytes |
| RdbSavers.RdbSaver.WriteLength | crates/shrikedb-persistence/src/rdb_save.rs:126-144 | appends the length in the shortest of four forms |
| RdbSavers.RdbSaver.WriteIntegerAsString | crates/shrikedb-persistence/src/rdb_save.rs:160-180 | appends the integer in the smallest form that fits |
| RdbSavers.RdbSaver.WriteString | crates/shrikedb-persistence/src/rdb_save.rs:147-157 | appends the string, as an integer if it is a short canonical one |
| RdbSavers.RdbSaver.WriteHeader | crates/shrikedb-persistence/src/rdb_save.rs:24-29 | appends magic and version |
| RdbSavers.RdbSaver.WriteAux | crates/shrikedb-persistence/src/rdb_save.rs:32-37 | appends a metadata field |
| RdbSavers.RdbSaver.WriteSelectDb | crates/shrikedb-persistence/src/rdb_save.rs:40-44 | appends a database selector |
| RdbSavers.RdbSaver.WriteResizeDb | crates/shrikedb-persistence/src/rdb_save.rs:47-52 | appends the size hints |
| RdbSavers.RdbSaver.WriteKeyValue | crates/shrikedb-persistence/src/rdb_save.rs:55-86 | appends the record; for a collection only its deadline |
| RdbSavers.RdbSaver.WriteEof | crates/shrikedb-persistence/src/rdb_save.rs:89-97 | seals the file with the checksum of everything before it |
| RdbLoaders.RdbLoader.constructor | crates/shrikedb-persistence/src/rdb_load.rs:44-51 | nothing read, checksum zero |
| RdbLoaders.RdbLoader.ReadExact | crates/shrikedb-persistence/src/rdb_load.rs:177-189 | takes the next bytes and keeps the checksum that of all bytes read, or reports the end |
| RdbLoaders.RdbLoader.ReadU64LeNoCrc | crates/shrikedb-persistence/src/rdb_load.rs:204-214 | reads the stored checksum without summing it |
| RdbLoaders.RdbLoader.ReadLengthWithEncoding | crates/shrikedb-persistence/src/rdb_load.rs:217-253 | reads a length or an encoding mark, or refuses an unknown form |
| RdbLoaders.RdbLoader.ReadString | crates/shrikedb-persistence/src/rdb_load.rs:261-301 | reads a string in any form; a compressed one is skipped and read as empty |
| RdbLoaders.RdbLoader.ReadHeaderBytes | crates/shrikedb-persistence/src/rdb_load.rs:54-71 | accepts the magic and versions up to 12 |
| RdbLoaders.RdbLoader.CheckEnd | crates/shrikedb-persistence/src/rdb_load.rs:78-89 | compares the checksum of all bytes read with the stored one unless that is zero |
| RdbLoaders.RdbLoader.ReadEntryWithType | crates/shrikedb-persistence/src/rdb_load.rs:140-167 | reads key and value; an unknown type is skipped together with its key |
| RdbLoaders.RdbLoader.ReadTypedEntry | crates/shrikedb-persistence/src/rdb_load.rs:132-138 | reads the type byte behind a deadline |
| RdbLoaders.RdbLoader.ReadEntry | crates/shrikedb-persistence/src/rdb_load.rs:74-130 | the opcode loop yields the next entry, the end or the error that the format defines, and ends on every file |
| RdbLoaders.LoadFile | crates/shrikedb-persistence/src/rdb_load.rs:304-313 | all entries of a file in order, or its first error |
| Snapshots.CollectDb | crates/shrikedb-persistence/src/snapshot.rs:34-47 | the entries of one database in all shards, in order, and how many have a deadline |
| Snapshots.WriteSection | crates/shrikedb-persistence/src/snapshot.rs:49-58 | a section is written for a database with entries, nothing for an empty one |
| Snapshots.SaveRdb | crates/shrikedb-persistence/src/snapshot.rs:19-69 | the bytes of the file for the merged snapshots, and their number |
| Snapshots.SaveAndLoad | crates/shrikedb-persistence/src/snapshot.rs:19-76 | saver and loader together bring back exactly the strings and integers |
| Recovery.CollectSnapshot | crates/shrikedb-server/src/shard_thread.rs:694-704 | the snapshot lists exactly what the sixteen databases hold |
| Recovery.LoadShard | crates/shrikedb-server/src/shard_thread.rs:706-725 | entries past their deadline are skipped, the others stored with their deadline |
| Recovery.LoadIsStep | crates/shrikedb-server/src/shard_thread.rs:706-725 | loading an entry is the step on its key that the step system of the shards runs for it |
| Recovery.Distribute | crates/shrikedb-server/src/engine_shard_set.rs:195-212 | every loaded entry goes to the list of its shard, in order |
| Recovery.MergedLists | crates/shrikedb-server/src/engine_shard_set.rs:178-192 | the snapshots of all shards together list the unsharded store |
| Recovery.RecoverySpreads | crates/shrikedb-server/src/engine_shard_set.rs:195-224 | any number of shards filled from a file holds exactly the recovered store, every key on its shard |
| Recovery.RecoveredView | crates/shrikedb-server/src/shard_thread.rs:706-725 | at load time the recovered store shows the same live strings and integers, with the same bytes and deadlines |
| Recovery.SaveAndRecover | crates/shrikedb-server/src/shard_thread.rs:694-725 | snapshot of n shards, save, load and redistribution to any m shards yields the live strings and integers of the old server, database by database, with bytes and deadlines |

## Left out

- TCP, Tokio runtimes, channels and files: tasks travel through abstract queues, files are byte sequences. A shard being unavailable is not modelled.
- A task on its way may reach its queue at any later step, which covers channel capacity and spawned senders; waiting of a connection for its reply is not modelled, so the model allows more interleavings than the server.
- Scatter.DispatchSum: runs and gathers remote parts one after the other in an arbitrary order, at one clock value for all shards, without other commands in between; ShardRuns covers interleaving.
- Scatter.DispatchMGet: as Scatter.DispatchSum.
- Scatter.DispatchMSet: as Scatter.DispatchSum.
- The key hash of the table, CRC-32, the tokens of an inline command and the iteration order of tables are function or sequence parameters.
- The store of a shard is modelled on finite maps rather than on the Dash table, whose agreement with a map is proved separately and needs its guard; what a hidden key does to the table is stated by TableRuns.TwiceIffLost, not carried over to a database.
- A bucket is a value inside the segment that owns it, so aliasing of buckets is not captured.
- `retain`, `scan`, `clear`, `Segment::split`, `Segment::insert` and `insert_unique` of the table, `MaybeUninit` and `Drop`.
- Textual parsing of SET options, numbers and arity: handlers take parsed arguments. An argument that is not a string makes the handlers panic and is not modelled; the cast of the argument count to i16 is not modelled.
- The UTF-8 test in front of the glob loop.
- f64 arithmetic and formatting: scores are reals, so NaN, infinities and rounding are absent. ZRANGEBYSCORE, ZCOUNT and ZINCRBY are left out.
- LINDEX, LSET, LINSERT, hashes, sets, GETEX, GETRANGE, SETRANGE, RENAMENX and server commands: they would add easy members.
- The negation in DECRBY, which can overflow.
- FLUSHALL, SCAN and RANDOMKEY across shards, and the reply of FLUSHDB.
- ShardedCommands.ShardedIsEager: the log may hold string and expiry commands on one key, parts of MSET, MSETNX and sweeps, at times that do not go back along the log; list commands are shown to be tasks (`ShardedCommands.TaskIsHandler`) but have no eager counterpart.
- RespProtocol.CleanIffCutsAgree: speaks of the lines taken from a stream; a stream that is not clean can still give the same commands and the same end under every cut, as RespProtocol.HarmlessDirt shows.
- RespProtocol.DirtyCut: as RespProtocol.CleanIffCutsAgree.
- RdbStray.DumpLoadsIff: dumps with several collections that have deadlines are covered by examples only.
- I/O errors of the saver and loader other than the end of the file, and the allocation of the length that a corrupt file announces.
- ShardRuns.CommandCompletes: the steps between submitting and quiet are those of delivering and running tasks at one clock value; with other commands in between, ShardRuns.RunKeeps and ShardRuns.NothingLost apply.
- Recovery.SaveAndRecover: assumes that no collection has a deadline and that sizes fit in 64 bits; no command runs during the snapshot.
- `bytes_written` is a natural number, not a wrapping u64.
