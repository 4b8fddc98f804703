# Verified model of the server's storage and supervision core

This project models, in Dafny, the parts of the Matrix homeserver that hold delicate state,
and proves what they promise.

| module | models |
|---|---|
| `Wrappers`, `Bytes`, `Record` | optional values, byte strings, the order of keys, UTF-8, and what a record is encoded to |
| `Ser`, `De`, `Codec` | the record serializer and deserializer as state machines, and what they promise together |
| `Stream`, `Query` | the lazy cursor, prefix scans, and a typed prefix query end to end |
| `Watchers` | the prefix watchers: `watch` and the two phases of `wake` as interleaved steps |
| `Paging` | the batch loops over an imported Synapse database against one-shot queries |
| `Sweeps`, `Receipts`, `ReceiptKeys`, `Unsigned` | the sweeps that repair keys, delete duplicate read receipts and clean stored events |
| `Migrate` | the migration driver: versions, markers, runs that are cut off and started again |
| `Server`, `Manager` | the shutdown flags and the supervisor of service workers under every interleaving |

Code that changes state is a class whose methods are proved against specification functions;
concurrent code is a state machine whose steps are the sections that run without interruption,
and the theorems range over every sequence of steps. `debug` stands for a build with debug
assertions, in which a failed one panics; the codec theorems hold in both builds.

## Results that are not plain confirmations

- A tuple is read back exactly if it is not one empty field, raw bytes come last only, and a
  present optional starts with a byte other than 0xFF (`Codec.RoundTrip`). So `Some("")` is
  lost, and so is an optional integer whose top byte is 0xFF.
- `Ignore` skips a field if and only if its encoding holds no 0xFF (`Codec.SkippableIffNoSep`);
  over an integer that holds one it stops early (`Codec.IgnoreStopsInsideAnInteger`).
- The read-receipt sweep compares neighbours only and deletes the later of two, so it deletes the
  newer receipt (`Receipts.NewestIsDeleted`); the newest one of a room and user stays exactly if
  no receipt of theirs stands just before it (`Receipts.NewestSurvivesIff`). The sweep leaves one
  receipt for each room and user if and only if their receipts are contiguous
  (`Receipts.OneLeftIffContiguous`), and then it is the oldest (`Receipts.OneLeftIsOldest`);
  receipts of two users that alternate all stay (`Receipts.AlternatingReceiptsStay`).
- The double-separator sweep removes a row before it inserts the repaired one. A crash in
  between loses the row unless the repaired one was there already
  (`Sweeps.LostBetweenWrites`, `Migrate.TornRunsConvergeIff`, the row in `Sweeps.LostRow`).
- The same sweep converges under other crashes if and only if no separator is tripled
  (`Migrate.ConvergesIffStable`, `Sweeps.RepairIsIdempotent`, `Sweeps.DoubleSepSettles`, the key in
  `Sweeps.TripledSeparator`).
- The background rewrite of stored events writes back what its iterator read, so a replacement
  made before the sweep gets to the event is overwritten (`Unsigned.ReplaceSurvivesIff`,
  `Unsigned.OverwrittenReplacement`).
- A loop delivers every row for every limit if and only if the keys beyond its cursor are unique
  (`Paging.DeliversAllIffUnique`). A page of edges is joined after it was cut and then cut
  again; there every row is delivered if and only if no edge matches two events
  (`Paging.DeliversAllIffOneMatch`); unique event ids are enough for that
  (`Paging.UniqueIdsMatchOnce`).
- If the server stops during the delay before a restart, the join loop ends with an error while
  other workers are still in the join set (`Manager.StopDuringDelay`), where they stay
  (`Manager.LeftBehind`).

## Where code and comments disagree

The model follows the code. `src/service/migrations.rs:36-41` says that a database of a newer
version is rejected with an error; the code runs the marked migrations and then panics in an
assertion (`Migrate.Database.Migrate`, result `WrongVersion`). `src/database/watchers.rs:32` says
that the sender is never destroyed; it is, right after its one send, and the wait still cannot
fail (`Watchers.NothingPanics`). `reload` would leave `reloading` set on one error path
(`src/core/server.rs:76-78`); only the build without dynamic modules is modelled, which returns
an error first.

## Model

| member | source | states |
|---|---|---|
| Ser.Serializer.RecordStart | src/database/ser.rs:98-103 | A record is begun: every one but the first is preceded by one separator; finalized serializers refuse. |
| Ser.Serializer.TupleStart | src/database/ser.rs:78-81 | A tuple begins unless a record was already begun or the serializer is finalized, and goes one level deeper in debug builds. |
| Ser.Serializer.SetFinalized | src/database/ser.rs:112-117 | Finalizing twice is refused in debug builds; release builds do not track it. |
| Ser.Serializer.Serialize | src/database/ser.rs:218-302 | The buffer grows by exactly the encoding of the value, and the debug build panics exactly when the value trips an assertion in that state. |
| Ser.Serializer.SerializeTuple | src/database/ser.rs:318-328 | The buffer grows by the fields joined with single separators; it fails exactly when a debug build meets a begun record, a finalized serializer or an Interfix that is not last; the depth is restored, and the flags are what the fields make them. |
| Ser.Serializer.SerializeSeq | src/database/ser.rs:307-316 | The buffer grows by the elements with nothing between them, and no record is begun; it fails exactly when the serializer is finalized, or a debug build meets a directive after an Interfix. |
| Ser.SerializeToVec | src/database/ser.rs:8-45 | A fresh serializer yields the encoding of the tuple, and fails only in a debug build with an Interfix that is not last. |
| Ser.SerializeBareToVec | src/database/ser.rs:252-268 | One value outside a tuple is its encoding, and a debug build panics exactly if it is text or raw bytes, optional or not. |
| Ser.AfterIsTuple | src/database/ser.rs:98-108 | Writing elements one by one, each starting a record, writes the encoding of the tuple. |
| Ser.TypedIsWritable | src/database/ser.rs:218-302 | Every value of a kind that a schema may name can be handed to the serializer, and so can the directives. |
| Record.SeqElementAt | src/database/ser.rs:307-316 | The elements of a sequence stand in their order, each as its own encoding. |
| Codec.EncodingsByHand | src/database/ser.rs:218-302 | The bytes of one value of every kind, written out. |
| Codec.TuplesByHand | src/database/tests.rs:43-62 | The bytes of tuples with texts, absent optionals and a prefix directive, and of a sequence, written out. |
| De.Deserializer.Finished | src/database/de.rs:57-69 | True exactly when nothing but at most one trailing separator is left. |
| De.Deserializer.RecordNext | src/database/de.rs:99-105 | Consumes exactly the bytes up to the next separator or the end and returns them. |
| De.Deserializer.RecordStart | src/database/de.rs:124-133 | Skips the separator in front of every record but the first, never past the end; a debug build panics if another byte is there. |
| De.Deserializer.RecordTrail | src/database/de.rs:138-142 | Consumes and returns everything that is left, separators included. |
| De.Deserializer.ReadU64 | src/database/de.rs:349-360 | Reads eight bytes as a big-endian number whatever they are, or fails on fewer without moving. |
| De.Deserializer.Deserialize | src/database/de.rs:236-395 | Every typed reader yields the value or error that its kind specifies at the cursor; the cursor never moves back and never leaves the buffer, whatever the bytes. |
| De.Deserializer.NextElement | src/database/de.rs:440-451 | At the end of the buffer a field is missing, an error; otherwise the separator is skipped and the field read. |
| De.Deserializer.DeserializeTuple | src/database/de.rs:187-208 | Reads the fields of a schema in order and stops at the first failure; cursor safety on arbitrary bytes; within an open sequence a debug build panics and a release build reads on. |
| De.TupleFromSlice | src/database/de.rs:21-32 | Whole-buffer decoding is the specification function that the theorems are about; a debug build panics on bytes left over. |
| De.ValueFromSlice | src/database/de.rs:21-32 | The same for one bare value. |
| De.DecodingIsTyped | src/database/de.rs:278-395 | On arbitrary bytes, what decoding yields has the kinds of the schema, and a release build never panics. |
| De.DataIff | src/database/de.rs:278-395 | The data kinds are exactly those of which every reading, of any bytes, yields a value of the kind. |
| Codec.RoundTrip | src/database/de.rs:278-395 | For every schema and tuple of its kinds and in both builds: decoding the encoding returns the same values, with nothing left over, if and only if the tuple is not one empty field, raw bytes come last only and present optionals start with a byte other than the separator. |
| Codec.EncodingIsInjective | src/database/ser.rs:98-108 | No two tuples of a schema that can be read back have the same encoding. |
| Codec.BareRoundTrip | src/database/de.rs:278-395 | The same round trip for one value outside a tuple, with its exact condition. |
| Codec.TextsAreSplit | src/database/de.rs:373-384 | On any bytes, decoding texts yields exactly the texts that the buffer begins with, one for each field, up to its end or a separator; a debug build accepts at most one separator beyond them. |
| Codec.MissingFieldsAreErrors | src/database/de.rs:440-451 | A record with fewer fields than the schema is an error in both builds, whatever kinds are missing, optional and ignored ones included. |
| Codec.BoolBytes | src/database/de.rs:291-299 | Any byte but zero is read as true. |
| Codec.SkipFields | src/database/de.rs:78-105 | Replacing any set of fields whose encodings hold no separator by Ignore leaves all other decoded fields as they were, and decoding ends finished; what is skipped need not be readable. |
| Codec.IgnoreIsOneField | src/database/de.rs:82-105 | Ignore consumes exactly one field if and only if the encoding of the field holds no separator. |
| Codec.BareIgnoreIsAll | src/database/de.rs:78-96 | Outside a tuple Ignore skips the whole buffer, separators included, and nothing is left over. |
| Codec.SkippableIffNoSep | src/database/de.rs:82-105 | A field may be ignored, after any leading fields and before any text, without changing what the others decode to if and only if its encoding holds no separator. |
| Codec.IgnoreRest | src/database/de.rs:90-94 | IgnoreAll after i fields decodes those fields as the full decode does, whatever follows, and ends finished. |
| Codec.IgnoreStopsInsideAnInteger | src/database/de.rs:99-105 | A concrete key on which Ignore stops inside an integer: the next field comes out wrong in a release build, a debug build panics. |
| Codec.PrefixIsExact | src/database/ser.rs:218-230 | An encoded key starts with the encoding of leading values and Interfix if and only if its leading values are those, for schemas whose leading fields are delimited. |
| Codec.DelimitedIff | src/database/ser.rs:98-108 | A kind is delimited (strings, 64-bit integers, booleans and optional booleans) if and only if an encoding in front of a separator tells the value, whatever follows. |
| Codec.KeyOrder | src/database/ser.rs:290 | Keys that share leading values sort bytewise as the unsigned integers that follow, whatever comes after. |
| Codec.KeysFormABlock | src/database/ser.rs:72-73 | No other key sorts between two keys that share their leading values. |
| Bytes.BigEndianRoundTrip | src/database/ser.rs:290 | A number is recovered from its big-endian bytes. |
| Bytes.BigEndianOrder | src/database/ser.rs:290 | Big-endian strings of one width sort as their numbers. |
| Bytes.LessIff | src/database/map/keys_from.rs:49-81 | Of two keys the first byte that differs decides, and a proper prefix comes first. |
| Bytes.Utf8HasNoSep | src/database/ser.rs:72-73 | No UTF-8 text contains the separator. |
| Bytes.Utf8Iff | src/core/utils/string.rs:114-116 | Bytes are text if and only if they are the bytes of some sequence of scalar values, one to four each by the arithmetic of UTF-8. |
| Stream.State.InitFwd | src/database/stream.rs:61-73 | The cursor is put on the first key at or above the bound, or the first key, and marked positioned. |
| Stream.State.InitRev | src/database/stream.rs:77-89 | The cursor is put on the last key at or below the bound, or the last key, and marked positioned. |
| Stream.State.SeekFwd | src/database/stream.rs:93-99 | The first step stays on a positioned key or goes to the first one, later steps advance by one; the position never leaves the table. |
| Stream.State.SeekRev | src/database/stream.rs:103-109 | The mirror image downwards. |
| Stream.State.SeekFwdTimes | src/database/stream.rs:93-99 | After j steps the cursor is on the j-th key counted from where it starts, and stays invalid once it left the table. |
| Stream.State.SeekRevTimes | src/database/stream.rs:103-109 | The mirror image downwards. |
| Stream.State.CollectFwd | src/database/stream/keys.rs:33-39 | Polling to the end delivers exactly the rest of the table from the start of the cursor, in order. |
| Stream.State.CollectRev | src/database/stream/keys_rev.rs:33-39 | Polling to the end delivers exactly the keys from the start of the cursor down, reversed. |
| Stream.KeysFrom | src/database/map/keys_from.rs:49-81 | Exactly the keys not below the bound, in order. |
| Stream.RevKeysFrom | src/database/map/rev_keys_from.rs:51-83 | Exactly the keys not above the bound, in reverse order. |
| Stream.Keys | src/database/map/keys.rs:20-49 | Without a bound the whole table is enumerated, and the reverse enumeration is the forward one reversed. |
| Stream.KeysPrefix | src/database/map/keys_prefix.rs:47-56 | The scan that starts at a prefix and stops at the first key without it finds every key with the prefix and no other. |
| Query.ScanFindsRows | src/database/map/keys_prefix.rs:22-33 | The keys under a prefix key are the keys of the rows that begin with the leading values, in order. |
| Query.DecodeKeys | src/database/keyval.rs:67-90 | Decoding the keys of stored rows returns those rows, in both builds. |
| Query.StoredRowIff | src/database/keyval.rs:67-90 | The rows that the query theorems are about are those that decoding gives back. |
| Query.KeysPrefix | src/database/map/keys_prefix.rs:10-33 | Serialize, scan, deserialize: in both builds the typed query delivers exactly the stored rows that begin with the leading values. |
| Watchers.FireAllEffect | src/database/watchers.rs:48-55 | The write phase sends to the channels of its prefixes that are still in the map, to nothing else, and keeps the life cycle of channels. |
| Watchers.StatusAfter | src/database/watchers.rs:31-34 | Step by step in every run: a future completes exactly when its owner polls it after something was sent to its channel, is dropped exactly when its owner drops it before, and nothing else touches it. |
| Watchers.NoLostWakeups | src/database/watchers.rs:18-56 | In every interleaving, when wake(key) has returned, every future for a prefix of key registered before its read phase is completed by its next poll, unless it is over already, whichever wake sent to it. |
| Watchers.NoSpuriousWakeups | src/database/watchers.rs:18-56 | A future that completed was registered at one step and polled to completion at a later one, and between the two was the write phase of a wake of a key with its prefix, after the read phase of that wake. |
| Watchers.ChannelLifeCycle | src/database/watchers.rs:22-29 | In every reachable state a channel is in the map under its own prefix, with its sender and a receiver alive, if and only if nothing was sent to it. |
| Watchers.FailuresAre | src/database/watchers.rs:31-54 | In any state, what fails is a send to a channel without a receiver and a wait on one without a sender to which nothing was sent. |
| Watchers.NothingPanics | src/database/watchers.rs:31-54 | Neither the expect on a send nor the unwrap on a wait fails in any run: every watched channel has a receiver, and every pending future has been sent to or has a sender. |
| Watchers.Watchers.Watch | src/database/watchers.rs:18-35 | The critical section of watch shares the channel of a watched prefix or makes one, and keeps the life cycle. |
| Watchers.Watchers.WakeRead | src/database/watchers.rs:37-46 | The read phase collects exactly the watched prefixes of the key. |
| Watchers.Watchers.WakeWrite | src/database/watchers.rs:48-55 | The write phase loop removes and fires the collected prefixes that are still there. |
| Paging.OrderBySame | src/synapse_migration/postgres.rs:2159-2165 | ORDER BY keeps exactly the rows. |
| Paging.KeyLessIff | src/synapse_migration/postgres.rs:2662-2666 | Of two cursors the first column that differs decides, a number by its value, a text by its first character that differs (`Paging.CellLessIff`). |
| Paging.CellLessIff | src/synapse_migration/postgres.rs:2662-2666 | Numbers ascend by value, texts by the first character that differs, and false is before true. |
| Paging.OrderByOrdered | src/synapse_migration/postgres.rs:2159-2165 | With unique keys the result is strictly ordered, ascending or descending. |
| Paging.OrderByDirections | src/synapse_migration/postgres.rs:2159-2165 | With unique keys the ascending result has every earlier key first by its first column that differs, and the descending result is that one reversed. |
| Paging.BeyondOrderBy | src/synapse_migration/postgres.rs:2510-2516 | Restricting to rows beyond a cursor commutes with ordering. |
| Paging.PageAt | src/synapse_migration/postgres.rs:2510-2530 | A page is the next slice of the ordered table, and its last key puts the cursor exactly behind that slice. |
| Paging.ForEachBatch | src/synapse_migration/postgres.rs:2492-2543 | For any source, cursor and limit the loop ends and delivers its batches in order, all of them or up to the one that the callback refuses; every row delivered is one of the one-shot query; with unique keys beyond the initial cursor they join up to the one-shot result beyond it. |
| Paging.OneEdgeJoined | src/synapse_migration/postgres.rs:2650-2673 | An edge that no event matches stays as it is, alone; otherwise it is joined to one row for each event that matches, in order, with its key and data, and the room of that event if it had none. |
| Paging.EdgesJoined | src/synapse_migration/postgres.rs:2670-2673 | Each edge is joined by itself. |
| Paging.JoinedRow | src/synapse_migration/postgres.rs:2650-2673 | The rows of the one-shot query are exactly the edges without a match and the joins of edges with events that match, with the room of the edge, or of the event if it had none. |
| Paging.BatchesAreOneShot | src/synapse_migration/postgres.rs:2146-2186 | For any rows with unique keys beyond the cursor, any composite cursor, either direction and any positive limit, the batches join up to the ordered one-shot result beyond the cursor, each row once, and all but the last are full. |
| Paging.DeliversAllIffUnique | src/synapse_migration/postgres.rs:2146-2186 | The loop delivers the one-shot result beyond the cursor for every positive limit if and only if the rows beyond the cursor have unique keys. |
| Paging.SourcePage | src/synapse_migration/postgres.rs:2660-2676 | Joining events onto each limited page of edges is paging the joined table, when the joined rows beyond the cursor have unique keys. |
| Paging.DeliversAllIffOneMatch | src/synapse_migration/postgres.rs:2660-2700 | The loop over joined edges delivers every row of the one-shot query for every positive limit if and only if no edge beyond the cursor matches more than one event. |
| Paging.JoinedUniqueIff | src/synapse_migration/postgres.rs:2662-2673 | The cursor keys of the joined rows are unique if and only if those of the edges are and every edge matches at most one event. |
| Paging.DuplicateEventsLoseRows | src/synapse_migration/postgres.rs:2662-2674 | A concrete edge with two events of one id, of which the pages deliver one row and the one-shot query two. |
| Paging.ForEachSoftFailedBatch | src/synapse_migration/postgres.rs:2734-2776 | The loop delivers each page filtered, also empty ones, up to a refused batch; every row delivered is a row of the table whose flag is true; together they are the filter of the ordered table. |
| Paging.FilterCommutes | src/synapse_migration/postgres.rs:2760-2770 | Filtering every page yields the filter of all pages together. |
| Paging.SoftFailedRows | src/synapse_migration/postgres.rs:2760-2770 | Filtering keeps exactly the rows whose flag is true. |
| Paging.SoftFailedUpToOrder | src/synapse_migration/postgres.rs:2705-2732 | The unordered one-shot reader delivers the same soft-failed rows, each as often. |
| Paging.LoopIsOneShot | src/synapse_migration/postgres.rs:2287-2327 | From its initial cursor the loop delivers the whole one-shot result for every positive limit if and only if keys are unique and every one lies beyond that cursor. |
| Paging.LeastCursorSkipsItselfOnly | src/synapse_migration/postgres.rs:3142-3145 | Cursors of least numbers and empty strings, in any number of columns, shut out the one key that equals them and nothing else. |
| Sweeps.Table.FixMissingSep | src/service/migrations.rs:619-646 | Cut off after any write, the sweep leaves a table whose repair is that of the first one and breaks no key; uncut, it leaves the repaired table; it stops short only after exactly the writes it was given or at a row that makes it panic, and a row that is no text with a '$', or has a value in a debug build, always does. |
| Sweeps.Table.FixDoubleSep | src/service/migrations.rs:494-521 | On any table the sweep repairs the rows of the keys it walked and leaves the others, but for one row if it is cut off between the two writes of a key; if no key needs two repairs, a table that is not torn so has the same repair; it stops short only after exactly the writes it was given or at a key without a separator, which always makes it panic. |
| Sweeps.MovesIff | src/service/migrations.rs:497-517 | A key is moved if and only if its first separator is doubled, or it is text with a '$' and no separator, and then to the key with one separator there. |
| Sweeps.RepairIsIdempotent | src/service/migrations.rs:497-520 | Repairing twice is repairing once if and only if no key needs two repairs. |
| Sweeps.DoubleSepSettles | src/service/migrations.rs:501-517 | A doubled separator needs one repair if and only if it is not tripled. |
| Sweeps.MissingSepSettles | src/service/migrations.rs:629-640 | A missing separator never needs a second repair. |
| Sweeps.CutBetweenRemoveAndInsert | src/service/migrations.rs:514-518 | A crash between the remove and the insert changes what the table is repaired to, unless the repaired row was there already with that value. |
| Sweeps.LostBetweenWrites | src/service/migrations.rs:514-518 | A sweep cut off between the two writes of a key leaves a table with the same repair if and only if the repaired row was there already with that value. |
| Sweeps.LostRow | src/service/migrations.rs:514-518 | A concrete row that a crash between the remove and the insert loses. |
| Sweeps.TripledSeparator | src/service/migrations.rs:501-517 | A concrete key with three separators: repairing it twice is not repairing it once. |
| Sweeps.RepairAgreesWithCodec | src/service/migrations.rs:497-520 | Each sweep turns the legacy key of a pair into the codec's encoding of the pair, and leaves well-formed keys alone. |
| Sweeps.MovedKeyIsAPair | src/service/migrations.rs:631-638 | Every key that the missing-separator sweep moves is room followed by event, for a room without '$' and an event that starts with it. |
| Sweeps.PairsAreTexts | src/service/migrations.rs:631-638 | A pair is any two texts; for the missing-separator sweep the second one begins with the first '$'. |
| Sweeps.RepairedKeyIsRead | src/service/migrations.rs:632-639 | The deserializer reads a repaired key as the pair. |
| Sweeps.PairIsConserved | src/service/migrations.rs:613-653 | A pair is in the repaired table, under its encoding, if and only if it was there in either form, with the legacy value where there was one. |
| Sweeps.PairsAreStable | src/service/migrations.rs:486-520 | A table whose keys stand for pairs, in either form, needs no second repair and makes neither sweep panic. |
| Sweeps.OnlyPairsAreLeft | src/service/migrations.rs:613-653 | Nothing but encodings of pairs is left. |
| Receipts.Table.FixDuplicates | src/service/migrations.rs:665-685 | The sweep deletes exactly the walked keys whose predecessor in the original order has the same room and user; the counters are right wherever it is cut. |
| ReceiptKeys.StoredInKeyOrder | src/service/migrations.rs:669-671 | The store delivers each key once, and within a room by ascending count. |
| ReceiptKeys.KeyIsRead | src/service/migrations.rs:656-671 | What the typed iterator reads of a stored key is the room, the count and the user. |
| Receipts.NeighboursDiffer | src/service/migrations.rs:671-684 | No two neighbours among the survivors share room and user. |
| Receipts.SweepIsIdempotent | src/service/migrations.rs:671-684 | Sweeping twice is sweeping once. |
| Receipts.ResumeIsWhole | src/service/migrations.rs:665-685 | A sweep cut off after any prefix and run again leaves what one whole sweep leaves. |
| Receipts.OneLeftIffContiguous | src/service/migrations.rs:671-684 | One receipt for each room and user is left if and only if their receipts were contiguous in key order. |
| Receipts.AlternatingReceiptsStay | src/service/migrations.rs:675-680 | Three receipts of two users that alternate: the sweep deletes none. |
| Receipts.NewestSurvivesIff | src/service/migrations.rs:671-684 | The newest receipt of a room and user stays if and only if the receipt just before it is about another room or user; the oldest always stays. |
| Receipts.OneLeftIsOldest | src/service/migrations.rs:671-684 | Where the sweep leaves one receipt for each room and user, it leaves the oldest. |
| Receipts.NewestIsDeleted | src/service/migrations.rs:675-680 | Two receipts of one user: the sweep deletes the newer one. |
| Receipts.ListedIsCut | src/service/migrations.rs:665-685 | The rows that a cut-off sweep leaves are, in key order, the survivors among the walked keys and the other keys. |
| Unsigned.Event.UnembedUnsigned | src/service/migrations.rs:968-989 | Said of the JSON alone: every top-level field but `unsigned` is kept; if `unsigned` was an object, every field of it but six is kept with its value, whatever that is, and otherwise it starts empty; five fields are gone; the identifier of a redaction is noted exactly if `redacted_because` is an object whose `event_id` is one, else an earlier note is kept. |
| Unsigned.UnembedsOne | src/service/migrations.rs:968-989 | That description fits one new event for each old one, the one the rewrite makes. |
| Unsigned.RedactedEvent | src/service/migrations.rs:968-989 | One event with a field under every name that matters, and what becomes of it, written out. |
| Unsigned.RewriteIsIdempotent | src/service/migrations.rs:968-989 | Rewriting an event twice is rewriting it once. |
| Unsigned.MigrateTwice | src/service/migrations.rs:950-961 | Sweeping some events and then others, with overlap, is sweeping all of them once. |
| Unsigned.ResumeIsWhole | src/service/migrations.rs:950-961 | A partial sweep followed by a whole one is one whole sweep. |
| Unsigned.Database.UnembedUnsignedInfo | src/service/migrations.rs:940-966 | Exactly the walked events are rewritten, up to the cut or the first corrupt event; the marker is written if and only if all were. |
| Unsigned.ReplaceSurvivesIff | src/service/migrations.rs:948-961 | While the sweep runs beside callers that replace events, the last replacement of an event survives if and only if the sweep was past the event by then, or never gets to it, or writes that same value. |
| Unsigned.OverwrittenReplacement | src/service/migrations.rs:950-956 | A concrete replacement that the background sweep overwrites. |
| Unsigned.SweepAlone | src/service/migrations.rs:948-961 | Without other writers the steps of the background sweep do what the sweep does. |
| Migrate.CutRunsConverge | src/service/migrations.rs:99-296 | Any number of runs, each cut off anywhere, followed by a complete run, end where one uninterrupted run from the start ends; the version never goes down and no marker is lost. |
| Migrate.SoundWhen | src/service/migrations.rs:497-520 | What the convergence theorems ask of a database holds if the double-separator sweep is over or the keys are pairs in either form, and says exactly that the sweep, if it is due, can be repeated. |
| Migrate.CompleteIsWholeRun | src/service/migrations.rs:99-287 | From any version 11 on and any markers, a complete run is exactly the bodies, each by name, that were due at its start, in the order of the source, with the repair of memberships in its place, the version and all synchronous markers. |
| Migrate.CompleteIsCurrent | src/service/migrations.rs:99-296 | From any version 11 to 19 and any markers a complete run reaches version 19 with exactly the old and all synchronous markers, and repairs exactly the tables whose sweeps were due; the joined users are repaired when the double-separator sweep is over, and at the end are that or what the repair of memberships makes of it. |
| Migrate.MarkerMeansDone | src/service/migrations.rs:140-195 | When a sequence of cut-off runs has set the marker of a sweep, its table is the repaired table of the start; the joined users are that, or on the way to what the repair of memberships makes of that. |
| Migrate.MarkerNeedsBody | src/service/migrations.rs:124-287 | Whatever marker a run sets, it set it only after the body that the source has under that marker, by name, ran whole on what the stages before left. |
| Migrate.ConvergesIffStable | src/service/migrations.rs:497-524 | After a cut between the last write of the double-separator sweep and its marker, the next run gets to the end of that stage as the first would have if and only if no key needs two repairs, and then ends as the first would have; if the repair of memberships is not due, only then. |
| Migrate.TornRunsConvergeIff | src/service/migrations.rs:494-524 | Any number of runs, cut off anywhere, also between the two writes of a key in the double-separator sweep: if no row was lost, a complete run ends as an uninterrupted one from the start would have. As long as the repair of memberships does not rewrite the table, the next run makes of it what the first would have if and only if no row was lost; if that repair is not due, the same holds of the end of a complete run. |
| Migrate.SecondRunIsNoOp | src/service/migrations.rs:99-296 | A complete run after a complete run changes nothing. |
| Migrate.SettledBefore | src/service/migrations.rs:99-287 | After i stages of a run each of them, run again, is skipped or changes nothing, whatever ran in between. |
| Migrate.TornResumes | src/service/migrations.rs:486-692 | A stage whose body was cut off ends, when it is run again, as if it had not been. |
| Migrate.FreshNeedsNothing | src/service/migrations.rs:67-84 | The version and markers of a fresh database are the ones that all stages look for. |
| Migrate.Database.Migrate | src/service/migrations.rs:99-296 | The driver leaves what a cut-off run may leave, and how it ends is exact on every database: refused and unchanged below version 11; cut short if and only if the run gets to the stage of the cut and does not skip it, or a sweep that is due meets a row at which it panics; else complete at version 19, or failing for a newer version, after exactly the bodies that were due. |
| Migrate.Database.RunBody | src/service/migrations.rs:486-692 | A body, whole or cut off after any of its writes, leaves what the convergence theorems allow, through the three sweeps as written. |
| Migrate.Database.SweepReceipts | src/service/migrations.rs:655-692 | The receipts stage runs the sweep over the keys of the table, cut off anywhere, and leaves what the convergence theorem allows. |
| Server.StoppingHasOneOwner | src/core/server.rs:86-112 | For any interleaving of any calls with any signal failures, at most one call owns `stopping`, which is set exactly while one does; at most one call succeeds. |
| Server.FlagsWhenAllReturned | src/core/server.rs:86-112 | Once all calls returned, `restarting` is set if and only if a restart succeeded, `stopping` if and only if some call did, and the first implies the second. |
| Server.SuccessIsFinal | src/core/server.rs:86-112 | Nothing that happens later undoes a success: its flags stay set. |
| Server.AloneIsTheMethod | src/core/server.rs:86-104 | The atomic steps of one call, run without interruption, do what the method does. |
| Server.Flags.Shutdown | src/core/server.rs:96-104 | It succeeds exactly when nothing was stopping and the signal was sent; a failure leaves no trace. |
| Server.Flags.Restart | src/core/server.rs:86-94 | It succeeds exactly when nothing was restarting or stopping and the signal was sent; a failure leaves both flags as they were. |
| Manager.OneWorkerEach | src/service/manager.rs:45-161 | In every run each service has at most one worker in the join set, and every worker belongs to a registered service. |
| Manager.RespawnAfterPanicOnly | src/service/manager.rs:119-143 | A worker is respawned only right after it was joined with a panic and the server was seen running before and after the delay. |
| Manager.RespawnAfterPanic | src/service/manager.rs:119-143 | A worker that panicked is respawned, as the next thing that happens, whenever the server was seen running before and after the delay. |
| Manager.SpawnedIsLivePlusJoined | src/service/manager.rs:83-161 | For every set of services, workers spawned are workers in the join set plus workers joined. |
| Manager.EmptyOnlyAfterStart | src/service/manager.rs:45-97 | Unless start fails, the loop looks at the join set only after every service was started; it returns Ok only with no worker left. |
| Manager.EveryFateIsKnown | src/service/manager.rs:83-143 | No outcome is dropped: the log, the join set and the loop agree on every service, and after a successful start and an Ok of the loop each service finished or faulted while the server was stopping. |
| Manager.FateMeans | src/service/manager.rs:83-143 | The fate of a service by the last event about it and the checks since: alive once spawned, finished once it returned; after a fault the first check decides whether it is ignored, fatal or restarting, and a later check that fails makes a panic fatal. |
| Manager.NeverMeans | src/service/manager.rs:83-143 | A service was never started if and only if the log has no event about it. |
| Manager.ErrorHasOneCause | src/service/manager.rs:119-143 | The loop returns an error if and only if a service failed while the server ran or could not be restarted after a panic, and that service is unique. |
| Manager.LeftBehind | src/service/manager.rs:83-97 | Once the loop returned, a service has a worker in the join set if and only if it is alive by the log, spawned once more than joined, and that stays so: no worker that is left is ever joined or restarted. |
| Manager.NoneLeftBehind | src/service/manager.rs:119-143 | When the loop returned an error, the join set is empty if and only if every service but the one that stopped it finished, faulted while the server was stopping, or was never started. |
| Manager.StopDuringDelay | src/service/manager.rs:138-156 | A run in which the server stops during the delay before a restart: the loop returns an error while the worker of another service is in the join set, still running. |
| Manager.Supervisor.StartWorker | src/service/manager.rs:145-161 | The worker is spawned if and only if the server runs. |
| Manager.Supervisor.Start | src/service/manager.rs:45-72 | The start loop is the corresponding sequence of steps, whatever workers end while it holds the lock; it succeeds if and only if the server ran at every check. |
| Manager.Supervisor.HandleError | src/service/manager.rs:119-143 | A fault is ignored, fatal or followed by a restart exactly as the steps of the machine say. |
| Manager.Supervisor.Turn | src/service/manager.rs:83-117 | One turn of the join loop is the corresponding sequence of steps. |
| Manager.Supervisor.Worker | src/service/manager.rs:83-97 | The join loop is the sequence of its turns, with workers ending in between, and goes on until it ends or no worker can be joined. |

## Left out

- Codec.PrefixIsExact: leading fields that are not delimited, which do not show where they end (`Codec.DelimitedIff`).
- Migrate.CutRunsConverge: bodies that call other services are functions of the tables they rewrite that change nothing when run again, also the repair of memberships, which rewrites the joined users.
- Migrate.TornRunsConvergeIff: once the repair of memberships, an abstract function of the table, has rewritten it, nothing is said of what a lost row changes there.
- Migrate.MarkerMeansDone: is about the three sweeps that are modelled in full; of the abstract bodies `Migrate.MarkerNeedsBody` says that they ran to their end.
- Migrate.Database.Migrate: does not model the media startup check or the warnings about forbidden names; the background rewrite of stored events runs beside it and is in `Unsigned`.
- Server.FlagsWhenAllReturned: models the build without dynamic modules, where reload fails at once.
- Manager.SpawnedIsLivePlusJoined: no task is aborted; the handler for aborts is unimplemented in the source.
- Paging.ForEachBatch: the table does not change between pages, key columns are not NULL, and text is ordered by code point rather than by a collation.
- Unsigned.ReplaceSurvivesIff: takes what the iterator of the sweep reads as a snapshot of the table at the start of the sweep.
- JSON and CBOR payloads of records, self-describing values and raw JSON maps are foreign formats.
- Nested sequences, tuples inside tuples and sequences as whole records are not read by the model; the deserializer does not support nesting either.
- 32-bit and 8-bit integers, which can be written and not read, and bounded writers that can overflow.
- Identifier types are strings; parsing them belongs to a library, and whether a string is an event id is a parameter of `Unsigned`.
- Machine-size counters: positions and counts are unbounded, where the source saturates.
- Errors and incomplete states of the storage engine, its thread pool and its caches; a scan reads a snapshot.
- Atomic operations are sequentially consistent, where the source uses weaker orderings.
- Delays, cancellation and waiting: `until_shutdown`, the restart delay, `poll` and `stop` of the supervisor.
- The repair of membership data (src/service/migrations.rs:530-611) as such: its two filters are the same, so what it should do cannot be told from the code.
- Table and column probing, and the readers that only map rows.
