# A verified model of the DemonWare-compatible server

This project models the parts of the server that keep state under concurrency, or that
two sides must agree on byte for byte, and proves what each of them is for.

**The bdBuffer codec** (`Bits`, `BdFormat`, `BdWriter`, `BdReader`, `BdRoundTrip`, `BdRefusals`,
`Utf8`, `Messages`, `RecordLists`, `MatchMaking`). The writer and the reader are classes with the
fields of the original: an output vector or an input, a pending byte, a bit offset that
stays in 1 to 8, a cached type tag. Both are specified by a sequence of bits, least
significant first: a write appends to `BdWriter.Stream`, a read consumes the front of
`BdReader.Src`, which also holds a peeked tag. On top of that, `Encode` and `Parse` are the format
as functions, and they undo each other at any bit position; `BdRefusals` says what stands on the
wire byte by byte and what is refused: other types, illegal tags, values cut off. Push messages, matchmaking
advertisements and the three requests that end in a list without a length are instances.

**The social long poll** (`Friends`, `Watch`, `LongPoll`, `WakeUps`, `Freshness`, `Reasons`,
`ActivityCalls`). The two friend tables and the revision, presence and tick state are classes; `LongPoll` interleaves
every operation in atomic steps, one per lock section or database call (the database is one
connection behind a mutex). Any number of operations run at once. The main theorem is that a
client whose revision still stands holds the current view, up to changes whose writer has not
bumped yet and friends who expired unswept. It needs one thing of the run, that a `set_activity`
which found nothing to change is harmless when it writes: its row is there, or its user is shown
online to nobody. Waking up needs nothing. `Reasons` is the other half: a bump is owed only for a
change, operations left to themselves bump exactly whom they should and end, and polls do not wake
each other.

**Keys and proofs** (`KeyStore`, `AuthProof`, `SignIn`, `Lsg`). The sixteen-slot ring is an
array; runs of calls with any clock readings are sequences of `Ask`. The issuer, the ticket,
the opaque proof and the login message are connected end to end. The ciphers are functions
given as parameters. Two things are assumed of the one that seals proofs: a key undoes itself
(`UndoesItself`), and, for the one proof and the keys tried on it, the first key under which the
magic number shows does not show something else (`Mistaken`). `OpensUnlessMistaken` says that
this is exactly what opening a proof depends on, and `HypothesesMet` gives a cipher and a run
with two valid keys for which everything assumed holds.

**The matchmaking registry** (`Orders`, `Sums`, `Registry`). Two maps that are inverse to each
other; searching and counting take the iteration order of the hash map as an argument, about
which nothing is known but that it lists every key once (`Orders.Enumerates`).

**Session lifecycle** (`Lifecycle`), **framing** (`Framing`), **recording uploads**
(`Recording`), **search patterns** (`LikeSearch`) and **group counts** (`Groups`).

Bytes are `bv8`, strings on the wire are byte sequences with a well-formedness predicate for
UTF-8, integers are unbounded with the ranges of their types stated where they matter
(`NumType.Holds`), and floats are carried as their bit patterns. Clock readings, random draws,
keys, seeds and iteration orders are parameters. Panics and error returns are result values.

Five findings about the code are stated as lemmas with concrete inputs, beside the exact
condition under which the promise holds:

- `ActivityCalls.StaleWhenCallsOverlap`: `set_activity` compares and writes in two database
  calls, so a `clear_activity` and a poll in between leave a friend with a stale view for good.
  Freshness is proved of all runs whose unchanged writes are harmless (`LongPoll.HarmlessWrite`:
  the row is there, or its user is shown online to nobody). `ActivityCalls.UnchangedWrite` says
  that a write leaves every current view current if and only if it is, and
  `ActivityCalls.OneAtATimeSuffices` how callers can see to it.
- `Groups.RetainedGroupForgotten`: `set_groups` filters the groups it leaves against the newly
  joined ones rather than against all it was given, so a group that is kept is counted down.
- `Groups.DuplicateForgetsAnother`: a session that stored a group twice counts it down twice when
  it leaves. `Groups.CountsRightExactly` says of every interleaving when the counts stay right;
  `KeptGroupsAreLost` and `DuplicatesTakeFromOthers` say it of single calls.
- `KeyStore.SixteenValidWhenTheClockGoesBack`: sixteen keys can be valid at once if the clock
  is set back after sixteen rotations. `KeyStore.ValidAtOnce` says exactly when.
- Strings with a NUL byte and blobs of 2^32 bytes or more are written but not read back
  (`BdRoundTrip.RoundTrip` is an if-and-only-if); the same holds of names in a ticket or proof.

Where comments and code disagree the code was followed: `key_store.rs` annotates its timeout of
14 minutes as "6 min". In `session.rs` the sums of slot counts are taken to wrap, as a release
build does, rather than to panic.

`hide` statements in the proofs only limit what the verifier looks at; they state nothing.

## Model

| member | source | states |
|---|---|---|
| `BdWriting.BdWriter.constructor` | libbitdemon/src/messaging/bd_writer.rs:27-35 | A writer starts aligned, in ByteMode, untyped, with nothing written. |
| `BdWriting.BdWriter.SetMode` | libbitdemon/src/messaging/bd_writer.rs:41-43 | Switching mode keeps the stream when no bits are pending. |
| `BdWriting.BdWriter.Flush` | libbitdemon/src/messaging/bd_writer.rs:53-62 | The pending bits come out as one byte filled up with zero bits, and the writer is aligned again. |
| `BdWriting.BdWriter.PutByte` | libbitdemon/src/messaging/bd_writer.rs:75-118 | One turn of the loop: up to eight bits join the stream at any offset, and the offset stays in 1 to 8. |
| `BdWriting.BdWriter.WriteBits` | libbitdemon/src/messaging/bd_writer.rs:64-121 | In BitMode exactly the low `count` bits of the buffer are appended in order; in ByteMode it fails and changes nothing. |
| `BdWriting.BdWriter.WriteBytes` | libbitdemon/src/messaging/bd_writer.rs:123-130 | Bytes are appended in either mode. |
| `BdWriting.BdWriter.WriteTypeCheckedBit` | libbitdemon/src/messaging/bd_writer.rs:132-144 | One bit tells the reader whether tags follow. |
| `BdWriting.BdWriter.WriteDataType` | libbitdemon/src/messaging/bd_writer.rs:146-154 | A tag is five bits in BitMode, a byte in ByteMode. |
| `BdWriting.BdWriter.WriteBool` | libbitdemon/src/messaging/bd_writer.rs:169-180 | A bool appends its encoding: a bit or a byte, after its tag if tagged. |
| `BdWriting.BdWriter.WriteNum` | libbitdemon/src/messaging/bd_writer.rs:182-310 | Every fixed-width number appends its tag and its little-endian bytes. |
| `BdWriting.BdWriter.WriteStr` | libbitdemon/src/messaging/bd_writer.rs:312-328 | A string appends its bytes and a NUL. |
| `BdWriting.BdWriter.WriteBlob` | libbitdemon/src/messaging/bd_writer.rs:520-536 | A blob appends its tag, its length as a (tagged) u32 and its bytes. |
| `BdReading.BdReader.constructor` | libbitdemon/src/messaging/bd_reader.rs:38-48 | A reader starts with the whole buffer unread and no tag cached. |
| `BdReading.BdReader.SetMode` | libbitdemon/src/messaging/bd_reader.rs:54-56 | Switching mode keeps what is left to read when aligned. |
| `BdReading.BdReader.NextByte` | libbitdemon/src/messaging/bd_reader.rs:79-121 | One turn of the loop: the next bits, up to eight, are taken across byte boundaries, or the input has ended. |
| `BdReading.BdReader.FillBits` | libbitdemon/src/messaging/bd_reader.rs:75-123 | The loop fills the buffer with exactly the next `count` bits, or fails having run out. |
| `BdReading.BdReader.ReadBits` | libbitdemon/src/messaging/bd_reader.rs:66-124 | Succeeds exactly when `count` bits remain, and then returns them and drops exactly them. |
| `BdReading.BdReader.RemainingBits` | libbitdemon/src/messaging/bd_reader.rs:269-281 | Is the number of bits not read yet. |
| `BdReading.BdReader.RemainingBytes` | libbitdemon/src/messaging/bd_reader.rs:257-267 | Is the number of bytes not read yet, in ByteMode only. |
| `BdReading.BdReader.ReadBytes` | libbitdemon/src/messaging/bd_reader.rs:126-137 | The next bytes at any bit offset. |
| `BdReading.BdReader.ReadTypeCheckedBit` | libbitdemon/src/messaging/bd_reader.rs:139-154 | The bit read decides whether tags are expected. |
| `BdReading.BdReader.ReadDataType` | libbitdemon/src/messaging/bd_reader.rs:156-170 | A cached tag is used up first; otherwise the next tag is read and checked. |
| `BdReading.BdReader.NextDataType` | libbitdemon/src/messaging/bd_reader.rs:172-185 | Peeking caches the tag for the next read. |
| `BdReading.BdReader.NextIs` | libbitdemon/src/messaging/bd_reader.rs:187-255 | Whether the next value has a type, left in place. |
| `BdReading.BdReader.ReadBool` | libbitdemon/src/messaging/bd_reader.rs:303-323 | Reads as the format's parser says, errors included. |
| `BdReading.BdReader.ReadNum` | libbitdemon/src/messaging/bd_reader.rs:325-543 | The same for every fixed-width number. |
| `BdReading.BdReader.ReadStr` | libbitdemon/src/messaging/bd_reader.rs:545-582 | The same for strings: to the NUL, or in ByteMode to the end; refused unless UTF-8. |
| `BdReading.BdReader.ReadBlob` | libbitdemon/src/messaging/bd_reader.rs:910-937 | The same for blobs. |
| `BdFormat.TagRoundTrip` | libbitdemon/src/messaging/bd_data_type.rs:48-93 | Every tag, array or not, is read back from its byte, and from no other byte. |
| `BdRoundTrip.RoundTrip` | libbitdemon/src/messaging/bd_reader.rs:303-582 | A typed value written at any bit position is read back with exactly what follows left, if and only if the format carries it (no NUL in a string, fewer than 2^32 bytes in a blob). |
| `BdRoundTrip.RoundTripAll` | libbitdemon/src/messaging/bd_writer.rs:169-328 | The same for any sequence of values, tagged or not, in either mode. |
| `BdRoundTrip.PeekIsInvisible` | libbitdemon/src/messaging/bd_reader.rs:172-185 | A successful peek never changes what later reads and peeks return. |
| `BdRefusals.NumByteAt` | libbitdemon/src/messaging/bd_writer.rs:182-310 | Byte i of a written number is its i-th digit to the base 256, of the two's complement if negative. |
| `BdRefusals.NumberRanges` | libbitdemon/src/messaging/bd_writer.rs:182-310 | The width and the range of each number type. |
| `BdRefusals.TagOnWire` | libbitdemon/src/messaging/bd_data_type.rs:5-46 | The code a value of each type is announced with, and that it comes first. |
| `BdRefusals.IllegalTags` | libbitdemon/src/messaging/bd_data_type.rs:70-84 | Which bytes are no tag. |
| `BdRefusals.TagDecides` | libbitdemon/src/messaging/bd_reader.rs:303-313 | Wherever a typed read starts, it fails with what reading the tag fails with, and refuses every tag but its own, arrays included. |
| `BdRefusals.WrongTypeRefused` | libbitdemon/src/messaging/bd_reader.rs:435-445 | A value of any other type is refused as unexpected, also after a peek. |
| `BdRefusals.CutOffRefused` | libbitdemon/src/messaging/bd_reader.rs:66-137 | A value cut off at any bit is an unexpected end, never another value; all but ByteMode strings. |
| `BdRefusals.UnterminatedLosesLast` | libbitdemon/src/messaging/bd_reader.rs:572-581 | The exception: a ByteMode string without its NUL loses its last byte instead. |
| `BdRefusals.NotUtf8Refused` | libbitdemon/src/messaging/bd_reader.rs:545-582 | A string that is not well-formed is refused in both modes. |
| `Utf8.Utf8Exactly` | libbitdemon/src/messaging/bd_reader.rs:570-581 | A string is well-formed if and only if it encodes some scalar values as section 3 of RFC 3629 says. |
| `Messages.FlushedBack` | libbitdemon/src/messaging/bd_writer.rs:53-62 | Values written after anything at any alignment and flushed are read back, leaving fewer than eight zero bits. |
| `Messages.ToResponse` | libbitdemon/src/lobby/response/push_message.rs:24-55 | A push message is a ByteMode type followed by a typed bit stream, flushed. |
| `Messages.PushMessageBack` | libbitdemon/src/lobby/response/push_message.rs:24-55 | All its fields are read back, if and only if the name has no NUL and the payload fits. |
| `Messages.PushMessageReads` | libbitdemon/src/lobby/response/push_message.rs:24-55 | What a client reads field by field: type 2, a set bit, 40, recipient, id, time, a false flag, sender, name, payload. |
| `RecordLists.ReadSend` | libbitdemon/src/lobby/messaging/handler.rs:57-80 | The send request is parsed as specified, a single recipient or a list to the end. |
| `RecordLists.ReadInfoReport` | libbitdemon/src/lobby/performance/handler.rs:55-77 | The loop over id and value pairs, with the remaining bits as measure. |
| `RecordLists.ReadPlayerReport` | libbitdemon/src/lobby/performance/handler.rs:79-91 | The loop over player ids. |
| `RecordLists.SendBack` | libbitdemon/src/lobby/messaging/handler.rs:66-74 | Any number of recipients written, then padded by a flush or followed by less than a record's 69 bits, comes back exactly. |
| `RecordLists.ReportsBack` | libbitdemon/src/lobby/performance/handler.rs:55-91 | So do any number of entries and of players. |
| `RecordLists.IdsEndAtOtherTag` | libbitdemon/src/lobby/messaging/handler.rs:66-74 | A list ends at a value of another type, which is left to be read. |
| `RecordLists.UntaggedListIsEmpty` | libbitdemon/src/messaging/bd_reader.rs:172-185 | Without tags such a list is always read as empty. |
| `MatchMaking.Serialize` | libbitdemon/src/lobby/matchmaking/session.rs:105-122 | An advertisement is three blobs, four slot counts and nine title fields. |
| `MatchMaking.Deserialize` | libbitdemon/src/lobby/matchmaking/session.rs:45-80 | Reads them back, refusing blobs of other lengths before the numbers are read. |
| `MatchMaking.InfoBack` | libbitdemon/src/lobby/matchmaking/session.rs:45-122 | What was written is read back if and only if the blobs have 37, 8 and 16 bytes; otherwise it is malformed. |
| `MatchMaking.InfoOnWire` | libbitdemon/src/lobby/matchmaking/session.rs:105-122 | Which value on the wire is which field. |
| `MatchMaking.LengthsComeFirst` | libbitdemon/src/lobby/matchmaking/session.rs:45-57 | Blobs of other lengths are malformed whatever follows them, in any mode. |
| `Friends.FriendDb.RequestFriend` | dw-server/src/social/friends.rs:207-239 | A request records a row, or completes a request the other way; asking oneself is refused. |
| `Friends.FriendDb.AcceptFriend` | dw-server/src/social/friends.rs:241-259 | Accepting needs the request to be there. |
| `Friends.FriendDb.AcceptLocked` | dw-server/src/social/friends.rs:261-288 | Both request rows go and both friend rows come. |
| `Friends.FriendDb.RemoveFriend` | dw-server/src/social/friends.rs:290-305 | All four rows between two users go. |
| `Friends.GraphKeptByRuns` | dw-server/src/social/friends.rs:207-305 | Every run keeps friendship symmetric and irreflexive, and requests free of self-loops and of opposite pairs. |
| `Friends.WatchingIsShowing` | dw-server/src/social/watch.rs:40-48 | After any run every listed friend is mutual, watching is symmetric, and u watches v exactly when v is shown to u. |
| `Friends.RequestAcceptRemove` | dw-server/src/social/friends.rs:207-305 | Asking makes no friends, answering does whichever way it is done, and one remove undoes it all. |
| `Friends.RepliesTell` | dw-server/src/social/friends.rs:207-305 | When each reply is given, and the rows that then are there or are not. |
| `Friends.OnlyBetween` | dw-server/src/social/friends.rs:207-305 | No operation touches a row of anybody else. |
| `Friends.FriendsAgreed` | dw-server/src/social/friends.rs:207-288 | In any run two users are friends only if one asked and the other answered later. |
| `Watch.WatchState.Increment` | dw-server/src/social/watch.rs:28-35 | Every user's revision goes up by the number of times it is named. |
| `Watch.WatchState.Touch` | dw-server/src/social/watch.rs:65-75 | Notes the moment, and says whether the user was not online before. |
| `Watch.WatchState.Sweep` | dw-server/src/social/watch.rs:77-92 | In any iteration order exactly the expired users are forgotten, each listed once. |
| `LongPoll.ListingFindsWatchers` | dw-server/src/social/watch.rs:40-56 | Undisturbed, the three listings bump exactly the watchers. |
| `Freshness.StepKeeps` | dw-server/src/social/watch.rs:28-96 | What a step must keep for the operations that did not move, and what it then keeps of the invariant. |
| `Freshness.ActStep` | dw-server/src/social/routes.rs:209-211 | A friend operation changes rows first and then owes both users a bump, and keeps the invariant. |
| `Freshness.ActivitySteps` | dw-server/src/social/activity.rs:7-37 | Writing or deleting an activity keeps the invariant, unless a write that was found to change nothing is not harmless any more. |
| `Freshness.ListFriendsStep` | dw-server/src/social/watch.rs:40-56 | Looking up the friends turns a debt for one user into a debt to each of its friends. |
| `Freshness.BumpingStep` | dw-server/src/social/watch.rs:28-35 | A bump pays by moving every named revision, and owes a tick. |
| `Freshness.NextKeeps` | dw-server/src/social/routes.rs:500-545 | Every step of every operation, poll included, keeps the invariant, with that one exception. |
| `Reasons.PresenceDebts` | dw-server/src/social/watch.rs:65-92 | A user whose presence is settled stays so unless, and only unless, it comes online, its activity goes, or an activity that was found to differ is written. |
| `Reasons.RowDebts` | dw-server/src/social/routes.rs:209-211 | An operation that changes the data owes a user a bump if and only if one was owed before or it is a friend operation that succeeds and names the user. |
| `Reasons.OnlineTouchIsSilent` | dw-server/src/social/watch.rs:65-75 | Being seen while online owes nobody anything and bumps nobody. |
| `Reasons.SetActivityAlone` | dw-server/src/social/activity.rs:7-27 | Undisturbed, set_activity stores its connection, and bumps exactly if that is a change. |
| `Reasons.BumpAlone` | dw-server/src/social/watch.rs:28-38 | A bump moves each revision by the times it names its user, and ticks once. |
| `Reasons.SweepFindsTheGone` | dw-server/src/social/watch.rs:77-92 | A sweep forgets exactly who was not seen for 45 seconds, and owes their watchers. |
| `Reasons.ActAlone` | dw-server/src/social/routes.rs:209-211 | A friend operation left to itself changes the rows, moves its two users' revisions by one each and ticks once; a refused one does nothing. |
| `Reasons.ArrivalAlone` | dw-server/src/social/watch.rs:40-75 | An arrival left to itself moves each watcher's revision by one and no other. |
| `Reasons.SweepEnds` | dw-server/src/social/watch.rs:93-96 | A sweep left to itself ends, each revision up by the number of users gone that its user watches. |
| `Reasons.PollsDoNotWakeEachOther` | dw-server/src/social/routes.rs:500-514 | In any run of polls of online users, failing or unchanging operations and empty sweeps, no revision and no tick moves. |
| `Reasons.ViewShows` | dw-server/src/social/routes.rs:489-530 | What a view shows of a user, in terms of the rows, the 45 seconds and the activities. |
| `Reasons.PollStarts` | dw-server/src/social/watch.rs:111-131 | A poll with another revision goes on at once, one with the present one waits, one whose time is up reads it again. |
| `Reasons.PollAnswers` | dw-server/src/social/routes.rs:512-530 | A poll left to itself answers with the view as it is, and changes nothing. |
| `Freshness.LongPollFresh` | dw-server/src/social/routes.rs:512-522 | After any interleaving whose unchanged writes are harmless, a client whose revision is its user's present one holds the present rows unless the user is owed a bump, and the present presence of every friend that is not owed for and has not expired unswept; if that is all of them, its view is the present one. |
| `WakeUps.NeverAhead` | dw-server/src/social/watch.rs:111-131 | In any run no client ever holds a revision ahead of its user's. |
| `WakeUps.NoLostWakeUp` | dw-server/src/social/watch.rs:111-131 | In any run a poll parked although the revision moved has an unseen tick, or a bumper naming its user stands before its tick. |
| `WakeUps.WakeUpDelivers` | dw-server/src/social/watch.rs:118-131 | Either way it gets to go on, and then leaves the wait with the new revision; woken for others, it parks again. |
| `WakeUps.AtRestNobodyWaitsInVain` | dw-server/src/social/watch.rs:28-131 | In any run, once no writer is under way and every poll is answered or blocked, a waiting client's revision is the present one. |
| `Freshness.AtRestEverybodyIsCurrent` | dw-server/src/social/routes.rs:500-545 | And, if unchanged writes were harmless and nobody has expired unswept, every client answered with the present revision holds the present view. |
| `WakeUps.RevisionCountsBumps` | dw-server/src/social/watch.rs:19-38 | In every run a revision is where it began, the epoch if new, plus the number of times a bump named its user. |
| `ActivityCalls.UnchangedWrite` | dw-server/src/social/activity.rs:7-24 | In any state a write found to change nothing bumps and owes nobody, and leaves every current view current if and only if it is harmless: its row is there, or the user is shown online to nobody. |
| `ActivityCalls.LateWriteIsStale` | dw-server/src/social/activity.rs:7-24 | In any state such a write on a missing row makes every current view that shows its user online wrong, under a revision that stands, and adds no debt. |
| `ActivityCalls.OneAtATimeSuffices` | dw-server/src/social/activity.rs:7-37 | If no activity is deleted while a call that found it unchanged is about to write, all unchanged writes are harmless. |
| `ActivityCalls.StaleWhenCallsOverlap` | dw-server/src/social/activity.rs:7-37 | A run in which a clear and a poll fall between the compare and the write of set_activity ends in a stale view with nothing owed. |
| `KeyStore.InMemoryKeyStore.constructor` | libbitdemon/src/auth/key_store.rs:72-79 | Sixteen empty slots, the first one current. |
| `KeyStore.InMemoryKeyStore.GetCurrentKey` | libbitdemon/src/auth/key_store.rs:88-118 | The current key if it has fourteen minutes left; otherwise the next slot is overwritten with a new one. |
| `KeyStore.InMemoryKeyStore.GetValidKeys` | libbitdemon/src/auth/key_store.rs:120-130 | The keys not expired, in slot order. |
| `KeyStore.ValidKeysAre` | libbitdemon/src/auth/key_store.rs:120-130 | A key is handed out exactly if some slot holds it unexpired. |
| `KeyStore.AskedKeeps` | libbitdemon/src/auth/key_store.rs:88-118 | Whatever the clock reads after the epoch, successive keys stay at least 61 seconds of validity apart. |
| `KeyStore.RotationIsSafe` | libbitdemon/src/auth/key_store.rs:52-59 | In every reachable ring a rotation overwrites only an expired key, by more than 75 seconds if it was ever used, and the key handed out has 840 seconds left and is among the valid ones. |
| `KeyStore.ValidAtOnce` | libbitdemon/src/auth/key_store.rs:52-59 | At most fifteen keys are valid at once if and only if the oldest has expired, which it has unless the clock went back behind the last rotation. |
| `KeyStore.SixteenValidWhenTheClockGoesBack` | libbitdemon/src/auth/key_store.rs:88-130 | A run after which sixteen keys are valid at once. |
| `KeyStore.KeyStays` | libbitdemon/src/auth/key_store.rs:88-118 | A key stays in the ring through any calls whose clock readings are within its validity. |
| `AuthProof.TitleRoundTrip` | libbitdemon/src/domain/title.rs:3-11 | Seven numbers name the titles, each its own. |
| `AuthProof.Serialize` | libbitdemon/src/auth/auth_proof.rs:34-65 | The padded layout under the current key; a name that overruns is where the original panics. |
| `AuthProof.Deserialize` | libbitdemon/src/auth/auth_proof.rs:67-115 | The fields under the first valid key that shows the magic number. |
| `AuthProof.FieldsBack` | libbitdemon/src/auth/auth_proof.rs:34-115 | The 128 bytes give back exactly the fields, if and only if the name has no NUL byte. |
| `AuthProof.HeaderAt` | libbitdemon/src/auth/auth_proof.rs:34-65 | Where each field stands in the 128 bytes. |
| `AuthProof.OpensFirstShown` | libbitdemon/src/auth/auth_proof.rs:71-82 | For any bytes and keys: what opens is what the first key to show the magic number shows, and without one nothing does. |
| `AuthProof.OpensUnlessMistaken` | libbitdemon/src/auth/auth_proof.rs:71-82 | With its own key among those tried, a proof opens to itself if and only if no key listed before shows the magic number on something else. |
| `AuthProof.OpensUnderItsKey` | libbitdemon/src/auth/auth_proof.rs:71-82 | If no other of these keys shows the magic number on this proof, it opens if and only if its own key is there, and then to itself. |
| `SignIn.SerializeTicket` | libbitdemon/src/auth/result/auth_ticket.rs:39-68 | The ticket's bytes through a writer, or a refusal after the first fields. |
| `SignIn.TicketOf` | dw-server/src/auth/mod.rs:61-77 | A ticket is 128 bytes if and only if its name has at most 64. |
| `SignIn.TicketBack` | libbitdemon/src/auth/result/auth_ticket.rs:39-68 | All fields are at their places, if and only if the name has no NUL byte. |
| `SignIn.TicketAt` | libbitdemon/src/auth/result/auth_ticket.rs:39-68 | Where each field stands in a ticket. |
| `SignIn.HandleAuth` | dw-server/src/auth/mod.rs:112-160 | The issuing step: which requests are refused and why, that refusals leave the keys alone, and, for a name without a NUL, what the client reads in its ticket and the lobby in the opened proof: the title, user id, name and session key asked for, license 1, and the five minutes. |
| `SignIn.IssuedSays` | dw-server/src/auth/mod.rs:125-160 | Both halves of what is issued, read back by their readers. |
| `SignIn.IssuingKeyKept` | libbitdemon/src/auth/key_store.rs:88-130 | The key a proof was made with is valid at any time up to fourteen minutes later, whatever was issued in between. |
| `SignIn.Authenticate` | libbitdemon/src/lobby/lsg.rs:52-77 | The checks on a presented proof, in their order. |
| `SignIn.ProofEndToEnd` | dw-server/src/auth/mod.rs:125-160 | With a clock that does not run back, and unless a key listed before mistakes it, a proof issued at t gives back exactly what was issued, and admits its user if and only if it is presented for its own title by t + 300. |
| `SignIn.HypothesesMet` | libbitdemon/src/auth/key_store.rs:88-130 | A cipher and a run with two keys valid at once meet everything the end-to-end results assume. |
| `Lsg.HandleMessage` | libbitdemon/src/lobby/lsg.rs:47-94 | The login message: the title is checked before the rest is read, and only a login changes what the router reaches. |
| `Lsg.RefusedAtOnce` | libbitdemon/src/lobby/lsg.rs:47-58 | An unknown title is refused whatever follows; a known one without a whole proof cannot be read. |
| `Lsg.IssuedProofLogsIn` | libbitdemon/src/lobby/lsg.rs:47-94 | The same from the wire: unless mistaken, the issued proof logs exactly its user in, with the issued key, if and only if in time and for its title. |
| `Registry.AgreedMaps` | libbitdemon/src/lobby/matchmaking/session.rs:146-150 | Under the invariant every method keeps, the index and the sessions say the same, ids are unique, and the maps have equal size. |
| `Registry.SessionRegistry.constructor` | libbitdemon/src/lobby/matchmaking/session.rs:185-189 | An empty registry satisfies the invariant. |
| `Registry.SessionRegistry.Forget` | libbitdemon/src/lobby/matchmaking/session.rs:153-163 | Takes one connection's session and its index entry away together. |
| `Registry.SessionRegistry.Remember` | libbitdemon/src/lobby/matchmaking/session.rs:165-171 | Adds a session and its index entry together. |
| `Registry.SessionRegistry.Mint` | libbitdemon/src/lobby/matchmaking/session.rs:173-181 | The id drawn belongs to no session. |
| `Registry.SessionRegistry.Create` | libbitdemon/src/lobby/matchmaking/session.rs:191-206 | A new session under an id that is nobody else's and the new secret, not those advertised. |
| `Registry.SessionRegistry.Update` | libbitdemon/src/lobby/matchmaking/session.rs:208-228 | A session keeps its id and secret whatever is advertised; without one it is created. |
| `Registry.SessionRegistry.Delete` | libbitdemon/src/lobby/matchmaking/session.rs:230-242 | Removes exactly the caller's session, if and only if the id is its own. |
| `Registry.SessionRegistry.RemoveConnection` | libbitdemon/src/lobby/matchmaking/session.rs:244-246 | Removes a connection's session, if it has one. |
| `Registry.RunKeepsIdsUnique` | libbitdemon/src/lobby/matchmaking/session.rs:191-246 | Ids stay unique over every run. |
| `Registry.IdentityKept` | libbitdemon/src/lobby/matchmaking/session.rs:208-228 | From its creation to its end a session's id and secret never change, whatever any connection does. |
| `Registry.OthersUntouched` | libbitdemon/src/lobby/matchmaking/session.rs:191-246 | No operation changes or ends another connection's session. |
| `Registry.EndsForGood` | libbitdemon/src/lobby/matchmaking/session.rs:191-246 | Exactly the operations said to end a session remove it or give the connection a new one. |
| `Registry.AdvertisedIsLatest` | libbitdemon/src/lobby/matchmaking/session.rs:191-228 | Over any run, a session shows what its own connection advertised last. |
| `Registry.SessionRegistry.ListFor` | libbitdemon/src/lobby/matchmaking/session.rs:248-260 | In any iteration order: only other connections' matching sessions, no address twice, and exactly as many as the limit and the distinct matching addresses allow. |
| `Registry.AnswersMeet` | libbitdemon/src/lobby/matchmaking/session.rs:95-102 | Every answer is another connection's session whose title fields 1, 4 and 2 equal the filters 1, 2 and 4 and whose free slots reach filter 5, where these ask for anything; a positive limit is kept. |
| `Registry.NoneMissed` | libbitdemon/src/lobby/matchmaking/session.rs:248-260 | Unless a positive limit is used up, the address of every other session that meets the filters is among the answers. |
| `Registry.OnlyTheseFieldsCount` | libbitdemon/src/lobby/matchmaking/session.rs:95-102 | No other field changes what may be listed. |
| `Registry.SessionRegistry.Population` | libbitdemon/src/lobby/matchmaking/session.rs:262-276 | In any iteration order: the players are the sum over the sessions and over the playlists, and each listed playlist is positive and the sum of its own sessions. |
| `Registry.TalliesDetermine` | libbitdemon/src/lobby/matchmaking/session.rs:262-276 | Two counts of the same sessions are equal, however they were made. |
| `Registry.PlayersAreUsedSlots` | libbitdemon/src/lobby/matchmaking/session.rs:87-89 | A session's players are its used slots, negative ones none, and what comes of a sum that leaves the i32. |
| `Registry.PopulationIsUsedSlots` | libbitdemon/src/lobby/matchmaking/session.rs:87-89 | As long as each pair fits an i32, the count is the sum of the used slots, in all and on each playlist, which is the second title field read as a u32. |
| `Lifecycle.MessageRouter.Register` | libbitdemon/src/lobby/messaging/router.rs:28-46 | An authenticated session becomes its user's recipient; any other changes nothing. |
| `Lifecycle.MessageRouter.Unregister` | libbitdemon/src/lobby/messaging/router.rs:48-53 | Exactly the entries held by that session go. |
| `Lifecycle.MessageRouter.Deliver` | libbitdemon/src/lobby/messaging/router.rs:59-96 | A message is written to the recipient's connection under its key with a fresh id, used up even if nobody is there; it is delivered if and only if there is a recipient and the write succeeds. |
| `Lifecycle.SessionManager.RegisterSession` | libbitdemon/src/networking/session_manager.rs:28-31 | Ids count up. |
| `Lifecycle.RunKeepsLive` | libbitdemon/src/networking/bd_socket.rs:31-40 | Over every run of connections, logins and registry operations, each session id the router or the registry's sessions hold is live. |
| `Lifecycle.IndexHoldsLive` | libbitdemon/src/lobby/matchmaking/session.rs:146-150 | So is each in the registry's index, which has one entry for every session. |
| `Lifecycle.IdsNeverReused` | libbitdemon/src/networking/session_manager.rs:28-31 | No two connections of a run get the same id. |
| `Lifecycle.RouterHoldsTheLatest` | libbitdemon/src/lobby/messaging/router.rs:28-53 | The router reaches exactly the users whose latest registering session has not ended, through that session and key. |
| `Lifecycle.OnlineCountsReachable` | libbitdemon/src/lobby/messaging/router.rs:55-57 | `online` is the number of those users. |
| `Lifecycle.OldEndKeepsNew` | dw-server/src/lobby/mod.rs:67-82 | Ending an older session never drops a newer registration of the same user. |
| `Framing.ConnectionLoop` | libbitdemon/src/networking/bd_socket.rs:182-217 | Acts on exactly the frames in the stream, ends as the stream does, and answers four zero bytes for every ping, which read as that many pings. |
| `Framing.SplitExact` | libbitdemon/src/networking/bd_socket.rs:182-217 | For every stream and list of frames: the loop hands on these frames and ends cleanly if and only if the stream is their concatenation and each is sendable and handled. |
| `Framing.EndingTells` | libbitdemon/src/networking/bd_socket.rs:182-217 | Every stream is the frames acted on and a tail, and the ending says what the tail is: nothing, part of a header, a frame cut off, a length over 64 MiB, or a refused message. |
| `Framing.WireUnique` | libbitdemon/src/networking/bd_socket.rs:182-217 | No two lists of frames look the same on the wire. |
| `Framing.BdResponse.MakeFrame` | libbitdemon/src/messaging/bd_response.rs:55-84 | The frame around the data, encrypted or not, and what it leaves in the response. |
| `Framing.BdResponse.Send` | libbitdemon/src/messaging/bd_response.rs:32-42 | The session's key is used only if the response asks for it. |
| `Framing.LengthExact` | libbitdemon/src/messaging/bd_response.rs:67-79 | The length field is the number of bytes after it, if and only if that fits 32 bits. |
| `Framing.RepliesComeApart` | libbitdemon/src/messaging/bd_response.rs:55-84 | Any replies sent one after another come apart into exactly those. |
| `Framing.SealedOpens` | libbitdemon/src/messaging/bd_response.rs:60-73 | An encrypted reply opens to the signature, the data and fewer than eight zero bytes. |
| `Framing.ReplyReads` | libbitdemon/src/messaging/bd_response.rs:55-84 | A client learns from a reply whether it is encrypted, and gets its data, plain or opened and padded with fewer than eight zero bytes. |
| `Recording.Head.Feed` | dw-server/src/recording.rs:203-236 | The head holds the first eight bytes seen so far, and accepts while they continue the magic. |
| `Recording.Store` | dw-server/src/recording.rs:129-182 | However it is cut into chunks, a body is accepted if and only if it arrives whole, starts with the magic and is at most 512 MiB; each refusal has its reason. |
| `Recording.RecordingIs` | dw-server/src/recording.rs:16-17 | The eight magic bytes and the limit. |
| `LikeSearch.LikePattern` | dw-server/src/social/friends.rs:69-84 | The loop builds the escaped pattern. |
| `LikeSearch.EscapedMatches` | dw-server/src/social/friends.rs:69-84 | An escaped query matches itself and nothing else, whatever it is made of. |
| `LikeSearch.PatternMeansContains` | dw-server/src/social/friends.rs:69-84 | The pattern matches a name if and only if the query occurs in it, up to the matcher's case equivalence. |
| `LikeSearch.SearchFinds` | dw-server/src/social/friends.rs:86-97 | A blank query finds nobody, any other exactly the names that contain it. |
| `Groups.GroupService.GetGroupCounts` | dw-server/src/lobby/group/service.rs:17-35 | One count for each group asked for, zero if none is kept. |
| `Groups.GroupService.StoreGroups` | dw-server/src/lobby/group/service.rs:43-52 | The first lock section: what was held comes out, what is given goes in. |
| `Groups.GroupService.CountGroups` | dw-server/src/lobby/group/service.rs:54-81 | The filters and the second lock section, in any order of the sets. |
| `Groups.GroupService.LowerAll` | dw-server/src/lobby/group/service.rs:74-81 | Each naming counts one down, not below zero and not where there is no count. |
| `Groups.GroupService.DropGroups` | dw-server/src/lobby/group/service.rs:109-114 | A leaving session's groups come out as they were stored. |
| `Groups.CountStaysRight` | dw-server/src/lobby/group/service.rs:54-81 | Right counts stay right over a second lock section if and only if it is harmless: no group joined was held, and none left twice over has anybody else counted. |
| `Groups.CountsRightExactly` | dw-server/src/lobby/group/service.rs:37-132 | Of every interleaving of the lock sections: the counts are right at every point if and only if every second section is harmless. |
| `Groups.GroupCountsExact` | dw-server/src/lobby/group/service.rs:37-132 | In particular if calls name no group their session holds and no leaving session stored one twice: a count is the number of sessions counted for the group, no subtraction misses or saturates, and at rest it is the number that hold it. |
| `Groups.KeptGroupsAreLost` | dw-server/src/lobby/group/service.rs:54-64 | One undisturbed call leaves right counts right if and only if it names no group its session already holds. |
| `Groups.DuplicatesTakeFromOthers` | dw-server/src/lobby/group/service.rs:109-130 | One undisturbed departure leaves right counts right if and only if no group stored more than once has another holder. |
| `Groups.DuplicateForgetsAnother` | dw-server/src/lobby/group/service.rs:109-130 | A session that set a group twice over and leaves takes another holder's count along. |
| `Groups.RetainedGroupForgotten` | dw-server/src/lobby/group/service.rs:54-64 | Setting the one group a session holds again leaves its count at zero. |

## Left out

- Freshness.LongPollFresh: does not cover display names or invitations, because the first name of a user is recorded without a bump and invitations are taken destructively by whoever polls first.
- Freshness.NextKeeps: the two `touch` calls inside a poll are steps of their own that may fall anywhere, which allows more interleavings than the code has.
- Watch.WatchState.Increment: does not model the overflow of a u64 revision, and the wrapping tick is unbounded.
- The handlers around the social operations and the wait in `changed_since` are steps of the state machine, not methods with loops, because other operations run between any two of them.
- Friends.GraphKeptByRuns: does not model SQL errors; every statement succeeds.
- KeyStore.InMemoryKeyStore.GetCurrentKey: does not model the overflow of i64 clock arithmetic.
- SignIn.ProofEndToEnd: assumes that no key tried before the proof's own shows the magic number on it by accident, which random keys make overwhelmingly unlikely in any one run but cannot exclude.
- Registry.SessionRegistry.Mint: takes its random draws as an argument and assumes that one of them is free, so the probability of termination is not modelled.
- Registry.SessionRegistry.Population: does not model the overflow of the usize totals.
- Lifecycle.SessionManager.RegisterSession: does not model the overflow of the id counter; the other unregistration callbacks (groups, rich presence) are not steps of the lifecycle.
- Framing.ConnectionLoop: the message handler is a function of the message alone, and socket errors and timeouts other than the end of the stream are not modelled; neither is the sniffing mode.
- Recording.Store: the uploaded content is kept as it is; the zstd encoder, the zstd path of the head check and the file system are not modelled.
- LikeSearch.SearchFinds: does not model the ordering and the limit of 64 rows, nor SQLite's own limits on patterns.
- Arrays in the codec: ByteMode-only sequences of the numbers modelled here, with a tag and a count in front; they would only add easy members.
- The methods of the writer and the reader for each integer and float width are one method with the type as an argument.
- The bodies of the bit loops are methods of their own (`PutByte`, `NextByte`, `FillByte`), as are the bodies of the longer loops over sessions.
- Steam-issued proofs: their lifetime exceeds that of any key, so the end-to-end promise is about `handle_auth` alone.
- Parsing of the identity header, of JSON and of recording metadata; sanitizing of names.
- The message authentication code of incoming encrypted messages and how the initial vector is made from its seed.
- Profile, storage, content streaming, counter, league, rich presence and the other lobby services: dispatch and single queries.
- Sockets, threads, routing, logging and configuration.
