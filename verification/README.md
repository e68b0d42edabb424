# HAMMER2 message library and kernel crypto: a verified model

Two parts of the OpenBSD port of HAMMER2 are modelled in Dafny and their central promises proved:
the DMSG message library (`lib/libdmsg/msg.c`) and the kernel's crypto code (`sys/crypto`).
`dafny verify dfyconfig.toml` checks everything.

**Transactions** (`DmsgState`, `DmsgRefs`, `DmsgRuns`, `DmsgHandlers`, `DmsgFailure`).  A value of type `Lib` is all that
the transaction code keeps: allocated structures, the two index trees and the queues.  Each routine is
a function on such values with three outcomes: it runs through, it throws a message away with an
error, or an assertion of the source fires.  The reference counts are proved exact along every run,
on any number of connections, with stacked and relayed transactions.  After a link error the
transactions of a connection are proved to wind down leaf by leaf, while the application goes on.

**Two ends** (`DmsgStream`, `DmsgPeers`, `DmsgProtocol`).  Two such libraries are joined by ordered links.
The relation between what one end keeps for an id, what the other keeps and what is on the way is
proved to survive every step, so nothing is ever received out of turn, although transactions are
stacked on one another and ids are reused.  It takes no more than that nothing goes out under a parent
closed for transmission, as in `dmsg_msg_write`, and that a parent is started before its children.

**In place** (`DmsgLibrary`).  The same routines as methods that update fields and maps in the order
the source does.  Each asks only what a caller can know and keeps the counts, queues, trees and the
forest exact; a sequence of them carries out the runs above.

**Framing** (`DmsgWire`, `DmsgSender`, `DmsgReader`, `DmsgTransport`).  Sealing, scatter lists, partial
writes, the receive buffer with its four indices, and partial reads; every interleaving delivers the
messages handed over, in order.

**Crypto**.  `Iovec`, `Cbc` and `Cryptosoft`: CBC over scattered buffers.  `Hmac`: keyed hashes over them.
`KeyWrap`, `Cmac`, `Xts`, `Blowfish`, `Des`: modes and ciphers for arbitrary keys and tables.
`Sha2Spec`, `Sha2Words`, `Sha2`: the SHA-2 family over messages in pieces.  `Field`, `Ghash`: the
multiplication in GF(2^128) and GHASH.  `IdGen`: the id generator.  `Drivers`: the table of crypto
drivers.  `Bytes`, `Binary`, `Blocks`, `Slices` and `Options` hold what they share.

Ciphers are arbitrary pairs of inverse functions, hashes and checksums arbitrary functions: the
results hold for all of them.  Clocks, random numbers, sockets, allocation failure and the answers of
drivers and handlers are parameters.

Six promises turned out not to hold as stated, and are proved in the exact form in which they do.

- `dmsg_state_msgrx` looks a message with CREATE and REVTRANS up in one tree and enters the transaction in
  the other.  `DmsgRefs.MsgRxKeeps` gives the condition under which the trees stay exact,
  `DmsgRefs.CollisionLoses` what every other such message does, `DmsgRefs.CollisionExample` a pair of messages.
- `dmsg_iocom_core` cleans up after every accepted message, but `dmsg_state_msgrx` does not check the REPLY flag of
  a DELETE or whether reception is closed.  `DmsgHandlers.SafeIffInTurn` gives the condition under which no handler
  can make the clean-up fail, `DmsgHandlers.WrongReplyExample` and `DmsgHandlers.SecondDeleteExample` two messages.
- `dmsg_ioq_read` aligns the size of the data in 32 bits, so the largest sizes become zero and pass its checks
  without any data.  `DmsgReader.ChecksSeal` gives the condition under which what is delivered is what a sender
  can have sealed, `DmsgReader.WrappedSizePasses` all other sizes, `DmsgReader.WrappedSizeExample` a header.
- Each call of `crypto_register` sets the session count of the driver to zero.  `Drivers.RegisteredKeeps` gives
  the condition under which the count stays right and `Drivers.RegisteringTwiceLosesCount` a run where it
  does not.
- `crypto_freesession` counts down for any id that names the driver.  `Drivers.ClosedKeeps` gives the condition
  and `Drivers.FreeingTwiceLosesCount` all cases of one session freed twice while another is open.
- The `Update` functions that `swcr_authcompute` passes to `cuio_apply` take a 16-bit length.
  `Hmac.UpdateAllExact` gives the condition under which nothing is lost and `Hmac.LongFragmentIsLost` a buffer
  where all is.

## Model

| member | source | states |
|---|---|---|
| `DmsgRefs.HoldKeeps` | lib/libdmsg/msg.c:2424-2428 | taking a reference to any allocated structure keeps the invariant, with one more reference in the hands of the running code |
| `DmsgRefs.DropKeeps` | lib/libdmsg/msg.c:2430-2454 | giving up a held reference never trips an assertion of `dmsg_state_free`, keeps the invariant, and frees the structure if and only if it is in no tree, has no children and no relay users, and the running code holds no other reference to it |
| `DmsgRefs.EnterKeeps` | lib/libdmsg/msg.c:337-365 | inserting a new structure under any parent keeps the invariant of every structure: counts, queues, index entries |
| `DmsgRefs.RetireKeeps` | lib/libdmsg/msg.c:2324-2349 | taking an inserted transaction out of its tree and its parent's queue succeeds and leaves all counts exact |
| `DmsgRefs.RetireEffect` | lib/libdmsg/msg.c:2324-2349 | retiring changes no transaction but the one retired; others are touched at most in their counts |
| `DmsgRefs.OpenKeeps` | lib/libdmsg/msg.c:314-437 | allocating a message with CREATE keeps the invariant |
| `DmsgRefs.CleanupTxKeeps` | lib/libdmsg/msg.c:2368-2418 | `dmsg_state_cleanuptx` runs through on every transaction open for transmission and keeps the invariant; the transaction leaves its tree if and only if the message closes it and the other direction is closed |
| `DmsgRefs.CleanupRxKeeps` | lib/libdmsg/msg.c:2298-2361 | after whatever message, `dmsg_state_cleanuprx` trips no assertion and reads no freed structure if and only if the message closes nothing, or transmission is open, or the transaction is in its tree and the REPLY flag fits; then the invariant is kept, and the transaction leaves its tree if and only if both directions are closed |
| `DmsgRefs.WriteKeeps` | lib/libdmsg/msg.c:1541-1607 | `dmsg_msg_write` on any transaction that may transmit runs through and keeps the invariant |
| `DmsgRefs.WriteIsUpdate` | lib/libdmsg/msg.c:1541-1607 | what a write does to the library is one update of the transmit flags, and the message that goes out carries the header the allocation built |
| `DmsgRefs.MsgRxKeeps` | lib/libdmsg/msg.c:1956-2207 | whatever message arrives and is accepted, `dmsg_state_msgrx` keeps the invariant if and only if the message does not collide: it is not a CREATE with REVTRANS whose id is absent from the tree it is looked up in and present in the tree it is entered in |
| `DmsgRefs.CollisionLoses` | lib/libdmsg/msg.c:2003-2083 | after every colliding message the new transaction is marked as inserted and is in neither tree |
| `DmsgRefs.CollisionExample` | lib/libdmsg/msg.c:2003-2083 | concretely: the same id started twice, the second time with REVTRANS |
| `DmsgRefs.SeedRelayKeeps` | lib/libdmsg/msg_lnk.c:1055-1060 | seeding a relay pointer keeps the counts exact |
| `DmsgRefs.RelayOpenKeeps` | lib/libdmsg/msg.c:2238-2285 | opening the counterpart of a relayed sub-transaction and tying the two keeps the counts exact |
| `DmsgRuns.NeverFaults` | lib/libdmsg/msg.c:1541-1607 | in every state that satisfies the invariant, every operation of this end runs through without tripping an assertion; the clean-up after a message does if and only if the condition above holds |
| `DmsgRuns.StepSound` | lib/libdmsg/msg.c:314-437 | every operation that runs through keeps the invariant, on any number of connections |
| `DmsgRuns.StepForest` | lib/libdmsg/msg.c:337-365 | every operation keeps the transactions a forest under the roots |
| `DmsgRuns.RunKeeps` | lib/libdmsg/msg.c:1956-2207 | both hold along every run in which no message collides, by induction over arbitrary operation sequences |
| `DmsgRuns.RefsExact` | lib/libdmsg/msg.c:2051-2083 | in every reachable state `refs` is one if inserted (or root), plus the states with it as parent, plus the states with it as relay; it is in its parent's queue exactly while inserted, and indexed exactly while inserted |
| `DmsgRuns.FreedExactly` | lib/libdmsg/msg.c:2390-2454 | along every run a structure is gone if and only if it has no children, no relay users and no index entry |
| `DmsgRuns.AnswerMeans` | lib/libdmsg/msg.c:1818-1876 | an answer that is not the last leaves the transaction standing, begun and open for transmission; the last one closes it for transmission and changes nothing else, or, if reception was closed, ends it and no other |
| `DmsgRuns.StartMeans` | lib/libdmsg/msg.c:1541-1607 | the same for the first message of a transaction |
| `DmsgRefs.WithoutKeepsOrder` | lib/libdmsg/msg.c:2338-2340 | the others of a queue keep their order when one is taken out |
| `DmsgHandlers.RunSits` | lib/libdmsg/msg.c:610-617 | a transaction open for reception stays so whatever the handler and everything else does, as long as nothing else closes its reception |
| `DmsgHandlers.SafeIffInTurn` | lib/libdmsg/msg.c:610-617 | for every DELETE on an open transaction that this end has closed or may answer, and for every other message on one that nothing else keeps: the clean-up is safe for all handlers if and only if reception was not closed before and a DELETE has the REPLY flag of its direction |
| `DmsgHandlers.InTurnIsSafe` | lib/libdmsg/msg.c:610-617 | on every transaction, that condition is enough |
| `DmsgHandlers.AcceptedStands` | lib/libdmsg/msg.c:1956-2207 | an accepted message is tied to a root or to a transaction in its tree, and one with CREATE always meets that condition |
| `DmsgHandlers.CleanedAfterHandler` | lib/libdmsg/msg.c:610-617 | whatever message that meets it is accepted, and whatever its handler and everything else does, the clean-up runs through and keeps the invariant |
| `DmsgHandlers.WrongReplyExample` | lib/libdmsg/msg.c:2324-2334 | concretely: a DELETE with the wrong REPLY flag on a transaction closed for transmission is accepted and trips the assertion |
| `DmsgHandlers.SecondDeleteExample` | lib/libdmsg/msg.c:2303-2304 | concretely: a second DELETE that is answered is accepted, and the clean-up reads the freed structure |
| `DmsgFailure.PickVictim` | lib/libdmsg/msg.c:1130-1141 | the scan over both trees returns a transaction without children, or nothing only if every transaction of the connection has children |
| `DmsgFailure.LeafExists` | lib/libdmsg/msg.c:1130-1141 | a connection with an open transaction has one without children |
| `DmsgFailure.NoVictimNoTransaction` | lib/libdmsg/msg.c:1142-1146 | if the scan finds nothing, both trees are empty of this connection's transactions |
| `DmsgFailure.MadeUpIsForIt` | lib/libdmsg/msg.c:1640-1695 | the made-up message names the transaction and its circuit as the other end would: received, it is tied to that transaction if and only if the circuit is open, has an id other than 0 or is the connection, and reception of a remote transaction has begun; nothing but the start of reception is marked |
| `DmsgFailure.WindDown` | lib/libdmsg/msg.c:1127-1149 | however the calls of the reader interleave with all that the application does after a link error, on this connection and others (late and non-closing answers, new transactions, relays aimed here): nothing asserts, no transaction gets a second simulated DELETE, no more are made up than there were transactions and were opened since, and the end is reported only with both trees empty of the connection |
| `DmsgFailure.FailureAfterAnyRun` | lib/libdmsg/msg.c:1127-1149 | the same from the state after any run of operations on any number of connections in which nothing on the failed one is left to send under a parent closed for transmission |
| `DmsgFailure.ActStep` | lib/libdmsg/msg.c:1127-1149 | one operation of the application, on any connection, keeps the wind-down intact and adds at most the transaction it opens; a message that is thrown away elsewhere changes nothing |
| `DmsgFailure.Drains` | lib/libdmsg/msg.c:1614-1704 | if every handler answers DELETE with DELETE, `k` calls on `n` open transactions leave exactly `n - k`, and the end is reported exactly at call `n + 1` |
| `DmsgFailure.DrainsMeanwhile` | lib/libdmsg/msg.c:1614-1704 | the same with anything in between: open and simulated transactions balance exactly against those opened, every call closes one or reports the end, and after more calls than transactions the end has been reported |
| `DmsgStream.CommandReceived` | lib/libdmsg/msg.c:1992-2083 | for every agreed id: the next message of its initiator, if it starts a transaction, finds the id closed at the receiver, and otherwise, like every message on the id as a circuit, finds it open in the same use; the id stays agreed |
| `DmsgStream.ReplyReceived` | lib/libdmsg/msg.c:2086-2207 | the same for the next message of the other end |
| `DmsgStream.QuietMeansEqual` | lib/libdmsg/msg.c:2298-2418 | an agreed id with nothing on the way is open at both ends or at neither, closed to the same extent |
| `DmsgPeers.OpenView` | lib/libdmsg/msg.c:337-365 | allocating a transaction under any other changes what this end keeps for the new id and nothing else |
| `DmsgPeers.WriteView` | lib/libdmsg/msg.c:1541-1607 | a write changes what this end keeps for one id, as the flags of the message say; the message names the transaction and the one it is stacked under |
| `DmsgPeers.CleanupView` | lib/libdmsg/msg.c:2298-2361 | the clean-up after a handler changes what this end keeps for one id |
| `DmsgPeers.CreateView` | lib/libdmsg/msg.c:1992-2083 | the first message of a command opens a transaction under the circuit it names, provided the circuit is open and the id is closed here |
| `DmsgPeers.FoundView` | lib/libdmsg/msg.c:2086-2207 | any other message finds its transaction, stacked under the circuit the message names, and at most marks reception as begun |
| `DmsgProtocol.CircuitOpen` | lib/libdmsg/msg.c:1971-1990 | the circuit that the next message names is open at the receiver, and is the use of its id the sender meant |
| `DmsgProtocol.StepGood` | lib/libdmsg/msg.c:1956-2207 | every step either end can take runs through and keeps the relation between the two ends and the two links, for every id |
| `DmsgProtocol.AnswerSays` | lib/libdmsg/msg.c:1818-1876 | in every situation the two ends can be in, an answer puts one message on the link: with DELETE exactly if it is the last, with REPLY exactly if the other end started the transaction, with CREATE exactly if nothing had been sent, and with the circuit it is stacked under |
| `DmsgProtocol.StartSays` | lib/libdmsg/msg.c:1541-1607 | the first message of a transaction has CREATE, no REPLY, and DELETE exactly if it is the last |
| `DmsgProtocol.NothingGoesWrong` | lib/libdmsg/msg.c:1955-2207 | in every run of two ends over ordered lossless links, with transactions stacked to any depth, ABORT on any message of one, and ids reused as soon as they are free: no assertion fires, no received message lacks its circuit, is a duplicate, has no state or hits a reused state |
| `DmsgProtocol.CircuitsOutliveTheirMessages` | lib/libdmsg/msg.c:1971-1990 | in every run, the transaction that the next message is stacked under is still open where it arrives |
| `DmsgProtocol.StartedInOrder` | lib/libdmsg/msg.c:1971-1990 | in every situation the two ends can be in, whatever the receiver does first: once the messages before it are received and handled, the first message of a transaction is accepted if and only if the one it is stacked under has been started, and trips the assertion if and only if it has not |
| `DmsgProtocol.UnstartedCircuitFaults` | lib/libdmsg/msg.c:1971-1990 | concretely, on a connection just made |
| `DmsgProtocol.ClosedBeforeReuse` | lib/libdmsg/msg.c:1992-2050 | in every run, when a message with CREATE is about to be received its id is closed at the receiver |
| `DmsgProtocol.QuietEndsAgree` | lib/libdmsg/msg.c:2298-2418 | in every run, once nothing is on the way and no handler is running, the two ends hold the same transactions, closed to the same extent, and at top level at both ends or at neither |
| `DmsgLibrary.AllocatedIffReferenced` | lib/libdmsg/msg.c:2430-2454 | a structure that is no longer in its tree is still allocated if and only if another is stacked under it or relays to it |
| `DmsgLibrary.MsgRxOutcome` | lib/libdmsg/msg.c:1956-2207 | exactly which messages trip an assertion, which are thrown away, and what the accepted ones are tied to |
| `DmsgLibrary.Library.AddIocom` | lib/libdmsg/msg.c:139-200 | a new connection has a root without children; every other structure and both trees are as they were, and all counts stay exact |
| `DmsgLibrary.Library.HoldState` | lib/libdmsg/msg.c:2424-2428 | counts stay exact with one more reference in hand |
| `DmsgLibrary.Library.DropState` | lib/libdmsg/msg.c:2430-2454 | a caller that holds a reference can give it up: no assertion fires, the structure is freed exactly with its last reference, and counts stay exact |
| `DmsgLibrary.Library.Insert` | lib/libdmsg/msg.c:337-365 | the structure is last in the queue of its parent and found in its tree, the parent has one more reference, no other structure changes, and counts, trees and the forest stay exact |
| `DmsgLibrary.Library.AllocCreate` | lib/libdmsg/msg.c:314-437 | a new transaction stands under the given one, found under its address, with nothing sent or received |
| `DmsgLibrary.Library.RetireState` | lib/libdmsg/msg.c:2324-2349 | the transaction leaves its tree, no other changes but in counts and queue, and counts stay exact, in the order the source works |
| `DmsgLibrary.Library.CleanTransmit` | lib/libdmsg/msg.c:2368-2418 | on every transaction open for transmission: only its flags change, or, exactly if both directions are then closed, it alone leaves and is freed unless another is stacked under it or relays to it |
| `DmsgLibrary.Library.CleanReceive` | lib/libdmsg/msg.c:2298-2361 | after whatever message: exactly when an assertion fires or freed memory is read; otherwise only the flags change, or, exactly if both directions are then closed, the transaction alone leaves and is freed unless another is stacked under it or relays to it |
| `DmsgLibrary.Library.WriteMsg` | lib/libdmsg/msg.c:1541-1607 | on every transaction that may transmit: the message names it and its circuit as the receiver sees them, and the transaction is marked or closes as above |
| `DmsgLibrary.Library.ReceiveMsg` | lib/libdmsg/msg.c:1956-2207 | asserts exactly on a missing or different circuit, a duplicate, or a message without its state, throws away exactly the remaining stray ABORTs, and keeps the invariant if and only if the message does not collide |
| `DmsgLibrary.Library.Seed` | lib/libdmsg/msg_lnk.c:1055-1060 | the relay pointer is set, with its reference; nothing else changes |
| `DmsgLibrary.Library.RelayCreate` | lib/libdmsg/msg.c:2238-2285 | the counterpart stands under the relay of the parent, and the two relay to each other |
| `DmsgLibrary.Library.Perform` | lib/libdmsg/msg.c:314-2454 | each operation keeps the invariant and takes the step of the runs above, or is refused exactly as there; a message that is not the last leaves its transaction open for transmission, the last one closes it or ends it, and none is sent on one already closed |
| `DmsgLibrary.Library.PerformAll` | lib/libdmsg/msg.c:314-2454 | any sequence of operations, done in place, ends in the state of the run, with every invariant of the runs |
| `DmsgWire.GetSet` | sys/sys/dmsg.h:290-308 | a value that fits a header field reads back as written, for every field |
| `DmsgWire.BytesAt` | sys/sys/dmsg.h:290-308 | byte i of a field is the digit of weight 256^i: fields are little-endian |
| `DmsgWire.HdrBytesIs` | sys/sys/dmsg.h:290-308 | the size of the header is the byte at 0x20 in units of 64 |
| `DmsgWire.PopulateSeals` | lib/libdmsg/msg.c:1246-1310 | whatever message is queued, the header built for it passes every check of the reader under its number, and its data is unchanged |
| `DmsgWire.PopulateKeeps` | lib/libdmsg/msg.c:1246-1310 | every header byte outside magic, salt, aux_crc, aux_bytes and hdr_crc is as it was, the data and its size too, and aux_crc unless it was 0 with data present |
| `DmsgWire.PopulateWrites` | lib/libdmsg/msg.c:1246-1310 | the bytes written for the magic number, the message number, the random salt and the size of the data, at their offsets |
| `DmsgSender.PopulateAllSealed` | lib/libdmsg/msg.c:1246-1310 | the same for a queue of messages numbered in order |
| `DmsgSender.PopulateAllKeeps` | lib/libdmsg/msg.c:1246-1310 | each message of a queue comes out in its place with its own data and header bytes |
| `DmsgSender.BuildIov` | lib/libdmsg/msg.c:1343-1375 | the scatter list is a non-empty front of the unsent bytes, of at most 16 pieces |
| `DmsgSender.Sender.Queue` | lib/libdmsg/msg.c:1246-1310 | everything handed over is numbered, sealed and queued in order |
| `DmsgSender.Sender.Advance` | lib/libdmsg/msg.c:1438-1484 | after a write of any size exactly those bytes are off the queue, and fully written messages are released |
| `DmsgSender.Sender.Flush2` | lib/libdmsg/msg.c:1318-1500 | whatever the socket takes, what it got followed by what is unsent is what was unsent; the count of bytes not accounted for ends at zero |
| `DmsgReader.Reader.MakeRoom` | lib/libdmsg/msg.c:637-662 | the buffered bytes are kept, moved to the front exactly if they and half the room are too little, and there is room for the bytes asked for |
| `DmsgReader.Reader.Fill` | lib/libdmsg/msg.c:724-760 | a read of any size goes behind what is buffered; it is never issued with zero room |
| `DmsgReader.Reader.CheckCore` | lib/libdmsg/msg.c:778-836 | the error is SYNC exactly for a wrong magic number and FIELD for any other fault, and only on a stream that is not well-made |
| `DmsgReader.GoodCore` | lib/libdmsg/msg.c:778-836 | the core header of a well-made stream passes the magic and size checks and gives the sizes of its first message |
| `DmsgReader.GoodHeader` | lib/libdmsg/msg.c:880-931 | its extended header passes the crc and sequence checks |
| `DmsgReader.GoodData` | lib/libdmsg/msg.c:1030-1050 | its data passes the crc check, and what follows is the stream of the remaining messages |
| `DmsgReader.ChecksSeal` | lib/libdmsg/msg.c:778-1080 | conversely, a message that passed every check is one a sender can have sealed under that number if and only if its size is at most 0xFFFFFFC0, so that it can be aligned in 32 bits |
| `DmsgReader.WrappedSizePasses` | lib/libdmsg/msg.c:797-809 | for every larger size there is a header that passes every check with no data, from every message without data; nothing with that header can have been sealed |
| `DmsgReader.WrappedSizeExample` | lib/libdmsg/msg.c:797-809 | concretely, with the size 0xFFFFFFFF, as any message of any connection |
| `DmsgReader.Reader.StepHeader1` | lib/libdmsg/msg.c:717-836 | first phase: bytes are neither lost nor made up; an error other than end of file means the stream was not well-made |
| `DmsgReader.Reader.StepHeader2` | lib/libdmsg/msg.c:837-967 | second phase: likewise; in particular the assertion on a bad header crc is not reached on a well-made stream |
| `DmsgReader.Reader.StepData` | lib/libdmsg/msg.c:968-1052 | data phase: likewise |
| `DmsgReader.Reader.Deliver` | lib/libdmsg/msg.c:1060-1080 | a delivered message passed every check under the next number, is sealed if and only if its size can be aligned in 32 bits, and the stream shrinks by exactly its bytes |
| `DmsgReader.Reader.Next` | lib/libdmsg/msg.c:677-1080 | whatever the stream, a delivered message passed every check, and is one a sender can have sealed if and only if its size can be aligned in 32 bits; on the stream of given messages the first of them is delivered and no error is raised |
| `DmsgTransport.Connection.Transmit` | lib/libdmsg/msg.c:1246-1500 | one call of the flush routines moves all messages handed over to the queue and makes progress if the socket takes anything |
| `DmsgTransport.Connection.Receive` | lib/libdmsg/msg.c:677-1080 | one call of the reader delivers the next message or makes progress |
| `DmsgTransport.Connection.Run` | lib/libdmsg/msg.c:677-1500 | for every interleaving of hand-overs, partial writes and partial reads: message k delivered is message k handed over, equal in data, size and every header byte but those the sender fills in; what waits is what was handed over since the last flush |
| `DmsgTransport.Connection.Drain` | lib/libdmsg/msg.c:677-1500 | given time, everything handed over is delivered, exactly once and in order, each message equal to what was handed over in data, size and every header byte but those the sender fills in |
| `Iovec.Uio.GetPtr` | sys/crypto/criov.c:107-130 | the piece and offset of a position, for every split, empty pieces included; nothing exactly beyond the end |
| `Iovec.Uio.CopyData` | sys/crypto/criov.c:40-71 | copies exactly the range, or panics exactly if the buffer is too short |
| `Iovec.Uio.CopyBack` | sys/crypto/criov.c:73-105 | writes exactly the range and keeps the shape of the split; panics exactly if the buffer is too short |
| `Iovec.SpliceAt` | sys/crypto/criov.c:73-105 | writing into a piece is writing into the flat bytes |
| `Cbc.CbcRoundTrip` | sys/crypto/cryptosoft.c:280-412 | CBC decryption undoes encryption, for every inverse-pair block cipher |
| `Cbc.CbcRoundTripBack` | sys/crypto/cryptosoft.c:280-412 | and encryption undoes decryption |
| `Cbc.CryptIsCbc` | sys/crypto/cryptosoft.c:280-412 | the recursive form is the mode of section 6.2 of NIST SP 800-38A, block by block |
| `Cryptosoft.Walk.Across` | sys/crypto/cryptosoft.c:296-344 | a block that straddles pieces becomes the next CBC block of the flat bytes |
| `Cryptosoft.Walk.Inside` | sys/crypto/cryptosoft.c:357-396 | a block within a piece likewise, with the chaining block taken from where the swapped pointers lead |
| `Cryptosoft.Walk.Go` | sys/crypto/cryptosoft.c:292-408 | the loop ends and leaves the whole range processed, for every split of the buffer, or ends with EINVAL after whole blocks and panics within one |
| `Cryptosoft.SetIv` | sys/crypto/cryptosoft.c:124-145 | the initial value the request names, written to the buffer if asked for; what that means for the bytes is in the two rows below |
| `Cryptosoft.EncryptMeans` | sys/crypto/cryptosoft.c:124-145 | after encryption, with whichever initial value is asked for (the given one or the random one): it stands at `inject` unless it was present, the data is CBC under it, and every other byte is as it was |
| `Cryptosoft.DecryptMeans` | sys/crypto/cryptosoft.c:124-145 | after decryption with the given value or the one found at `inject`: what was there is the CBC form of what is there now, and every other byte is as it was |
| `Cryptosoft.EncDec` | sys/crypto/cryptosoft.c:100-412 | succeeds exactly if the data is whole blocks and the buffer holds the range and the initial value, and exactly when it fails with EINVAL; on success the two rows above hold, for every split of the buffer |
| `Cryptosoft.SplitsDoNotMatter` | sys/crypto/cryptosoft.c:280-412 | decrypting under any other split of the bytes restores the data |
| `Cryptosoft.CarriedIvRestores` | sys/crypto/cryptosoft.c:124-145 | an initial value written apart from the data travels with it: decrypting with what is found there, under any other split, restores the data and leaves nothing else changed but the initial value |
| `Hmac.Apply` | sys/crypto/criov.c:132-172 | the function is called on exactly the pieces of the range, or it panics exactly if the buffer is too short |
| `Hmac.FragmentsCover` | sys/crypto/criov.c:132-172 | the pieces together are the range |
| `Hmac.UpdateAllExact` | sys/crypto/cryptosoft.c:436-447 | the hash has absorbed the bytes of the pieces if and only if no piece has 65536 bytes or more |
| `Hmac.LongFragmentIsLost` | sys/crypto/cryptosoft.c:436-447 | concretely: a single piece of 65536 bytes is lost, and the tag is that of the empty text |
| `Hmac.FoldsCancel` | sys/crypto/cryptosoft.c:874-896 | the three in-place key loops leave the caller's key as it was |
| `Hmac.Session.constructor` | sys/crypto/cryptosoft.c:860-896 | both contexts have absorbed the padded keys of section 2 of RFC 2104 and the caller's key bytes are restored, for any key no longer than the block |
| `Hmac.Session.AuthCompute` | sys/crypto/cryptosoft.c:420-490 | for every split with pieces below 65536 bytes the tag is the truncated HMAC of section 2 of RFC 2104 over exactly the range; for any split it is that of the bytes the hash was given |
| `KeyWrap.StepUndone` | sys/crypto/key_wrap.c:58-74 | one shift-register step of section 2.2 of RFC 3394 is undone by the reverse step |
| `KeyWrap.WrapStep` | sys/crypto/key_wrap.c:58-74 | the indexed step of the code is one step of the shift register |
| `KeyWrap.Be64Value` | sys/crypto/key_wrap.c:66-67 | the eight bytes folded in are the step number, most significant byte first, for every 64-bit number |
| `KeyWrap.Wrap` | sys/crypto/key_wrap.c:45-76 | wraps in place, also when plaintext and ciphertext overlap, to the shift-register result, and touches no other byte |
| `KeyWrap.UnwrapStep` | sys/crypto/key_wrap.c:91-107 | the indexed step of unwrapping takes back one step of the shift register |
| `KeyWrap.Unwrap` | sys/crypto/key_wrap.c:78-112 | unwraps in place likewise, and reports failure exactly if A is not the fixed value at the end |
| `KeyWrap.UnwrapWrap` | sys/crypto/key_wrap.c:45-112 | unwrapping a wrapped key gives it back and succeeds, for every n and every inverse-pair cipher |
| `KeyWrap.AcceptsOnlyWrapped` | sys/crypto/key_wrap.c:78-112 | unwrapping succeeds on a ciphertext if and only if it is the wrapped form of something, namely of what is returned |
| `IdGen.PermutedIsBijection` | sys/crypto/idgen.c:84-103 | the Feistel permutation is a bijection of the 31-bit numbers for every round function, with its inverse given |
| `IdGen.Permute` | sys/crypto/idgen.c:84-103 | the loop computes it |
| `IdGen.PermutedIsFeistel` | sys/crypto/idgen.c:84-103 | the doubled-up rounds and the odd one are 31 rounds of one Feistel network, masking the right half and the left one in turn |
| `IdGen.MixIsSkipjack` | sys/crypto/idgen.c:67-82 | the round function is four byte-wise rounds, each entering the table with one more byte of the key |
| `IdGen.KeyLasts` | sys/crypto/idgen.c:105-135 | a key serves exactly while ten minutes have not passed and no more than 0x60000001 ids have been drawn; then all of the context is new and the top bit flips |
| `IdGen.OutputsDiffer` | sys/crypto/idgen.c:123-138 | two counter values within the rekey limit make two ids, for every offset and key |
| `IdGen.SecondTryIsNotZero` | sys/crypto/idgen.c:123-138 | for every context, with or without a rekey in between, two tries in a row do not both draw zero |
| `IdGen.Generator.Rekey` | sys/crypto/idgen.c:105-113 | starts a new key period with the top bit flipped and keeps the record of issued ids apart |
| `IdGen.Generator.Try` | sys/crypto/idgen.c:128-135 | one try: the context and the id it draws, which is apart from all ids of this and the previous period |
| `IdGen.Generator.Next` | sys/crypto/idgen.c:123-138 | never returns zero, tries at most twice, and returns an id that differs from every id issued in the same or the previous key period |
| `Sha2Words.Sha256IsLawful` | sys/crypto/sha2.c:131-157 | the 32-bit words of the code are an instance of the family the results are about |
| `Sha2Words.Sha512IsLawful` | sys/crypto/sha2.c:131-157 | so are the 64-bit words |
| `Sha2Words.Sha256IsStandard` | sys/crypto/sha2.c:131-157 | the shifts and masks of the code are the rotations, choice and majority of section 4.1.2 of FIPS 180-4, each in its place |
| `Sha2Words.Sha512IsStandard` | sys/crypto/sha2.c:131-157 | likewise for section 4.1.3 |
| `Sha2Words.Load64Order` | sys/crypto/sha2.c:673-676 | 64-bit words are read most significant byte first |
| `Sha2.Context.Turn` | sys/crypto/sha2.c:393-403 | the register moves of the code are one round of the standard |
| `Sha2.Context.Take` | sys/crypto/sha2.c:389-392 | a word of the block goes into the window even when the block is the window, and the words still to be read are intact |
| `Sha2.Context.Slide` | sys/crypto/sha2.c:408-417 | the sixteen-word circular window yields the next word of the full message schedule |
| `Sha2.Context.Transform` | sys/crypto/sha2.c:369-442 | computes the compression function of sections 6.2.2 and 6.4.2 of FIPS 180-4, also on a block that lies in the context's own buffer |
| `Sha2.Context.Count` | sys/crypto/sha2.c:115-126 | the bit count stays exact modulo 2^64, or 2^128 with the carry of ADDINC128 |
| `Sha2.Context.Update` | sys/crypto/sha2.c:446-489 | after any sequence of calls the context stands for the concatenation of the pieces |
| `Sha2.Context.PadFits` | sys/crypto/sha2.c:500-520 | padding that fits the last block |
| `Sha2.Context.PadSpills` | sys/crypto/sha2.c:504-516 | padding that needs a block of its own |
| `Sha2.Context.PadAlone` | sys/crypto/sha2.c:517-523 | padding of a message of whole blocks |
| `Sha2.Context.Final` | sys/crypto/sha2.c:491-553 | the digest is that of the concatenated message, padded as in section 5.1 of FIPS 180-4 |
| `Sha2Spec.SixteenDigits` | sys/crypto/sha2.c:797-799 | the two halves of the 128-bit count are its big-endian form |
| `Sha2Spec.DigitsValue` | sys/crypto/sha2.c:500-523 | a length that fits its field is read back, most significant byte first |
| `Sha2Spec.PadLong` | sys/crypto/sha2.c:770-800 | a message whose marker leaves no room for the length is hashed by two more blocks |
| `Field.TimesIsAdditive` | sys/crypto/gmac.c:34-68 | the block product is additive in each factor |
| `Field.TimesCommutes` | sys/crypto/gmac.c:34-68 | the block product is commutative |
| `Field.TimesAssociates` | sys/crypto/gmac.c:34-68 | the block product is associative |
| `Ghash.StepBits` | sys/crypto/gmac.c:57-62 | the four-word shift with reduction is one step to the right of section 6.3 of NIST SP 800-38D |
| `Ghash.Gfmul` | sys/crypto/gmac.c:34-68 | computes the bit-sum product of section 6.3, also over one of its factors |
| `Ghash.Context.Update` | sys/crypto/gmac.c:70-94 | folds any number of blocks into the state |
| `Ghash.Context.Feed` | sys/crypto/gmac.c:125-143 | hashes the data as if filled with zero bytes to whole blocks |
| `Ghash.FoldConcat` | sys/crypto/gmac.c:70-94 | hashing a concatenation of whole blocks is hashing one part after the other |
| `Ghash.FoldIsPolynomial` | sys/crypto/gmac.c:70-94 | hashing block by block evaluates the polynomial of section 6.4 in the hash key |
| `Cmac.DoubledIsShift` | sys/crypto/cmac.c:30-35 | the byte-wise shift and reduction is the shift of the 128-bit block in section 6.1 of NIST SP 800-38B |
| `Cmac.Double` | sys/crypto/cmac.c:92-96 | the in-place loop computes it |
| `Cmac.Context.Update` | sys/crypto/cmac.c:56-81 | for any chopping, empty calls included, all but the last 1 to 16 bytes are absorbed and those are held back |
| `Cmac.Context.Final` | sys/crypto/cmac.c:83-120 | the tag is the one-shot CMAC of section 6.2 of NIST SP 800-38B of everything fed |
| `Xts.RaisedIsTimesAlpha` | sys/crypto/xform.c:580-588 | the byte-carry loop multiplies by the primitive element of GF(2^128) |
| `Xts.TweakIsPower` | sys/crypto/xform.c:562-589 | the tweak before block j is the first tweak times alpha^j (section 5 of IEEE 1619-2007) |
| `Xts.CipheredBlock` | sys/crypto/xform.c:562-589 | block j is masked before and after the cipher with the first tweak times alpha^j |
| `Xts.NumberValue` | sys/crypto/xform.c:540-560 | the block that is encrypted to the first tweak is the block number, least significant byte first |
| `Xts.CipheredUndone` | sys/crypto/xform.c:562-601 | deciphering any number of blocks from the same first tweak restores the data |
| `Xts.Context.Reinit` | sys/crypto/xform.c:540-560 | the tweak becomes the encrypted little-endian block number |
| `Xts.Context.Raise` | sys/crypto/xform.c:580-588 | the in-place carry loop |
| `Xts.Context.Crypt` | sys/crypto/xform.c:562-589 | one block under the present tweak, in place; the tweak moves on |
| `Xts.Context.Run` | sys/crypto/xform.c:562-601 | a run of blocks, each under its own tweak |
| `Blowfish.EncipherUndone` | sys/crypto/blf.c:64-112 | decipher inverts encipher and encipher inverts decipher, for arbitrary P and S |
| `Blowfish.EncipheredIsPublished` | sys/crypto/blf.c:64-87 | the merged rounds of the code are the sixteen rounds of the published cipher: subkey, round function, exchange, and two subkeys at the end |
| `Blowfish.FMeans` | sys/crypto/blf.c:57-60 | the four bytes of a word, most significant first, choose from the four boxes |
| `Blowfish.BytesOrder` | sys/crypto/blf.c:582-609 | blocks are read as two big-endian words |
| `Blowfish.Encipher` | sys/crypto/blf.c:64-87 | the straight-line code computes the sixteen rounds |
| `Blowfish.Decipher` | sys/crypto/blf.c:89-112 | likewise, with the subkeys in reverse |
| `Blowfish.AsCipherIsProper` | sys/crypto/blf.c:64-112 | on eight-byte blocks the two are an inverse pair |
| `Blowfish.CbcEncrypt` | sys/crypto/blf.c:582-609 | working front to back in place gives flat CBC, for every multiple of 8 |
| `Blowfish.CbcDecrypt` | sys/crypto/blf.c:611-658 | working back to front in place gives flat CBC decryption, for every positive multiple of 8 |
| `Blowfish.CbcRestores` | sys/crypto/blf.c:582-658 | the two passes undo each other |
| `Des.PermutationsCancel` | sys/crypto/des_locl.h:218-236 | FP across the half swap undoes IP, and the other way round |
| `Des.InitialIsStandard` | sys/crypto/des_locl.h:177-226 | the five exchanges add up to the initial permutation of FIPS 46-3: the columns of the square of bits become its rows, even ones in one half and odd ones in the other |
| `Des.CrossMeans` | sys/crypto/des_locl.h:163-174 | each of the eight tables is entered once, with its own six bits of the half and the subkeys, around the end of the word |
| `Des.RoundsAreFeistel` | sys/crypto/ecb_enc.c:101-124 | the loops, two rounds at a time and without exchanges, are the sixteen rounds of the standard, with the subkeys in either order |
| `Des.CoreMeans` | sys/crypto/ecb_enc.c:130-179 | which half is the left one, and the exchange at the end |
| `Des.BytesOrder` | sys/crypto/des_locl.h:89-93 | blocks are read as two little-endian words |
| `Des.RoundsUndone` | sys/crypto/ecb_enc.c:101-124 | the rounds in one direction, on swapped halves, undo those in the other |
| `Des.SingleUndone` | sys/crypto/ecb_enc.c:77-127 | des_encrypt with one flag undoes the other, for arbitrary schedules and tables |
| `Des.TripleUndone` | sys/crypto/ecb3_enc.c:52-76 | des_ecb3_encrypt with the schedules reversed and the other flag undoes it |
| `Des.TripleIsThreeSingles` | sys/crypto/ecb3_enc.c:52-76 | leaving out the inner permutations changes nothing: it is encrypt, decrypt, encrypt of single DES |
| `Des.Encrypt` | sys/crypto/ecb_enc.c:77-127 | the code computes single DES |
| `Des.Encrypt2` | sys/crypto/ecb_enc.c:130-179 | the code computes the rounds without outer permutations |
| `Des.Ecb3` | sys/crypto/ecb3_enc.c:52-76 | the code computes triple DES on eight bytes, in place if need be |
| `Des.Des3Restores` | sys/crypto/xform.c:383-393 | the key order of des3_decrypt undoes des3_encrypt, on bytes |
| `Drivers.RegisteredKeeps` | sys/crypto/crypto.c:313-346 | registering leaves the session count right if and only if the slot has no open session and is not marked CLEANUP |
| `Drivers.RegisteringTwiceLosesCount` | sys/crypto/crypto.c:313-346 | concretely: registering again with one session open leaves a count of zero |
| `Drivers.UnregisteredKeeps` | sys/crypto/crypto.c:354-397 | unregistering an algorithm, or all, keeps the count and the open sessions; the slot then waits for its sessions, is free, or has lost that one algorithm |
| `Drivers.UnregisteredMeans` | sys/crypto/crypto.c:354-397 | the slot is emptied, or marked while it has sessions, if and only if all algorithms go or the last one does; otherwise the driver keeps its functions, kind, marks and sessions, and can be used for exactly what it could be used for without that algorithm; no other slot changes |
| `Drivers.RegisteredMeans` | sys/crypto/crypto.c:313-346 | from then on the driver is usable for exactly the algorithms of the array, if it has a function to open sessions and is not marked; no other slot changes |
| `Drivers.ReservedMeans` | sys/crypto/crypto.c:233-245 | a reserved slot is not handed out again; no other slot changes |
| `Drivers.OpenedMeans` | sys/crypto/crypto.c:141-166 | a session more on its slot and nothing else: drivers offer what they offered |
| `Drivers.ClosedMeans` | sys/crypto/crypto.c:174-208 | the last session of a marked slot leaves the slot free; any other leaves the driver as it was |
| `Drivers.GrownKeeps` | sys/crypto/crypto.c:248-270 | in a larger table every entry is where it was and the new ones are free |
| `Drivers.OpenedKeeps` | sys/crypto/crypto.c:141-166 | counting a new session keeps the count right if and only if its id is not one that is open |
| `Drivers.ClosedKeeps` | sys/crypto/crypto.c:174-208 | freeing a session id keeps the count right if and only if that session is open or its slot has no open session |
| `Drivers.FreeingTwiceLosesCount` | sys/crypto/crypto.c:174-208 | with two sessions open on a slot, freeing one of them twice leaves a count one short of the sessions open and the reservation |
| `Drivers.FreeingTwiceExample` | sys/crypto/crypto.c:174-208 | concretely: the count is then zero with a session open |
| `Drivers.OpenSlotIsNotFree` | sys/crypto/crypto.c:213-245 | while counts are right, a slot with an open session is not handed out |
| `Drivers.RunKeepsCounts` | sys/crypto/crypto.c:44-278 | along every run in which each step meets its condition, `cc_sessions` is the number of open session ids of the slot, plus one while reserved, and every CLEANUP slot has sessions |
| `Drivers.ChosenMeans` | sys/crypto/crypto.c:66-140 | a driver is chosen exactly if one qualifies, with the fewest sessions of its kind and the last of those, and software only if no hardware driver qualifies |
| `Drivers.Registry.GetDriverId` | sys/crypto/crypto.c:213-278 | hands out the first slot that is unused, unmarked and without sessions, growing the table with every entry in place; counts stay right and the slot has no open session |
| `Drivers.Registry.Register` | sys/crypto/crypto.c:313-346 | fails exactly on a slot that does not exist; otherwise the driver can be chosen from now on unless marked CLEANUP, and counts stay right if and only if the slot had no open session and was not marked |
| `Drivers.Registry.Unregister` | sys/crypto/crypto.c:354-397 | a single algorithm or all of them go, or the error, exactly; the slot is withdrawn exactly with the last algorithm and otherwise serves as before without it; no other slot changes and counts stay right |
| `Drivers.Registry.Choose` | sys/crypto/crypto.c:66-140 | the passes find that driver |
| `Drivers.Registry.NewSession` | sys/crypto/crypto.c:44-166 | opens a session on it and counts it, if the driver agrees; the session id gives the driver back, and counts stay right if and only if the driver did not give out an open number |
| `Drivers.Registry.FreeSession` | sys/crypto/crypto.c:174-208 | exact error cases, the answer of the driver passed on if it has a function to free sessions; counts stay right if and only if the session is open or its slot has none |

## Left out

- Locks, threads, poll and wakeup pipes: each routine is one atomic step.
- The encrypted connection and its handshake (`lib/libdmsg/crypto.c`, the encrypted branch of `dmsg_iocom_flush2`): only the plaintext path is modelled.
- Headers of the opposite byte order in `dmsg_ioq_read`: not modelled.
- Writing under a parent already closed for transmission: the source drops the message and simulates a failure (`lib/libdmsg/msg.c:1550-1562`); the operation is not offered there.
- The spanning-tree relay scan of `lib/libdmsg/msg_lnk.c`: only the seeding of a relay pointer is modelled.
- The command number in `txcmd` and `rxcmd`, the message count and the DYING flag: not kept; of the command bits CREATE, DELETE, REPLY, ABORT, REVTRANS and REVCIRC are.
- DmsgRuns.RefsExact: reference counts are unbounded numbers, an `int` in the source; of what `dmsg_state_relay` does, runs contain opening the counterpart and writes on it, not the copying of later messages.
- DmsgProtocol.NothingGoesWrong: each end has the one connection, so relays between connections are covered by the reference-count results only; messages outside transactions carry no ABORT.
- DmsgFailure.WindDown: starts from states in which no transaction of the connection has something left to send under a parent closed for transmission, and the application keeps to that there, for the reason above; an operation that itself trips an assertion ends the program and is no step.
- DmsgFailure.Drains: counts one call of the reader per victim; an application that answers later is covered by `DmsgFailure.WindDown`, one that opens more meanwhile by `DmsgFailure.DrainsMeanwhile`.
- DmsgWire.GetSet: a value too wide for its field is not written by the code modelled here and nothing is said of it.
- DmsgReader.Reader.StepHeader2: on a bad header crc the source notes the error and runs into `assert(0)`; the model stops at the error, which no well-made stream raises.
- DmsgReader.Reader.Next: the allocation of the data buffer for a size that wrapped is outside the model.
- The zeroing of the crc field in the received header during the check, and the clearing of key material after use: not modelled.
- The mbuf branches, the ciphers with their own reinit routine, deflate and `swcr_authenc` in `sys/crypto/cryptosoft.c`: only the iovec branch for ciphers the routine chains itself.
- Cryptosoft.EncDec: a missing initial value is drawn by the caller of the model, since the random source is a parameter.
- Hmac.Session.AuthCompute: the extended sequence number and the KPDK and plain hashes are not modelled.
- IdGen.Generator.Next: the substitution table is a parameter, and bytes of the key are numbers.
- Sha2.Context.Final: the round constants and initial values are parameters, the words stay in the context afterwards instead of being cleared, and the unrolled transform is not modelled.
- Ghash.Context.Feed: key set-up and the final encryption of AES-GMAC are not modelled.
- Cmac.Context.Final and Xts.Context.Crypt: AES itself is an arbitrary block function.
- Drivers.Registry.Unregister: the check for all algorithms reads one place behind the array in the source; what is stored there (the first asymmetric algorithm) is a parameter.
- Drivers.Registry.GetDriverId: of the flags only SOFTWARE and CLEANUP are kept, and session counts do not wrap at 2^32.
- Asymmetric operations, request queues and dispatch in `sys/crypto/crypto.c`: not modelled.
- AES, the tables of DES and Blowfish, key schedules, MD5, SHA-1, RIPEMD-160, CAST, RC4, ChaCha and Michael: they would repeat patterns already covered.
- newfs_hammer2, the hammer2 commands, mounting, and kernel configuration: input and output, not protocol.
