# Verification of the RIO / IOCP game server

A Dafny model of the parts of the server in which many things happen at once or many cases meet: the job
scheduler, the reader-writer spin lock, the message codec, packet framing and the ring buffers below it, and
the game room. `dafny verify dfyconfig.toml` checks everything.

| files | subject |
|---|---|
| JobProtocol, JobSafety, JobProgress, JobPosts, JobOrder, JobScheduler | job queues, the global queue and the worker loops: a step relation over atomic operations, its invariants over all runs, a termination measure, what becomes of every push and in which order, and the code on shared state |
| RwLock, RwLockSafety, RwLockProgress, SpinLock, ThreadIds | the spin lock at the level of loads, weak exchanges, adds and stores; exclusion, refinement of an abstract lock, who gets in by its own steps and when, the conditions on ids and reader counts, and how threads get their ids |
| Wire, WireBytes, WireGrammar, Utf8, Message, MessageLaws, MessageCanonical, Sizes | the protocol-buffer format, its bytes by place value, its grammar, and the generated codec for any schema: round trip, merging, field order, exact sizes |
| Protocol, PlayerPosInfo, MessageParts, LoginResult | the message types of this server, and two generated classes statement by statement |
| Framing, RingBuffer, RioSession | packet headers, extraction from a stream, the ring buffer with three cursors, receiving and sending |
| Grid, GameRoom, ServerSession | sectors and zones, who sees whom, logging in and out, and the jobs of the room and its zones run one at a time |
| Membership, RoomSafety, LoginCount | sessions and the room under any order of packets and disconnects, with the jobs of different queues interleaved operation by operation: what every run keeps, and when the login count is right |
| RoomRaces, RoomSchedules, RoomConditions | one player whose jobs overlap: what each step does to it, schedules that do harm, and the exact conditions under which none does |
| StressTest | the stress client's division of work, its send times and its running average |
| Basics | definitions the others share |

Classes carry the fields of the original objects and are updated in place; each method's contract names a
function on values, and the theorems are about those functions. The concurrent parts are state machines with one
program counter per thread; a schedule is a list of actions, and actions that are not enabled when their turn
comes are passed over.

## What the code does not do

These are proved, with the condition under which the code is right. Where the repository's own README or a comment
suggests more, the model follows the code.

- The lock excludes for some thread ids only. While there are at most 65535 read holds, every run is exclusive exactly
  if no id is 0 in its low 16 bits and no thread's id, as the 32-bit word it compares, is the low half of another
  thread's id (`RwLockSafety.ExcludesExactlyForSafeIds`; the failing runs are in `EmptyHalfBreaks` and
  `CollisionBreaks`). The default id, which the main thread keeps, is 0 and makes WriteLock skip the lock
  (`ZeroIdSkipsTheLock`). A thread with any other id of 65536 or more never gets its write lock released
  (`WideIdNeverUnlocks`); that alone breaks no exclusion.
- The 65536th read hold spills into the writer half of the lock. It lets a thread with id 1 in beside the readers and
  nobody else: with any number of readers, every run is exclusive exactly if in addition no id is 1
  (`RwLockSafety.ExcludesWithoutBoundExactly`, `OverflowBreaksExclusion`). Ids that are distinct and between 1 and
  65535 are safe (`GoodIdsExclude`).
- CreateThread lets new threads number themselves by a plain counter without a lock: two that start at once can get one
  id, which the lock takes for one thread (`ThreadIds.DistinctExactlyAlone`, `RwLockSafety.CollisionBreaks`). Fewer than
  65536 threads that start one after the other get good ids (`ThreadIds.OneByOneIsGood`).
- A message with a string that is not UTF-8 serializes but does not parse; among the messages the format can carry these
  are exactly the ones that do not come back (`MessageLaws.RoundTrip`).
- The 16-bit size field truncates: packets above 65535 bytes are announced shorter than they are, and one of a multiple of
  65536 bytes makes the receiving loop run forever (`Framing.HeaderIsExact`, `WrappedHeaderSticks`).
- A send buffer full of unsent bytes counts as empty (`RingBuffer.RioBuffer.GetSendDataSize`), and the session never
  posts again whatever happens to it (`RioSession.Sender.Serve`). A call of SendDeferred that is not refused a post and
  stays below the post limit ends there exactly if nothing is in flight and some packet of the queue exactly fills the
  space left by the bytes before it, which stay below 600 at every step (`RioSession.Sender.SendDeferred`,
  `FillsExactly`). If posts may be refused, it can end there exactly if nothing is in flight and some packets from the
  front of the queue fill the buffer (`SendDeferred`, `CanFillExactly`). Sessions whose packets all leave 600 bytes free
  never get there unless a post is refused or the post limit is reached (`SmallPacketsNeverFill`, `Serve`).
- AdjustPos keeps all contents exactly if they do not wrap around or fit in front of the tail; for all other positions of
  the cursors, the full buffer with its tail behind the start among them, some contents are lost
  (`RingBuffer.AdjustKeepsExactly`). The receiving side never gets there (`RioSession.Receiver.ProcessRecv`).
- Zone::MovePlayer and Room::Logout run on different job queues and can overlap, and so can two moves in different zones.
  A player can then end in a sector without being a member, or in two sectors
  (`RoomConditions.PartitionCanBreak`). Players whose jobs never overlap are safe (`RoomSafety.ReachableStates`). From a
  state at rest with the player where it belongs, and over every run of packets, disconnects and jobs, of others as
  well, it stays where it belongs exactly in these cases.
  - If no C2S_MOVE of it arrives: unless a move with something to do waits, and a Logout job waits too or some session
    owns the player. An ordinary disconnect after the zone has looked is enough
    (`RoomConditions.LeavingKeepsExactly`, `RoomSchedules.EndUnsettles`).
  - If its session neither logs out nor ends, no job of it waits, and at most two C2S_MOVE packets arrive: both lead to
    one zone, or one of them to the sector it is stored in (`RoomConditions.TwoMovesKeepExactly`). With any number of
    packets: all their positions lie in one zone (`AnyMovesKeepExactly`).
  - If the session may do both: all positions lie in the sector it is stored in (`MovesAndLeavingKeepExactly`).
- C2S_LOGOUT posts a logout job without looking at the player's state; the disconnect right behind it posts another one
  if the first has not run, and the login count drops twice (`LoginCount.LogoutThenDisconnect`, `DrainCounts`).
- A second C2S_LOGIN on one session strands the first player in the room (`LoginCount.SecondLoginStrands`).

## Model

| member | source | states |
|---|---|---|
| `JobSafety.StepKeepsInv` | ServerCore/Job/JobQueue.cpp:4-61 | every atomic step of any pusher or worker keeps, for every queue, the exact counter, the single token and first-in-first-out order |
| `JobSafety.RunKeepsInv` | ServerCore/Job/JobQueue.cpp:36-60 | the same over every schedule of any length |
| `JobSafety.TokenIsSingle` | ServerCore/Job/JobQueue.cpp:16-19 | at most one thread is inside Execute on a queue or about to publish it, and then the queue is not in the global queue; it is never there twice |
| `JobSafety.BusyIsOwned` | ServerCore/Job/JobQueue.cpp:6-19 | a queue is busy exactly when some thread holds it, is about to publish it, or it is published: no work is orphaned and no idle queue is run |
| `JobSafety.ReachableStates` | ServerCore/Job/JobQueue.cpp:4-61 | from start-up, all of the above hold after any run |
| `JobSafety.RetiresOnlyWhenEmpty` | ServerCore/Job/JobQueue.cpp:47-51 | a worker retires exactly when nothing is queued and no push stands between its fetch_add and its insertion |
| `JobSafety.PushWhileDrainingIsQuiet` | ServerCore/Job/JobQueue.cpp:6-19 | a push to a queue that is being drained, for example by one of its own jobs, never publishes it again |
| `JobSafety.InsertKeeps` | ServerCore/Job/JobQueue.cpp:7 | inserting a counted job moves one unit of the counter from the pusher to the queue and extends the push history |
| `JobSafety.PopAllKeeps` | ServerCore/Job/JobQueue.cpp:38-41 | draining moves all queued jobs into the hands of the one token holder, in order |
| `JobSafety.SubtractKeeps` | ServerCore/Job/JobQueue.cpp:47-51 | subtracting a batch leaves either a token with the worker or a counter of zero and no token |
| `JobSafety.RequeueKeeps` | ServerCore/Job/JobQueue.cpp:53-58 | re-publishing on the deadline hands the token to the global queue |
| `JobProgress.StepDecreases` | ServerCore/Job/JobQueue.cpp:36-60 | a measure drops on every step except a drain that finds nothing, which costs four units and needs a half-done push |
| `JobProgress.DrainsEmptyOnlyWhilePushing` | ServerCore/Job/JobQueue.cpp:36-39 | an inside worker finds nothing only while some pusher is between counting and inserting |
| `JobProgress.RunsAreBounded` | ServerCore/Network/ServerProxy.cpp:77-95 | without new outside work, every run performs at most the measure of its start plus five steps for each empty drain |
| `JobProgress.QuiescentIsDone` | ServerCore/Network/ServerProxy.cpp:113-133 | when no thread can move, every counter is 0 and every queue has executed exactly the jobs pushed to it, once each, in order |
| `JobPosts.NoPushIsLost` | ServerCore/Job/JobQueue.cpp:4-61 | in every reachable state, for every queue and job: pushed to the queue, counted and not yet inserted, or still to be pushed, it is there as often as the performed dispatches and the executed jobs together asked for it |
| `JobPosts.QuiescentHasExecutedAll` | ServerCore/Job/JobQueue.cpp:36-60 | when no thread can move, it has been executed exactly that often |
| `JobPosts.OutcomeIsDispatched` | ServerCore/Job/JobQueue.cpp:42-45 | whatever the schedule, how often each job has run on each queue in the end is what the dispatched posts lead to, directly or through jobs that push jobs |
| `JobOrder.PushesKeepOrder` | ServerCore/Job/JobQueue.cpp:4-20 | the pushes of one thread enter the queues in the order in which its dispatches and jobs make them; what it has not pushed yet is the end of that sequence |
| `JobOrder.GlobalQueueIsFair` | ServerCore/Job/GlobalQueue.cpp:11-19 | over every run, workers enter queues in the order in which these were published, by the first push to an idle queue or when a deadline passed |
| `JobOrder.ExpiredYields` | ServerCore/Job/JobQueue.cpp:53-59 | a worker that finds its deadline passed starts no other job: whatever the others do meanwhile, its next step puts the queue behind all others and leaves Execute; with time left it drains again |
| `JobOrder.OnlyWorkersDrain` | ServerCore/Network/ServerProxy.cpp:113-133 | only worker loops are ever inside Execute |
| `JobOrder.CanFinish` | ServerCore/Job/JobQueue.cpp:36-60 | from every reachable state with a worker, all work can be brought to its end without new work from outside |
| `JobOrder.DispatchIsServed` | ServerCore/Job/JobQueue.cpp:4-61 | pushes from outside the job queues are possible whenever a thread is idle, and can be followed to the end of all work; then every job has run as often as was bound to happen before, plus what the new pushes lead to |
| `JobScheduler.Scheduler.Push` | ServerCore/Job/JobQueue.cpp:4-20 | the code of Push, one atomic operation a call, is the push step |
| `JobScheduler.Scheduler.Pop` | ServerCore/Job/GlobalQueue.cpp:16-19 | popping a published queue and entering Execute is the pop step |
| `JobScheduler.Scheduler.Execute` | ServerCore/Job/JobQueue.cpp:22-61 | the code of Execute, one atomic operation a call, is the execute step |
| `JobScheduler.Scheduler.RunSchedule` | ServerCore/Network/ServerProxy.cpp:113-133 | running any schedule on the shared objects is a run of the step relation and keeps its invariant |
| `RwLockSafety.StepKeepsInv` | ServerCore/Thread/RWLock.cpp:18-101 | a step keeps the lock sound exactly when it is not the 65536th simultaneous reader |
| `RwLockSafety.RunKeepsInv` | ServerCore/Thread/RWLock.cpp:18-101 | the same over every run with at most 65535 readers |
| `RwLockSafety.ReachableIsExclusive` | ServerCore/Thread/RWLock.cpp:18-101 | for safe thread ids and at most 65535 read holds: no reader beside a writer, no two writers, and the low half of the word is the number of read holds |
| `RwLockSafety.ExcludesExactlyForSafeIds` | ServerCore/Thread/RWLock.cpp:18-101 | all runs with at most 65535 read holds are exclusive if and only if no id is 0 in its low 16 bits and none is, as a word, the low half of another thread's id |
| `RwLockSafety.ExcludesWithoutBoundExactly` | ServerCore/Thread/RWLock.cpp:18-101 | all runs whatsoever are exclusive if and only if the ids are safe and none of them is 1 |
| `RwLockSafety.GoodIdsExclude` | ServerCore/Thread/ThreadManager.cpp:36-40 | distinct ids from 1 to 65535, which is what numbering threads upwards from 1 is for: all runs with at most 65535 read holds are exclusive, and all runs whatsoever exactly if none of the ids is 1 |
| `RwLockSafety.EmptyHalfBreaks` | ServerCore/Thread/RWLock.cpp:58-63 | an id whose low half is 0 has a run in which its thread reads beside its own write lock |
| `RwLockSafety.CollisionBreaks` | ServerCore/Thread/RWLock.cpp:58-77 | a thread whose id is the half another one writes has a run in which both write |
| `RwLockSafety.OwnIdMeansOwner` | ServerCore/Thread/RWLock.cpp:58-63 | the reentrancy test succeeds exactly for a thread that owns the lock and whose id fits 16 bits |
| `RwLockSafety.OwnershipIsStable` | ServerCore/Thread/RWLock.cpp:55-63 | no step of another thread changes the outcome of that test |
| `RwLockSafety.CounterIsOwners` | ServerCore/Thread/RWLock.cpp:61-96 | the plain write counter is changed only by the owner, whose half is in the word |
| `RwLockSafety.ReleasedByOutermostUnlock` | ServerCore/Thread/RWLock.cpp:89-101 | the word leaves its owner only by the store after the outermost unlock, and that store meets no reader |
| `RwLockSafety.ForeignUnlockIsNoop` | ServerCore/Thread/RWLock.cpp:92-93 | WriteUnlock changes nothing exactly for a thread without a write lock, or with an id that does not fit 16 bits |
| `RwLockSafety.Refines` | ServerCore/Thread/RWLock.cpp:18-101 | every step is one operation of an abstract recursive reader-writer lock, by the same thread and with its guard, or is invisible |
| `RwLockProgress.ReadersEnter` | ServerCore/Thread/RWLock.cpp:18-35 | while no writer is in the word, a thread anywhere in the loop of ReadLock has its share beside any number of readers after whatever spurious failures and three more steps of its own; nothing else changes |
| `RwLockProgress.ReaderEntersExactly` | ServerCore/Thread/RWLock.cpp:24-31 | some steps of its own give a waiting reader its share if and only if the writer half of the word is 0 |
| `RwLockProgress.WritersEnter` | ServerCore/Thread/RWLock.cpp:69-82 | on a free word a waiting writer owns it after whatever spurious failures and two more steps |
| `RwLockProgress.WriterEntersExactly` | ServerCore/Thread/RWLock.cpp:69-82 | some steps of its own bring a waiting writer in if and only if the word is free |
| `RwLockProgress.OwnerNeverWaits` | ServerCore/Thread/RWLock.cpp:57-63 | a reentrant lock and an unlock take at most two steps whatever the others hold; the counter and the depth move by one, and the word is freed exactly by the outermost unlock |
| `RwLockProgress.LocksComplete` | ServerCore/Thread/RWLock.cpp:18-83 | ReadLock on a word without a writer and WriteLock on a free word succeed, counted from the call |
| `RwLockProgress.LocksWait` | ServerCore/Thread/RWLock.cpp:18-83 | ReadLock on a word with a writer, and WriteLock on a word that is neither free nor its own, wait through any steps of their own |
| `RwLockProgress.ReadUnlockIsModular` | ServerCore/Thread/RWLock.cpp:41-49 | ReadUnlock takes one off the 32-bit word, whatever is in it |
| `RwLockSafety.ZeroIdSkipsTheLock` | ServerCore/Thread/RWLock.cpp:58-63 | on a free lock, WriteLock returns without taking it exactly when the caller has id 0 |
| `RwLockSafety.WideIdNeverUnlocks` | ServerCore/Thread/RWLock.cpp:67-93 | an id finds itself again at the unlock exactly when it fits 16 bits |
| `RwLockSafety.OverflowBreaksExclusion` | ServerCore/Thread/RWLock.cpp:26-30 | after the 65536th read hold, a thread with id 1 write-locks beside the readers, be it the last reader itself |
| `RwLockSafety.SpillMends` | ServerCore/Thread/RWLock.cpp:43-47 | the next ReadUnlock after that puts the word in order again |
| `RwLockSafety.SpillStays` | ServerCore/Thread/RWLock.cpp:24-77 | until then nobody but a thread with id 1 gets in |
| `ThreadIds.DistinctExactlyAlone` | ServerCore/Thread/ThreadManager.cpp:30-42 | under every interleaving of load, store and read-back the ids are distinct if and only if there is one thread at most |
| `ThreadIds.OneByOneIsGood` | ServerCore/Thread/ThreadManager.cpp:30-42 | threads none of which starts between another's load and read-back get distinct ids from 1 to their number |
| `SpinLock.Lock.Advance` | ServerCore/Thread/RWLock.cpp:24-98 | the loads, weak exchanges, counter updates and stores on the shared word are the steps of the model |
| `SpinLock.Lock.WriteLock` | ServerCore/Thread/RWLock.cpp:55-63 | the entry of WriteLock |
| `SpinLock.Lock.WriteUnlock` | ServerCore/Thread/RWLock.cpp:89-93 | the entry of WriteUnlock |
| `SpinLock.Lock.RunSchedule` | ServerCore/Thread/RWLock.cpp:18-101 | running any schedule on the shared word is a run of the step relation |
| `Wire.VarintRoundTrip` | Libraries/include/google/protobuf/parse_context.h:538-552 | reading a varint back yields its value and its length, whatever follows |
| `WireBytes.VarintBytes` | Libraries/include/google/protobuf/io/coded_stream.h:899-925 | the bytes written for v: all but the last are at least 128, the last is below 128 and not 0 unless it is alone, and the low seven bits sum up to v, the lowest group first |
| `WireBytes.OnlyVarint` | Libraries/include/google/protobuf/io/coded_stream.h:899-925 | no other bytes have these properties |
| `WireBytes.ReadBase128Exactly` | Libraries/include/google/protobuf/parse_context.h:538-552 | reading succeeds if and only if one of the first `max` bytes is below 128; it takes the bytes up to the first such and yields the sum of their low seven bits by place value |
| `WireBytes.ReadersExactly` | Libraries/include/google/protobuf/parse_context.h:538-577 | tags and sizes take up to five bytes, values up to ten, and keep the low 32 or 64 bits of that sum |
| `WireBytes.Fixed32Bytes` | RIOIOCPServer/Protocol/Protocol.pb.cc:706-731 | the four bytes written for a 32-bit word are its digits to base 256, the lowest first |
| `WireBytes.ReadFixed32Exactly` | Libraries/include/google/protobuf/parse_context.h:494-518 | a 32-bit word is read as the sum of four bytes by place value, and fails with fewer |
| `WireBytes.Fixed64Bytes` | Libraries/include/google/protobuf/parse_context.h:494-518 | the same for 64-bit words, which occur in unknown fields |
| `WireBytes.ReadFixed64Exactly` | Libraries/include/google/protobuf/parse_context.h:494-518 | the same, reading |
| `WireBytes.GeneratedTags` | RIOIOCPServer/Protocol/Protocol.pb.cc:1505-1566 | every field that is written begins with the tag byte that the generated parser tests for: 8, 16, 24, 34, 40, 48 and 58 in S2C_LOGIN_RESULT, 13 to 101 in steps of 8 in PLAYER_POS_INFO |
| `WireBytes.OtherTags` | Libraries/include/google/protobuf/parse_context.h:887-920 | 64-bit words have wire type 1, groups lie between tags of types 3 and 4 |
| `WireBytes.NegativeTakesTen` | RIOIOCPServer/Protocol/Protocol.pb.cc:1590-1640 | a negative integer of either width is written as its 64-bit two's complement, in ten bytes |
| `Wire.RecordsRoundTrip` | RIOIOCPServer/Protocol/Protocol.pb.cc:680-690 | records, nested groups included, decode to themselves in front of any rest the reader can continue with |
| `WireGrammar.DecodesExactly` | Libraries/include/google/protobuf/parse_context.h:881-942 | the reading loop accepts exactly the sentences of a grammar that only says how the bytes are divided (tags, sizes and words by place value, groups nested at most `depth` deep and closed by their own number), and yields the records they spell; everything else is malformed |
| `WireGrammar.SpellingIsUnique` | Libraries/include/google/protobuf/parse_context.h:881-942 | no bytes spell two different record sequences |
| `WireGrammar.EncodedSpells` | RIOIOCPServer/Protocol/Protocol.pb.cc:1584-1641 | what is written is one of the spellings |
| `Utf8.ValidIsEncoded` | RIOIOCPServer/Protocol/Protocol.pb.cc:1532 | the byte grammar of RFC 3629 accepts exactly the encodings of sequences of Unicode scalar values |
| `MessageLaws.ParseMerges` | RIOIOCPServer/Protocol/Protocol.pb.cc:1497-1733 | for every schema and depth, parsing the serialization of b into a is merging b into a, or fails, exactly if some string of b is not UTF-8 |
| `MessageLaws.ConcatenationMerges` | RIOIOCPServer/Protocol/Protocol.pb.cc:1702-1733 | parsing the concatenation of two serializations is merging the two messages, submessages recursively |
| `MessageLaws.RoundTrip` | RIOIOCPServer/Protocol/Protocol.pb.cc:572-829 | among the messages the format can carry, parse after serialize is the identity exactly on those with valid text, and fails on the others |
| `MessageLaws.AnyOrderMerges` | RIOIOCPServer/Protocol/Protocol.pb.cc:2706-2765 | the field records of a message may come in any order that keeps the unknown ones in sequence |
| `MessageLaws.FieldRoundTrip` | RIOIOCPServer/Protocol/Protocol.pb.cc:1584-1643 | each kind of field survives: sign-extended int32, int64, bool, raw float words, text, submessages merged into what is there |
| `MessageLaws.MergeIntoDefault` | RIOIOCPServer/Protocol/Protocol.pb.cc:1735-1740 | merging into a cleared message copies, which is how CopyFrom works |
| `MessageLaws.SignedWords` | RIOIOCPServer/Protocol/Protocol.pb.cc:1590-1593 | sign extension to 64 bits and truncation back to 32 loses nothing |
| `MessageLaws.WrittenExactly` | RIOIOCPServer/Protocol/Protocol.pb.cc:1590-1633 | a field is written exactly if it does not hold the default value of its type |
| `MessageLaws.SilentExactly` | RIOIOCPServer/Protocol/Protocol.pb.cc:1584-1641 | exactly the message with default values and no unknown fields serializes to no bytes |
| `MessageCanonical.ReparseIsStable` | RIOIOCPServer/Protocol/Protocol.pb.cc:2706-2804 | whatever bytes a message was parsed from, serializing and parsing it again gives the same message |
| `MessageCanonical.DecodedIsEncodable` | RIOIOCPServer/Protocol/Protocol.pb.cc:680-690 | unknown fields as read can always be written again |
| `Sizes.VarintSizeIsExact` | Libraries/include/google/protobuf/io/coded_stream.h:1744-1752 | the multiply-and-shift size formula is the length of the varint |
| `Sizes.ByteSizeIsExact` | RIOIOCPServer/Protocol/Protocol.pb.cc:1645-1693 | for every schema with field numbers 1 to 15, whose tags take one byte, the computed size is the length of the serialization, nested messages and unknown fields included |
| `Protocol.ParseTurn` | RIOIOCPServer/Protocol/Protocol.pb.cc:1499-1576 | the parse loop takes one field and goes on behind it, on fewer bytes |
| `Protocol.StepHits` | RIOIOCPServer/Protocol/Protocol.pb.cc:1502-1568 | a tag with a known number and the right wire type sets that field; any other one is kept as unknown |
| `PlayerPosInfo.PosInfo.InternalParse` | RIOIOCPServer/Protocol/Protocol.pb.cc:572-695 | the generated loop over the twelve floats computes the parse of the schema into the present contents |
| `PlayerPosInfo.PosInfo.InternalSerialize` | RIOIOCPServer/Protocol/Protocol.pb.cc:697-829 | the generated serializer writes the serialization of the schema; floats are elided by raw bits |
| `PlayerPosInfo.PosInfo.ByteSizeLong` | RIOIOCPServer/Protocol/Protocol.pb.cc:831-948 | the computed size is the number of bytes written |
| `PlayerPosInfo.PosInfo.MergeFrom` | RIOIOCPServer/Protocol/Protocol.pb.cc:957-1050 | the generated merge is the merge of the schema |
| `PlayerPosInfo.PosInfo.CopyFrom` | RIOIOCPServer/Protocol/Protocol.pb.cc:1052-1057 | copying from any message, itself included, yields its contents |
| `LoginResult.Packet.ParseField` | RIOIOCPServer/Protocol/Protocol.pb.cc:1502-1568 | each branch of the switch does what the schema asks for |
| `LoginResult.Packet.InternalParse` | RIOIOCPServer/Protocol/Protocol.pb.cc:1497-1582 | the generated loop computes the parse of the schema into the present contents |
| `LoginResult.Packet.InternalSerialize` | RIOIOCPServer/Protocol/Protocol.pb.cc:1584-1643 | the generated serializer writes the serialization of the schema |
| `LoginResult.Packet.ByteSizeLong` | RIOIOCPServer/Protocol/Protocol.pb.cc:1645-1693 | visiting the fields in storage order yields the number of bytes written in number order |
| `LoginResult.Packet.MergeFrom` | RIOIOCPServer/Protocol/Protocol.pb.cc:1702-1733 | the generated merge is the merge of the schema, pos_info recursively |
| `LoginResult.Packet.CopyFrom` | RIOIOCPServer/Protocol/Protocol.pb.cc:1735-1740 | copying from any message, itself included, yields its contents |
| `MessageParts.ParseMessage` | RIOIOCPServer/Protocol/Protocol.pb.cc:1557-1560 | a submessage is parsed into the present object, or into a new one |
| `Framing.HeaderIsExact` | DummyClient/Session/PacketHandler.h:17-31 | the size field is the length of the packet exactly when that is at most 65535; id and body are where the reader looks |
| `WireBytes.HeaderBytes` | DummyClient/Session/PacketHandler.h:23-25 | size and id are little-endian 16-bit words, the size first |
| `Framing.ExtractSplits` | ServerCore/Network/RioSession.h:62-63 | the packets handed out are a prefix of the bytes, in order; extraction ends in front of an incomplete packet and gets stuck exactly in front of one of size 0 |
| `Framing.ExtractContinues` | ServerCore/Network/RioSession.h:57-63 | extracting from bytes that arrive in pieces is extracting from the whole stream |
| `Framing.ExtractsFrames` | README.md:106-113 | a stream of well-framed packets comes out as those packets |
| `Framing.MessageArrives` | DummyClient/Session/PacketHandler.h:17-31 | a message whose packet fits arrives with its id and parses to itself |
| `Framing.WrappedHeaderSticks` | DummyClient/Session/PacketHandler.h:25 | the receiver makes no progress exactly when the packet length is a multiple of 65536 |
| `Framing.FillNetBuffer` | DummyClient/Session/PacketHandler.h:17-31 | for any id and body, the allocated buffer is filled exactly by header and body |
| `Framing.CreateNetBuffer` | DummyClient/Session/PacketHandler.h:17-31 | for S2C_LOGIN_RESULT, the body is the serialization |
| `Framing.OnRecv` | ServerCore/Network/RioSession.h:62-63 | the loop computes the extraction |
| `RingBuffer.RioBuffer.WriteBuffer` | ServerCore/Network/RingBuffer.h:29 | all bytes are appended to the contents, in at most the chunks the ring needs, or none if they do not fit |
| `RingBuffer.RioBuffer.OnWriteBuffer` | ServerCore/Network/RingBuffer.h:35 | bytes placed behind the contents are taken over if they fit |
| `RingBuffer.RioBuffer.OnReadBuffer` | ServerCore/Network/RingBuffer.h:36 | bytes leave at the tail; unsent bytes are not touched |
| `RingBuffer.RioBuffer.AdjustPos` | ServerCore/Network/RingBuffer.h:45 | memory and tail end as the two functions of the old memory and cursors say, and the contents survive when they do not wrap or fit in front of the tail |
| `RingBuffer.AdjustKeepsExactly` | ServerCore/Network/RingBuffer.h:45 | for every capacity, tail and size, every memory keeps its contents through AdjustPos if and only if these do not wrap or fit in front of the tail |
| `RingBuffer.StaysInPlaceExactly` | ServerCore/Network/RingBuffer.h:45 | AdjustPos leaves contents away from the start exactly if there are any, they do not reach the end of the memory, and at least a third of it is free behind them, up to rounding |
| `RingBuffer.RioBuffer.GetSendDataSize` | ServerCore/Network/RioBuffer.cpp:45-55 | the number of unsent bytes, except 0 for a buffer full of them |
| `RingBuffer.RioBuffer.GetChunkSendSize` | ServerCore/Network/RioBuffer.cpp:29-39 | the unsent bytes up to the end of the memory, at least one if there are any |
| `RingBuffer.RioBuffer.ChunkIsUnsent` | ServerCore/Network/RioBuffer.cpp:29-39 | the memory at the send position holds the first unsent bytes |
| `RingBuffer.RioBuffer.OnSendBuffer` | ServerCore/Network/RioBuffer.cpp:63-71 | the send position advances over the first unsent bytes |
| `RioSession.Receiver.ProcessRecv` | ServerCore/Network/RioSession.h:57 | however the stream is cut, the packets handed out are those of the whole stream; a nonempty chunk of the offered length never overflows the buffer, and room is offered again |
| `RioSession.Sender.RegisterSend` | ServerCore/Network/RioBuffer.cpp:29-71 | an accepted post hands over the next unsent bytes, once |
| `RioSession.Sender.PostUnsent` | ServerCore/Network/RioBuffer.cpp:29-71 | posts go on until nothing is left, the limit is reached or the network says no: a refusal is reported exactly if bytes are left below the limit in a buffer not full of them, and then the due answer was missing or no; every answer before it was yes; without a refusal two posts hand over exactly the unsent bytes |
| `RioSession.Sender.SendDeferred` | ServerCore/Network/RioSession.h:49 | bytes passed to Send are posted in order, none lost or repeated, bytes in flight are not overwritten; a network that agrees to the first two posts of every turn is reported to refuse nothing; and everything that fits has been posted unless a post was refused, the post limit was reached or the buffer is full of unsent bytes; that last case comes about exactly if nothing was in flight and the queue fills the buffer, and with posts refused it can exactly if some packets from the front of the queue sum up to the space left |
| `RioSession.CanFillExactly` | ServerCore/Network/RioCommon.h:3-16 | the recursive condition is that some number of packets from the front of the queue fills the buffer to the last byte |
| `RioSession.FillsExactly` | ServerCore/Network/RioCommon.h:3-16 | the queue fills the buffer exactly if some packet is as long as the space left, and the unsent bytes before it stay below SEND_LIMIT at every step |
| `RioSession.SmallPacketsNeverFill` | ServerCore/Network/RioCommon.h:3-16 | from fewer than SEND_LIMIT unsent bytes, packets of at most BUFFER_SIZE - SEND_LIMIT bytes never do |
| `RioSession.Sender.Serve` | ServerCore/Network/RioSession.h:41-58 | over any sequence of sends, flushes and completions: the stream grows by exactly what the sends bring, all of it is posted, waiting in the buffer or queued, in order; a session whose buffer is full of unsent bytes never posts again, and one with small packets only never gets there unless a post is refused or the post limit is reached |
| `RioSession.Sender.Handle` | ServerCore/Network/RioSession.h:41-58 | one event: a send appends to queue and stream, a flush is SendDeferred, a completion releases bytes and disconnects if there are none |
| `RioSession.Sender.ProcessSend` | ServerCore/Network/RioSession.h:58 | a completion releases bytes in flight and keeps the unsent ones |
| `Grid.TruncationIsClamped` | RIOIOCPServer/Contents/Room.cpp:129-147 | truncating before clamping equals flooring before clamping |
| `Grid.TruncDropsFraction` | RIOIOCPServer/Contents/Zone.h:26 | conversion to int drops the fraction, toward zero on both sides |
| `Grid.IdxIsCell` | RIOIOCPServer/Contents/Room.cpp:159-182 | an index names the half-open cell of the position, extended outward at the edges of the map |
| `Grid.IndicesAreCells` | RIOIOCPServer/Contents/Room.cpp:127-182 | both components of both indices: rows by y, columns by x |
| `Grid.GridsNest` | RIOIOCPServer/Contents/Room.cpp:127-182 | for every position the zone index is the sector index divided by 8 on both axes |
| `Grid.NearIsAdjacent` | RIOIOCPServer/Contents/Room.h:20-31 | players within view (2500 or 1250) have sector indices at most 2 (or 1) apart, on or off the map |
| `Grid.NearAxis` | RIOIOCPServer/Contents/Room.h:20-31 | the same per axis, for truncated and for exact coordinates |
| `Grid.NearIsDistance` | RIOIOCPServer/Contents/Zone.h:26 | two players whose distance, between truncated coordinates, rounds down to r are near if and only if r is below the view distance |
| `Grid.NearOnAxis` | RIOIOCPServer/Contents/Zone.h:26 | players on one axis are near if and only if the difference of their truncated coordinates is below the view distance |
| `Grid.NearInEveryDirection` | RIOIOCPServer/Contents/Zone.h:26 | pairs at the same whole distance are near alike, in whatever direction |
| `Grid.NearIsFair` | RIOIOCPServer/Contents/Zone.h:26 | nearness is symmetric, monotone in the view distance, and unchanged by moving both players by the same whole steps |
| `Grid.NearInBox` | RIOIOCPServer/Contents/Zone.h:26 | every pair less than 3/5 of the view distance apart on one axis and less than 4/5 on the other is near |
| `Grid.Neighbourhood` | RIOIOCPServer/Contents/Room.cpp:192-238 | the adjacency loops list exactly the sectors of the neighbourhood that exist, each once |
| `Grid.AdjacentExactly` | RIOIOCPServer/Contents/Room.cpp:192-238 | the sectors that are scanned are exactly those in which somebody near to some position of the player's sector can be |
| `GameRoom.SeenIsNear` | RIOIOCPServer/Contents/Room.cpp:192-238 | with stored sectors up to date, scanning the adjacent sectors finds exactly the connected players a scan of everyone finds |
| `GameRoom.Room.constructor` | RIOIOCPServer/Contents/Room.cpp:11-41 | a 32 by 32 grid of empty sectors and a 4 by 4 grid of zones with empty queues |
| `GameRoom.Room.Login` | RIOIOCPServer/Contents/Room.cpp:49-71 | the login step |
| `GameRoom.Room.Logout` | RIOIOCPServer/Contents/Room.cpp:79-92 | the logout step |
| `GameRoom.Room.QueueMove` | RIOIOCPServer/Contents/Room.cpp:100-104 | the move is queued at the zone of the player's position |
| `GameRoom.Room.MovePlayer` | RIOIOCPServer/Contents/Zone.h:20 | run without interruption, whether or not sectors and members agree: the player changes sectors if its position did, and its new view list is what scanning the adjacent sectors finds from there |
| `GameRoom.Room.Chat` | RIOIOCPServer/Contents/Zone.h:23 | the hearers are what scanning the narrow neighbourhood finds, whether or not sectors and members agree |
| `GameRoom.ScannedIsSeen` | RIOIOCPServer/Contents/Room.cpp:192-238 | as long as sectors and members agree, the scan finds the connected members near enough whose stored sector is around |
| `GameRoom.DisconnectedVanishes` | RIOIOCPServer/Contents/Zone.h:20-26 | marking a player as no longer connected takes it, and nobody else, out of every view, wherever it is stored |
| `GameRoom.LoginKeeps` | RIOIOCPServer/Contents/Room.cpp:49-71 | logging in keeps players and sectors a partition |
| `GameRoom.LogoutKeeps` | RIOIOCPServer/Contents/Room.cpp:79-92 | logging out without interruption, even twice, keeps the partition |
| `GameRoom.SyncKeeps` | RIOIOCPServer/Contents/Zone.h:20 | changing sectors without interruption keeps the partition |
| `Membership.MoverIsSync` | RIOIOCPServer/Contents/Zone.h:20 | the erase, insert and store of a move, run in a row, are the move as a whole |
| `Membership.LeaverIsLogout` | RIOIOCPServer/Contents/Room.cpp:79-92 | the four operations of Logout, run in a row, are Logout as a whole |
| `RoomSafety.StepKeepsInv` | RIOIOCPServer/Contents/Room.cpp:49-104 | every packet, disconnect, destructor and single operation of a job keeps: who is connected is a member and who is not has a logout job coming, up to one operation; the login count is the number of members minus the logout jobs run for players already gone; and every player whose jobs never overlapped is where its jobs under way put it |
| `RoomSafety.RunKeepsInv` | RIOIOCPServer/Contents/Room.cpp:49-104 | the same over runs of any length |
| `RoomSafety.RestingIsPartition` | RIOIOCPServer/Contents/Room.cpp:49-104 | with no job under way and no overlap so far, players and sectors are a partition |
| `RoomSafety.ReachableStates` | RIOIOCPServer/Contents/Room.cpp:49-104 | in every reachable state at rest, each player none of whose jobs overlapped is in its stored sector exactly if it is a member; the facts about connections and the count hold whatever overlapped |
| `RoomSafety.QuietViewsAgree` | RIOIOCPServer/Contents/Room.cpp:192-238 | once all moves are handled and none overlapped, the scan finds exactly the connected players in range |
| `RoomConditions.LeavingKeepsExactly` | RIOIOCPServer/Session/RioServerSession.cpp:72-88 | from a state at rest, over all runs in which no C2S_MOVE of the player arrives, it stays in its stored sector exactly as long as it is a member, if and only if no move with something to do waits together with a logout job or an owning session |
| `RoomConditions.JobsKeepExactly` | RIOIOCPServer/Contents/Room.cpp:79-104 | the pending jobs alone leave a player where it belongs under every interleaving if and only if no move with something to do and no logout job of it wait together |
| `RoomConditions.TwoMovesKeepExactly` | RIOIOCPServer/Contents/Room.cpp:100-104 | over all runs in which the session stays and at most two C2S_MOVE packets of the player arrive, first p1 and then p2, it stays where it belongs if and only if both lead to one zone or one of them to its stored sector |
| `RoomConditions.AnyMovesKeepExactly` | RIOIOCPServer/Contents/Room.cpp:100-104 | the same with any number of packets and a set of positions: if and only if these all lie in one zone |
| `RoomConditions.MovesAndLeavingKeepExactly` | RIOIOCPServer/Contents/Room.cpp:79-104 | the same when the session may also end: if and only if all positions lie in the stored sector |
| `RoomRaces.OtherStep` | RIOIOCPServer/Contents/Room.cpp:49-104 | no packet, disconnect or job of others changes anything about a player |
| `RoomRaces.StillStep` | RIOIOCPServer/Contents/Room.cpp:79-104 | a player whose waiting moves have nothing to do stays so, logged out or not, until its own next C2S_MOVE |
| `RoomRaces.MovingStep` | RIOIOCPServer/Contents/Zone.h:20 | any number of moves of one player to the same sector, in different zones and at once, leave it there |
| `RoomRaces.AloneStep` | RIOIOCPServer/Contents/Zone.h:20 | while moves wait in one zone only and no other has anything to do, one move at a time is under way and each finds the player where the last one left it |
| `RoomSchedules.EndUnsettles` | RIOIOCPServer/Session/RioServerSession.cpp:72-88 | the zone looks, the session is disconnected or ends, the room logs the player out, the zone inserts it: the player ends in a sector and is no member |
| `RoomSchedules.OverlapUnsettles` | RIOIOCPServer/Contents/Room.cpp:79-92 | the same with a logout job that waits already |
| `RoomSchedules.MovesInTwoZones` | RIOIOCPServer/Contents/Room.cpp:100-104 | two C2S_MOVE packets to different zones, neither to the stored sector, can leave a player in two sectors |
| `RoomSchedules.ToAndFro` | RIOIOCPServer/Contents/Room.cpp:100-104 | four packets to and fro between two zones can do so from one of the two sectors |
| `RoomSchedules.ZonesAreFair` | RIOIOCPServer/Contents/Room.cpp:100-104 | over every run, each zone takes its moves in the order in which packets posted them |
| `RoomSchedules.RoomIsFair` | RIOIOCPServer/Contents/Room.cpp:79-92 | over every run, the room takes its logout jobs in the order in which they were posted |
| `RoomConditions.PartitionCanBreak` | RIOIOCPServer/Contents/Room.cpp:100-104 | from start-up, a run that ends at rest with sectors and members disagreeing |
| `LoginCount.DisconnectsCountRight` | RIOIOCPServer/Session/RioServerSession.cpp:30-42 | without C2S_LOGOUT, whatever jobs overlap, the login count is the number of members, up to one operation of the logout job under way, and every player gets at most one logout job |
| `LoginCount.StepKeepsClean` | RIOIOCPServer/Session/RioServerSession.cpp:72-88 | pending logout jobs stay for different members exactly if a step posts none for a player that has one or is gone |
| `LoginCount.DrainCounts` | RIOIOCPServer/Contents/Room.cpp:79-92 | running the queued jobs keeps the difference between members and count exactly when they are for different members of the room, and otherwise enlarges it |
| `LoginCount.LogoutThenDisconnect` | RIOIOCPServer/Session/RioServerSession.cpp:72-88 | C2S_LOGOUT followed by the disconnect before its job has run ends, all logout jobs finished, with a wrong count |
| `LoginCount.SecondLoginStrands` | RIOIOCPServer/Session/RioServerSession.cpp:72-88 | a second C2S_LOGIN on a session leaves its first player without an owner exactly if that player is connected with no job pending |
| `LoginCount.StrandedForever` | RIOIOCPServer/Session/RioServerSession.cpp:72-88 | no step ever removes such a player |
| `LoginCount.DisconnectSilences` | RIOIOCPServer/Session/RioServerSession.cpp:72-88 | over every run without a new C2S_LOGIN on it, a session whose disconnect has been handled, or which is destroyed, has no effect on the room any more |
| `ServerSession.RioServerSession.OnDisconnected` | RIOIOCPServer/Session/RioServerSession.cpp:72-88 | the guard and its post, then the session owns nobody |
| `ServerSession.RioServerSession.Disconnect` | ServerCore/Network/RioSession.h:42 | only the first call has an effect; when SetLinger fails it marks the session and leaves the player alone |
| `ServerSession.RioServerSession.Destroy` | RIOIOCPServer/Session/RioServerSession.cpp:30-42 | the destructor posts under the same guard |
| `StressTest.JobCntIsExact` | DummyClient/StressTest/StressTestClient.cpp:32 | the rounded-up quotient is the least number of turns that reaches every client |
| `StressTest.EveryClientOnce` | DummyClient/StressTest/StressTestClient.cpp:140-146 | every client is visited by exactly one thread in exactly one turn |
| `StressTest.StressTestClient.SendToServer` | DummyClient/StressTest/StressTestClient.cpp:131-158 | a thread sends for exactly its due clients, in order, and stamps only those |
| `StressTest.NextSend` | DummyClient/StressTest/StressTestClient.cpp:131-158 | a client that was stamped is sent to again exactly if, on the clock read for it, a whole send duration has passed |
| `StressTest.StressTestClient.ResetSendTime` | DummyClient/StressTest/StressTestClient.cpp:295-310 | client i gets the start time plus i times the send duration divided by the number of clients |
| `StressTest.StaggeredWithinDuration` | DummyClient/StressTest/StressTestClient.cpp:295-310 | these send times grow with i and stay within one send duration |
| `StressTest.StaggeredIsShare` | DummyClient/StressTest/StressTestClient.cpp:295-310 | the delay of client i is i times the send duration divided by the number of clients, rounded down: in integers, both bounds |
| `StressTest.StressTestClient.Grow` | DummyClient/StressTest/StressTestClient.cpp:250-263 | the division of work stays valid when clients are added, and all send times are spread anew |
| `StressTest.MeanOfOneMore` | DummyClient/StressTest/DelayManager.cpp:12-17 | one update turns the mean of n samples into the mean of n + 1 |
| `StressTest.DelayChecker.UpdateAvgDelay` | DummyClient/StressTest/DelayManager.cpp:12-17 | the average is the mean of all samples since the last reset |
| `StressTest.DelayChecker.Reset` | DummyClient/StressTest/DelayManager.cpp:33-37 | a reset forgets all samples |
| `StressTest.MeanIsOrderFree` | DummyClient/StressTest/DelayManager.cpp:12-17 | samples in another order give the same average |
| `StressTest.MeanIsBetween` | DummyClient/StressTest/DelayManager.cpp:12-17 | the average lies between any bounds of the samples |

## Bodies behind the declarations

RioSession.cpp, RingBuffer.cpp, Zone.cpp and the server's PacketHandler.h carry comments in another encoding than
UTF-8, so the rows above cite the declarations or the constants instead. The modelled bodies are these.

- OnRecv, extraction: ServerCore/Network/RioSession.cpp lines 386-413; ProcessRecv: 312-344.
- SendDeferred: ServerCore/Network/RioSession.cpp lines 105-187; RegisterSend: 240-282; ProcessSend: 354-376; Send: 72-80; Disconnect: 44-66.
- WriteBuffer: ServerCore/Network/RingBuffer.cpp lines 70-110; OnWriteBuffer: 166-177; OnReadBuffer: 185-196; GetChunkWriteSize: 203-213; AdjustPos: 238-266.
- Zone::MovePlayer: RIOIOCPServer/Contents/Zone.cpp lines 27-104; Zone::Chat: 173-204; Zone::IsNear: 220-229.
- Handle_LOGIN: RIOIOCPServer/Session/PacketHandler.h lines 95-129 (ServerSession.RioServerSession.HandleLogin); Handle_C2S_MOVE: 136-185 (HandleMove); Handle_LOGOUT: 192-212 (HandleLogout).

## Left out

- Sockets, RIO and IOCP calls, completion dispatch, accept loops, console output and the functions that fill messages.
- m_jobCount as a 32-bit integer: the model's counter does not wrap, which takes 2^31 outstanding jobs.
- Tick deadlines, spurious exchange failures and the network's answers are arbitrary; clocks are parameters.
- LCurrentJobQueue, m_bAllocated, m_threadId and PushToList: written or declared, but never read by the code in use.
- LockQueue is an atomic first-in-first-out queue here; its code takes the write lock around each operation.
- The loads and stores of m_threadCnt are atomic steps; in C++ this race has no defined result.
- ReadUnlock is taken only by a thread that holds a read lock, as the lock guards do.
- Memory ordering: every atomic operation is sequentially consistent, as the code's default orders are.
- The classes of C2S_MOVE, S2C_ENTER and the other messages: their schemas are covered by the laws for every schema; only PLAYER_POS_INFO and S2C_LOGIN_RESULT are modelled statement by statement.
- pos_info is an owned value inside LoginResult.Packet; the object it stands for is created around each operation on it.
- InternalSerialize appends to a byte sequence; advancing a raw pointer in a preallocated array, EnsureSpace and cached sizes are not modelled.
- The contents of a message after a failed parse are unspecified.
- Arenas, descriptors, reflection and swapping. The library functions behind the generated code (varint and size parsing, unknown fields, UTF-8 checks) are not part of the repository beyond their headers; they follow those headers, the Protocol Buffers "Encoding" specification and section 3 of RFC 3629.
- RingBuffer.RioBuffer.AdjustPos: overlapping memcpy calls are modelled as memmove; in C++ their result is undefined.
- RingBuffer.ReadBuffer is not modelled; nothing calls it.
- RioSession.Sender.SendDeferred: completions that arrive on another thread during one call, the 20 ms commit interval and RIOSend's commit are not modelled.
- GameRoom.Room.Chat: the hearers are a set; a player that is in two sectors is sent the chat twice.
- GameRoom.Room.MovePlayer: the view lists kept by the players and the enter, move and leave messages sent for them.
- Framing.CreateNetBuffer: the template is instantiated for S2C_LOGIN_RESULT only; Framing.FillNetBuffer is its part that does not depend on the message.
- Login and the disconnect guard are one step each, as are the two integer stores of a sector index and, when a zone looks at a player, the reads of its two coordinates, which C2S_MOVE stores one after the other on another thread; two threads inside the same guard at once are not modelled.
- C2S_LOGOUT and C2S_MOVE while the session's player pointer is null, before a login or after a disconnect: the code dereferences it, for C2S_MOVE once the packet's session_id equals the session's, which is 0 before a login. The model takes these packets only with a player.
- StressTest.StressTestClient.ResetSendTime: in the normal mode the sender threads are started, and the running flag raised, before the first call; the time until then is not modelled.
- Players are entries of a table by id instead of shared objects, and the stored index of a player that was never logged in is (0, 0).
- Coordinates are reals, and distances are compared by their squares; float rounding and overflow on conversion to int are not modelled.
- StressTest.DelayChecker.UpdateAvgDelay: averages are real numbers without rounding, and the mutex around them is not modelled.
