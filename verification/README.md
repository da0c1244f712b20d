# CloudNode in Dafny

CloudNode moves files between named clients. A room server relays signalling messages (joins, leaves, SDP offers, file
offers and their answers) over one ordered connection per client; the bytes of files travel on a second ordered channel
for each sender, receiver and room, and nothing in a chunk of bytes says which file it belongs to. Correctness rests on
queues that stay in step at both ends, on tables that agree across machines, and on a few algorithms that the two ends
must compute alike. This project models those parts and proves what they promise, for all inputs, all runs and all
interleavings of the modelled steps.

To verify it: `dafny verify dfyconfig.toml`, with Dafny 4.11.

## How it is organised

| file | what it is about |
|---|---|
| `Alignment.dfy` | one sender, receiver and room: offers, answers, accepted-file queue, chunks, the receiver's deque; the invariant that keeps every chunk in its own file |
| `Session.dfy` | all clients at once: shared connections, shared tables of pending offers; every step of the whole is at most one step of each link of `Alignment.dfy` |
| `Delivery.dfy` | that the server's relays, the sender's tables and the receiver's deques are those of `Session.dfy` |
| `Receiver.dfy` | the receiving client: judging an offer, the deques of accepted files, chunks |
| `Sender.dfy`, `Queues.dfy` | what becomes of every offered file up to the worker that sends it |
| `Channel.dfy` | the worker's and the iOS client's chunk loops, their buffer bounds, and that the worker's sends are the sends of `Alignment.dfy` |
| `Locks.dfy` | file locks; writers of one file exclude each other and its readers; what locking comes to for the receiver |
| `Server.dfy`, `News.dfy`, `Rosters.dfy`, `Rooms.dfy`, `Relays.dfy` | the server's room table, who is told what by a join, a leave and a close, the clients' copies of the table, and the addressing of relayed messages |
| `Worker.dfy`, `Offering.dfy` | the client's own thread: joining rooms, waiting for peers, offering files in order, while other threads act; when it comes to an offer, and what stands behind it |
| `Crc.dfy` | the checksum loop against the bit-serial definition of IEEE 802.3 section 3.2.9, and which changes it detects |
| `Paths.dfy`, `Places.dfy` | the lexical path operations of [fs.path.generic] in ISO C++20 that the program calls, the places that paths lead to, and where offered files land |
| `Specs.dfy`, `Text.dfy` | the `peer:room:path` option parser |
| `Watcher.dfy` | debouncing and coalescing of file changes |
| `IosManager.dfy`, `IosSession.dfy` | the iOS client's connection manager and its remote candidates |
| `Files.dfy`, `Messages.dfy`, `Wrappers.dfy` | input streams, message shapes, small helpers |

Most components come in two layers. Functions and lemmas on values say what a step does to the state and what holds over
whole runs; classes with the original's fields carry methods that are proved to take exactly those steps.

## Results that are not what one might expect

- *Alignment is exact.* From an orderly state a step keeps the byte streams aligned if and only if it is harmless: it
  does not lose the acceptance of a file with bytes (under way, or for want of a channel), does not keep such a file from
  being locked and opened at either end, does not break off reading it, and does not fail to write any chunk of it but the
  last (`Alignment.AlignedExactly`, `Session.AllAlignedExactly`). The code accepts a file whose destination it could not
  lock or open (src/WebRTCClient.cpp:887, 897-906); `Locks.OpenedExactly` says when that happens and
  `Locks.SecondWriterDropped` shows the ordinary way to it: two senders, one destination. After a failed write it goes on
  to the next file (src/WebRTCClient.cpp:943-955), which then gets the rest of the failed one's bytes.
- *Roster agreement can be lost on a reconnect.* `Rosters.RosterAgreementExactly` says by which joins, and
  `Rosters.ReconnectDisagrees` is such a run: a client's new socket opens before its old one is dropped and joins another
  room first. The live-socket invariant holds even then.
- *A negative size breaks the receiver's deque*, and only that does (`Receiver.AcceptKeepsInbox`).
- *An awaited join can be missed.* A received file that is finished sets the client's state to "running" whatever it
  was. Whether that happens before the join arrives, or after it and before the waiting thread has the lock again, the
  wait times out; `Worker.JoinNoticedExactly` gives the exact condition and `Offering.OfferingClient.AwaitJoin` meets it.
- *An offer may outlive its roster.* The client's thread looks for the peer, and later for the channel, without holding
  on to the connection (src/WebRTCClient.cpp:1452-1470), which may be lost in between (src/WebRTCClient.cpp:1051-1067).
  At the moment of an offer the roster behind it is of the present connection if and only if none was lost since the peer
  was found or a later roster shows it again (`Worker.ShownExactly`), and the SDP offer is if and only if none was lost
  since the channel was found (`Worker.CalledExactly`); `Worker.OfferOutlivesRoster` is a course of events in which the
  channel is of the present connection and the roster is not.
- *A reconnected iOS client can be ready without a session*, when the news that the old session opened comes after the
  rooms were joined again: `IosManager.LateOpenLeavesNoSession` is such a run, `IosManager.SessionKeptExactly` the exact
  step. The run rests on the order of the tasks that carry news to the manager's actor
  (ConnectionManager.swift:71-73, 169-172), which the language neither promises nor forbids.
- *Thirty-two bits is the limit.* Every change within 32 transmitted bits is detected; every 33-bit window has a change
  that is not (`Crc.ThirtyThreeBitsEscape`).

## Assumptions

Uuids are fresh; source files do not change between offer and transfer; `maxMessageSize` is positive; connections and
channels are ordered and lose nothing of what they deliver. Clocks, sockets, the file system and random uuids appear as
parameters or as arbitrary choices. In the session model offers carry a uuid and a size that is not negative, as every offer
the client makes does (`Delivery.MadeOfferCounts`); the server relays others too, and the receiver would take them in. The
alignment results speak of one signalling session.

## Model

| member | source | states |
|---|---|---|
| Alignment.EndToEndAlignment | src/WebRTCClient.cpp:165-214 | in every run of harmless steps, failed writes included, chunks under way ++ rest of the file being sent ++ queued files ++ files whose acceptance is under way are the unwritten rest of the receiver's front file ++ the rest of its deque |
| Alignment.FilesArriveIdentical | src/WebRTCClient.cpp:891-961 | the i-th file to leave the deque answers the i-th offer accepted: closed as complete it has exactly that file's bytes, and only an empty one or one whose last write failed leaves otherwise |
| Alignment.DrainedMeansArrived | src/WebRTCClient.cpp:478-509 | when no acceptance, queued file or chunk is under way, the deque is empty and every accepted file has left it |
| Alignment.StepKeeps | src/WebRTCClient.cpp:871-961 | each harmless step keeps the invariant: messages carry distinct pending uuids, and each chunk under way lies within the file at its turn |
| Alignment.AlignedExactly | src/WebRTCClient.cpp:887-959 | from an orderly state a step leaves the streams aligned if and only if it loses no acceptance of a file with bytes, underway or for want of a channel, gives up no such file for want of a lock or open at either end, breaks off no reading, and fails to write no chunk but the last of its file |
| Session.StepProjects | src/WebRTCClient.cpp:253-272 | each step of all clients together, over shared connections and shared pending tables, is at most one step of each sender-receiver-room link, and leaves the other links as they are |
| Session.EveryChannelAligned | src/WebRTCClient.cpp:165-214 | every channel of every pair and room is aligned in every harmless run of the whole |
| Session.EveryFileArrivesIdentical | src/WebRTCClient.cpp:933-959 | every file that left a deque answers an offer made for that sender, receiver and room; closed as complete it is that file byte for byte, and none with bytes left before its last chunk came |
| Session.AllAlignedExactly | src/WebRTCClient.cpp:478-509 | a step leaves all channels aligned if and only if it is harmless to each of them |
| Delivery.RelayOrDrop | src/WebRTCServer.cpp:166-215 | the server's handling of a client's next offer or answer is exactly one relay of it to the client it names, read there as it was meant, or its loss; nobody else's messages change |
| Delivery.OtherMessages | src/WebRTCServer.cpp:257-303 | any message that is no offer or answer of the session model (completions, SDP offers, and offers without a uuid, of negative size or with a name that leads nowhere) leaves the offers and answers under way as they are |
| Delivery.MadeOfferCounts | src/WebRTCClient.cpp:296-342 | every offer the client makes is one the session model knows, with the file's own length, unless its name leads nowhere at the receiver |
| Delivery.JudgedAsOffered | src/WebRTCClient.cpp:808-888 | the receiver's judgement of such an offer is one of the session's verdicts, on that offer's key and file, and its reply is the session's answer; it is passed over exactly if its directory cannot be made |
| Delivery.AcceptIsTake | src/WebRTCClient.cpp:871-884 | taking a file in is the session's acceptance, on the deques of all keys |
| Delivery.ChunkIsDeliver | src/WebRTCClient.cpp:926-961 | writing a chunk, or failing to, is the session's delivery of it, on the deques of all keys |
| Delivery.RespondIsTakeAnswer | src/WebRTCClient.cpp:477-509 | the client's handling of a response, with or without a channel for it, is the session's step on its tables and queues |
| Delivery.GiveIsDequeue | src/WebRTCClient.cpp:165-182 | the path a worker is given is the file the session's channel takes next |
| Receiver.EveryDequeInOrder | src/WebRTCClient.cpp:871-915 | after any offers and chunks of any size with any failures, no key holds an empty deque, each front is open and short of its size, and everything behind it is unopened |
| Receiver.ChunkKeepsInbox | src/WebRTCClient.cpp:933-959 | a chunk keeps the deques in order and touches no other key's |
| Receiver.AcceptKeepsInbox | src/WebRTCClient.cpp:871-884 | an accepted file keeps the deques in order if and only if its size is not negative, or it has no deque to wait in and cannot be opened; other keys are untouched |
| Receiver.StartNextFates | src/WebRTCClient.cpp:890-915 | starting the next file gives up everything before the first file that has bytes and opens, each for its own reason: no lock, no opening, or nothing to receive |
| Receiver.ClosedForReason | src/WebRTCClient.cpp:933-959 | a chunk leaves its file at the front exactly if it was written and leaves it short; otherwise the file is closed as complete, oversized or failed, exactly for that reason, and the next is started |
| Receiver.ReportedAlike | src/WebRTCClient.cpp:917-923 | two destinations are reported alike only if they lead to the same place, and always if they do and neither ends in a slash |
| Receiver.StartRecords | src/WebRTCClient.cpp:890-915 | of the files given up when starting, exactly those that could be opened have their destination recorded |
| Receiver.ChunkRecords | src/WebRTCClient.cpp:940-959 | a chunk has its file's destination recorded exactly if it closes the file, for whatever reason |
| Receiver.DuplicateRefused | src/WebRTCClient.cpp:855-869 | an offer of a file that is already there unchanged is refused |
| Receiver.SmallChangeNotRefused | src/WebRTCClient.cpp:855-869 | an offer of a file of equal length that differs only inside four consecutive bytes is never refused as a duplicate |
| Receiver.ReceivingClient.StartNextIncoming | src/WebRTCClient.cpp:890-915 | the loop stops at the first file that can be opened and has bytes, gives up all before it, and records the destinations of the empty ones |
| Receiver.ReceivingClient.OnFileOffer | src/WebRTCClient.cpp:808-888 | malformed, escaping and unpreparable offers change nothing and get no answer, duplicates get a rejection, everything else is enqueued under its sender and room and gets an acceptance |
| Receiver.ReceivingClient.OnIncomingChunk | src/WebRTCClient.cpp:926-969 | a chunk goes to the front file of its key; one that completes, exceeds or fails it closes it, records its destination and starts the next; the state becomes running only when a file completed |
| Receiver.ReceivingClient.TakeReceivedFile | src/WebRTCClient.cpp:917-923 | a path is taken once, exactly when the place it is reported as is recorded; the rows above say when a place is recorded and when two paths are reported alike |
| Sender.OffersConserved | src/WebRTCClient.cpp:253-272 | in every run every uuid ever offered is in exactly one of pending, accepted, rejected, withdrawn and dropped, once, and each queue was given exactly the paths of the offers accepted on it, in that order, all for its own peer and room |
| Sender.FatesAreFinal | src/WebRTCClient.cpp:331-357 | in every run what is accepted, rejected, withdrawn or dropped stays so, and acceptance order only grows at its end |
| Sender.FatesHaveCauses | src/WebRTCClient.cpp:253-272 | in every run an offer is rejected, accepted or dropped only if an answer to it says so, withdrawn only if a sending failed, and none exists that was not recorded |
| Sender.AnswerSettles | src/WebRTCClient.cpp:477-563 | an answer to a pending offer settles it as it says; an accepted one is queued exactly if there is a channel, and dropped otherwise |
| Sender.UnsentWithdrawn | src/WebRTCClient.cpp:344-357 | an offer that cannot be sent is withdrawn if it is still pending |
| Sender.LostConnectionDrops | src/WebRTCClient.cpp:1041-1068 | after a lost connection the acceptance of a pending offer finds no channel and is dropped |
| Sender.WorkerTakesAccepted | src/WebRTCClient.cpp:478-500 | the paths a worker was given are, in any run, the first paths accepted on its queue, in order, each accepted for the queue's peer and room |
| Sender.SecondResponseIgnored | src/WebRTCClient.cpp:263-271 | a response to an offer already answered changes nothing |
| Sender.OfferUnderstood | src/WebRTCClient.cpp:296-342 | whatever the file and the directories, the receiver of a relayed offer passes it over exactly if its name leads nowhere or the directory cannot be made, refuses it exactly if a file there has the same checksum as the sender's, and otherwise waits for as many bytes as the file has, at the destination its name leads to, under the sender's name; both answers carry the offer's uuid |
| Sender.OfferJudged | src/WebRTCClient.cpp:808-884 | a complete offer is passed over exactly if its name leads nowhere or the directory cannot be made, and refused exactly if otherwise a file with the offered checksum is there |
| Sender.PresentFileRefused | src/WebRTCClient.cpp:855-869 | a receiver that already has the identical file refuses the offer the client makes of it |
| Sender.ChangedFileTaken | src/WebRTCClient.cpp:855-884 | and takes it if its file of the same length differs only inside four consecutive bytes |
| Sender.OfferIsTwoSteps | src/WebRTCClient.cpp:331-357 | an offer that is sent, or withdrawn because it cannot be, is the two steps of the run model |
| Sender.ChannelIsTwoSteps | src/WebRTCClient.cpp:232-248 | a channel that is made, or taken back because its offer cannot be sent, is the steps of the run model |
| Sender.ChannelKeptExactly | src/WebRTCClient.cpp:232-248 | a channel is in the table afterwards exactly if its own SDP offer went out, with an empty queue of its own; no other channel or queue is touched |
| Sender.SendingClient.TakePendingOffer | src/WebRTCClient.cpp:253-272 | finds and removes the pending offer with this uuid, and changes nothing without one |
| Sender.SendingClient.OnFileAccept | src/WebRTCClient.cpp:477-509 | an acceptance takes its offer, and its path goes to the end of the queue of the offer's own peer and room, if there is a channel; only then does the client stop waiting |
| Sender.SendingClient.OnFileReject | src/WebRTCClient.cpp:546-563 | a rejection takes its offer and ends the wait |
| Sender.SendingClient.SendFileOffer | src/WebRTCClient.cpp:276-360 | an offer is made only for a readable file with a channel, with the name, size and checksum that the receiver needs; failure to send withdraws it |
| Sender.SendingClient.Inspect | include/MimeDetector.hpp:142-164 | computes the description that every offer carries; the rows on offers understood, refused and taken say what it must hold |
| Sender.SendingClient.MakeDataChannel | src/WebRTCClient.cpp:103-249 | a channel has a new empty queue, and is in the table afterwards exactly if its SDP offer was sent |
| Sender.SendingClient.NextPath | src/WebRTCClient.cpp:165-176 | the worker is given the first path of its queue, and that is what the history of its paths says |
| Sender.SendingClient.OnMessageClose | src/WebRTCClient.cpp:1041-1068 | losing the connection forgets the channels and keeps the pending offers, unless the client is exiting |
| Queues.FileQueue.AddItem | src/Queue.cpp:35-40 | an item goes to the end, a missing one nowhere |
| Queues.FileQueue.GetItem | src/Queue.cpp:48-60 | items come out in the order in which they were added |
| Channel.ChunksAreTheFile | src/WebRTCClient.cpp:184-203 | the chunks of a file concatenate to it, none is empty or above the maximum, and all but the last are full |
| Channel.SendFile | src/WebRTCClient.cpp:182-203 | whatever the channel drains and whenever it closes, what is sent is a beginning of the file's chunks, all of them on success; no more than twice the maximum is ever buffered, and it ends; only the network's closing of the channel keeps it from success |
| Channel.TransferFiles | src/WebRTCClient.cpp:165-214 | while the channel stays open all sendable files of the queue are sent, in order, and announced; if it closes, what was sent is a beginning of that and only files sent whole were announced |
| Channel.StreamIsTheFiles | src/WebRTCClient.cpp:165-203 | the worker's whole output is the contents of the sendable files one after the other |
| Channel.SendableExactly | src/WebRTCClient.cpp:165-182 | of the queued paths exactly the non-empty ones that can be locked and opened are sent, each as often as it was queued |
| Channel.WorkerIsTheLink | src/WebRTCClient.cpp:176-203 | sending a whole file as the worker does is a run of the link's own steps with the same chunks |
| Channel.DataChannel.WaitForCapacity | src/WebRTCClient.cpp:155-163 | a wait succeeds with at most half the maximum buffered, or fails because the channel is closed |
| Channel.SendData | iOS/Sources/CloudNodeClient/ConnectionManager.swift:275-289 | the iOS loop sends a beginning of the file's chunks of 16384 bytes, all of them exactly if no attempt to send is refused, and never has more than 2^20 + 16384 bytes buffered |
| Locks.GrantKeepsConsistent | include/FileLock.hpp:40-44 | granting a lock keeps exclusive locks exclusive if and only if no conflicting lock is held |
| Locks.FileLock.Acquire | include/FileLock.hpp:33-47 | the old lock is given up in any case; the new one is held exactly if the file opens and nobody holds a conflicting one; nobody else's lock changes |
| Locks.FileLock.Release | include/FileLock.hpp:49-54 | nothing is held afterwards and nobody else's lock changes |
| Locks.FileLock.TakeOver | include/FileLock.hpp:18-24 | move assignment gives up the old lock and takes over the other's, which is left empty |
| Locks.LockedIfstream.constructor | include/FileLock.hpp:63-69 | the stream holds a shared lock from the start if its file opens |
| Locks.LockedIfstream.Destroy | include/FileLock.hpp:71-74 | and holds none once it is destroyed |
| Locks.StartingHoldsOneLock | src/WebRTCClient.cpp:891-915 | starting the next file lock by lock is what the receiver's model does when a lock fails exactly while someone else holds the file; the one lock left is that of the file opened |
| Locks.AlwaysGuarded | include/WebRTCClient.hpp:401-406 | in every run a key holds a lock exactly while its front file is open, and it is that file's, exclusively |
| Locks.WritersExclude | src/WebRTCClient.cpp:176-180 | in every run two files being received are never the same file, and neither is one being received and one that a worker is reading or another program has locked |
| Locks.OpenedExactly | src/WebRTCClient.cpp:871-887 | an accepted file that is first in turn is opened exactly if it has bytes, can be opened and nobody holds its destination; otherwise it is gone at once |
| Locks.SecondWriterDropped | src/WebRTCClient.cpp:897-901 | a second sender's file for a destination being received is dropped although it is accepted |
| Locks.ReadExactly | include/FileLock.hpp:63-74 | after any run a worker may read a file exactly if it is not being received into and no other program has it locked exclusively; other readers never stand in its way, and ending the reading gives up just that lock |
| Server.CloseLive | src/WebRTCServer.cpp:501-519 | closing a socket leaves every remaining member of every room with an open socket of its own |
| Server.RoomServer.OnJoin | src/WebRTCServer.cpp:66-93 | a first join adds the member, records its socket and broadcasts the new roster to all members; a repeated one changes nothing; live sockets stay live; what is broadcast, and to whom, is said by the rows of `News` |
| Server.RoomServer.SendJoinNotification | src/WebRTCServer.cpp:29-62 | one roster goes to the open socket of a known name; an unknown name is passed over |
| Server.RoomServer.SendLeaveNotification | src/WebRTCServer.cpp:97-130 | the same for a departure |
| Server.RoomServer.Leave | src/WebRTCServer.cpp:134-143 | the member is removed and every member left is told the roster |
| Server.RoomServer.OnLeave | src/WebRTCServer.cpp:147-162 | the same for the socket's own name |
| Server.RoomServer.OnMessageClose | src/WebRTCServer.cpp:501-519 | the name leaves every room it is in, each once, and every live member is told |
| Server.RoomServer.HandleFile | src/WebRTCServer.cpp:166-215 | a file message is relayed, with its true sender's name put in, exactly if both are in the room it names; the room comes into being if it did not exist |
| Server.RoomServer.Forward | src/WebRTCServer.cpp:257-353 | completions and SDP offers are relayed under the same condition and create no room |
| News.JoinIsHeard | src/WebRTCServer.cpp:66-93 | a first join is announced, as a join by this name with the new member set, to the connection of every member including the joiner, and to nobody else |
| News.JoinerStopsWaiting | src/WebRTCServer.cpp:89-92 | the last message on the joiner's own connection is the roster that moves a client waiting for this join to JOINED |
| News.LeaveIsHeard | src/WebRTCServer.cpp:134-143 | a leave is announced, as a departure of this name with the members left, to the connection of every member left and to nobody else |
| News.CloseIsHeard | src/WebRTCServer.cpp:501-519 | a closed connection is announced as a departure from each of its rooms to the connection of every member left there |
| News.RelayKeepsMembers | src/WebRTCServer.cpp:166-215 | relaying changes nobody's membership and no socket; a room comes into being exactly by an offer or answer that names it |
| Rosters.MembersHaveLiveSockets | src/WebRTCServer.cpp:85-92 | in every run, shared names or not, each member of any room has a recorded socket that is open and is its own |
| Rosters.RosterAgreement | src/WebRTCServer.cpp:66-93 | in every run in which each join is of a room the name is already in, or comes from the socket the name leads to, or finds the name in no room: the last undelivered roster of a room, or a connected member's own table if none is under way, is the server's member set |
| Rosters.RosterAgreementExactly | src/WebRTCServer.cpp:66-93 | agreement holds throughout a run, shared names or not, if and only if no join moves a name to a live connection that will not have been told some other room of that name |
| Rosters.StepAgreesExactly | src/WebRTCServer.cpp:66-143 | one event keeps agreement if and only if it is not such a join; leaving, closing and relaying always keep it |
| Rosters.UniqueJoinsAreSafe | src/WebRTCServer.cpp:85-92 | joins of a socket that shares its name with no other open socket are safe |
| Rosters.ReconnectDisagrees | src/MessagePortClient.cpp:25-46 | a client that lost its connection, reconnects before the server dropped the old socket, and joins another room first, makes agreement fail |
| Rosters.SharedNameDisagrees | src/WebRTCServer.cpp:85-92 | a second socket under a member's name that joins another room makes agreement fail |
| Rooms.RoomClient.Join | src/WebRTC.cpp:110-133 | adds the peer and says whether it was new |
| Rooms.RoomClient.Leave | src/WebRTC.cpp:136-166 | removes the peer if it is there, says so, and creates no room |
| Rooms.RoomClient.OnJoin | src/WebRTCClient.cpp:395-441 | a roster replaces the room's entry as the run model says; the client's own awaited join is noticed, and only that |
| Rooms.RoomClient.OnLeave | src/WebRTCClient.cpp:445-473 | a roster replaces the room's entry, and no other room changes; if its list is not all names, the one who left is removed all the same |
| Rooms.RoomClient.OnMessageClose | src/WebRTCClient.cpp:1041-1068 | losing the connection forgets the rooms, unless the client is exiting |
| Relays.AnswerReachesOfferer | src/WebRTCServer.cpp:166-215 | an offer from A relayed to B and answered by B reaches A's only open socket with uuid, room and file unchanged and B's name on it |
| Relays.HeardExactly | src/WebRTCServer.cpp:184-214 | a complete file message reaches somebody if and only if its sender and the client it is for are both in the room it names: the table lookup behind the room check never fails |
| Relays.RelaysAreTruthful | src/WebRTCServer.cpp:194-214 | in every run each file message on a connection was sent by the client it names, for the client whose connection it is, while both were in its room |
| Worker.JoinNoticedExactly | src/WebRTCClient.cpp:1366-1386 | a client that awaits its join finds it noticed, once it holds the lock again, if and only if the join is among what happened and neither before nor after it a received file was finished or the connection closed or stopped |
| Worker.WaitEndsExactly | src/WebRTCClient.cpp:503-506 | a wait for the answer to an offer, or for a pong, goes on exactly until a response, or a pong, or a finished file, a closed connection or a stop |
| Offering.JoinedExactly | src/WebRTCClient.cpp:1366-1384 | a join leaves a client that goes on exactly if its request went out, its own join came back and nothing disturbed the wait; the client is then JOINED |
| Offering.OfferedExactly | src/WebRTCClient.cpp:1430-1481 | an entry is offered if and only if the wait for its peer succeeds, its channel is there or can be made, its file can be read, the channel is still in the table at the last look, and the offer goes out |
| Offering.OfferedWhenAllGoesWell | src/WebRTCClient.cpp:1430-1481 | so it is offered, and the list goes on, whenever its join is answered, its peer arrives, a channel can be had, the file can be read and the offer goes out, and nothing ends the client or its connection meanwhile |
| Offering.ArrivesShows | src/WebRTCClient.cpp:1452-1457 | with the connection kept, the wait finds the peer exactly if the last roster of the room, or else the table as it was, shows it |
| Offering.AwaitsAnswerExactly | src/WebRTCClient.cpp:327-330 | after an offer the client awaits its answer until the first thing happens that ends such a wait |
| Offering.FailureIsExit | src/WebRTCClient.cpp:1453-1478 | an entry that fails without the connection closing ends the client |
| Offering.ChannelsLostExactly | src/WebRTCClient.cpp:1041-1068 | the channels are lost if and only if the connection closes on a client that is not exiting; otherwise all are kept |
| Offering.MarksExactly | src/WebRTCClient.cpp:1434-1480 | the i-th entry is marked as offered exactly as its own turn says, after the turns before it, all of which succeeded |
| Offering.OfferingClient.AwaitJoin | src/WebRTCClient.cpp:1366-1384 | the trace grows by the request, if it went out, and the marks of what other threads then did; the state is the one they left, or EXIT if that is none of JOINED, INIT and EXIT; and the wait succeeds exactly if the join was answered and nothing disturbed the wait |
| Offering.OfferingClient.JoinRooms | src/WebRTCClient.cpp:1348-1387 | every room that has a name and does not show the client is joined in turn until one fails; on success each named room's roster has shown the client; failure happens only in state INIT or EXIT |
| Offering.OfferingClient.ConnectPeer | src/WebRTCClient.cpp:1391-1426 | it succeeds exactly if the wait finds the peer with the client not ended and the channel is there or can be made; then the peer was found by a roster of the connection of that moment; failure happens only in state INIT or EXIT |
| Offering.OfferingClient.OfferFiles | src/WebRTCClient.cpp:1430-1481 | given what other threads and the environment do, the offers made are the entries marked by the specification that the rows above characterise, in order and each at most once; success marks every entry's outcome and failure happens only in state INIT or EXIT |
| Offering.OfferingClient.OfferFile | src/WebRTCClient.cpp:1437-1478 | the entry is offered exactly when the rows above say so, and then after its peer was found in its room and its channel in the table, both while this entry was handled; and the roster, or the SDP offer, behind the offer is of the connection of that moment under exactly the two conditions below |
| Worker.ShownExactly | src/WebRTCClient.cpp:1452-1470 | after the peer was found, a roster of the present connection shows it if and only if no connection was lost since, or a later roster shows it and none was lost after that |
| Worker.CalledExactly | src/WebRTCClient.cpp:317-326 | after the channel was found, with only other threads acting, its SDP offer is of the present connection if and only if no connection was lost since |
| Worker.EveryOfferBacked | src/WebRTCClient.cpp:1430-1481 | every offer ever made has a finding of its peer and then of its channel behind it to which these two conditions apply |
| Worker.OfferOutlivesRoster | src/WebRTCClient.cpp:1051-1067 | a course of events that keeps all the rules and ends with an offer whose channel is of the present connection and whose roster is not |
| Offering.OfferingClient.SendFileOffer | src/WebRTCClient.cpp:317-359 | an offer is sent exactly if the file can be read, its channel is in the table and the socket takes it; the channel was found within the same call, and the offer is backed by a roster and an SDP offer of the present connection under exactly the conditions above |
| Offering.OfferingClient.MakeDataChannel | src/WebRTCClient.cpp:232-248 | a channel enters the table exactly if a description is obtained and its SDP offer goes out, during the call |
| Offering.OfferingClient.Handle | src/WebRTCClient.cpp:1041-1068 | what other threads do makes no offer and keeps every table entry accounted for by the present connection; losing it clears both tables, unless the client is exiting |
| Crc.MakeTable | include/MimeDetector.hpp:109-116 | each table entry is eight clocks of the shift register on its index |
| Crc.GeneratorPowers | include/MimeDetector.hpp:113 | besides x^32 the generator has exactly the powers 26, 23, 22, 16, 12, 11, 10, 8, 7, 5, 4, 2, 1 and 0 of x |
| Crc.GetCrc | include/MimeDetector.hpp:103-126 | the table loop over blocks returns the bit-serial CRC-32 of the whole file, complemented at both ends |
| Crc.StandardForm | include/MimeDetector.hpp:117-126 | for every file of four bytes or more the checksum is the remainder of the file with its first 32 bits complemented, itself complemented, as section 3.2.9 of IEEE 802.3 defines it |
| Crc.SameResidue | include/MimeDetector.hpp:117-126 | a file followed by its own checksum leaves the same register, whatever the file |
| Crc.TableStepIsEightClocks | include/MimeDetector.hpp:122 | one table lookup is eight clocks of the register fed with the byte's bits |
| Crc.AnyBlocking | include/MimeDetector.hpp:120-125 | the table loop run over the blocks of a file one after the other, however it is cut, gives its checksum |
| Crc.SerialBijective | include/MimeDetector.hpp:122 | feeding any bits is a bijection of the register: every word comes from exactly one |
| Crc.SerialXor | include/MimeDetector.hpp:122 | feeding the sum of two messages to the sum of two registers gives the sum of the results |
| Crc.BurstDetected | include/MimeDetector.hpp:109-125 | a change confined to at most 32 consecutive transmitted bits always changes the register |
| Crc.FourByteChangeDetected | src/WebRTCClient.cpp:855-869 | files of equal length that differ only inside four consecutive bytes have different checksums |
| Crc.ThirtyThreeBitsEscape | include/MimeDetector.hpp:109-125 | every 33-bit window has a change that no surroundings reveal |
| Files.InputStream.Read | include/MimeDetector.hpp:120 | a read fills the buffer as far as the file goes; a short one counts its bytes and fails |
| Paths.TextRoundTrip | src/WebRTCClient.cpp:299-304 | a path survives being written as text and read back |
| Paths.NormalForm | src/WebRTCClient.cpp:298-304 | lexical normalisation gives a normal form: ".." only at the start of a relative path, no "." inside, at most a trailing slash; where it leads is said by the next row |
| Places.NormalLeads | src/WebRTCClient.cpp:298-304 | a path and its normal form lead to the same place, from wherever a relative one is read |
| Paths.DestinationConfined | src/WebRTCClient.cpp:836-849 | a name that is not refused leads to the receive directory followed by names without "..", so no step of the way leaves it and the end is beneath it unless the name is "." |
| Places.EscapeRefused | src/WebRTCClient.cpp:836-849 | a non-empty name is refused if and only if, read in a directory it does not mention, it leads out of that directory, whatever detours it takes |
| Paths.OfferLandsAtSamePlace | src/WebRTCClient.cpp:296-304 | a file is taken if and only if it is under the sender's directory, and then lands at the same relative place under the receiver's |
| Places.LandsByPlace | src/WebRTCClient.cpp:296-304 | a file is taken if and only if the place its path leads to is beneath the place of the sender's directory, and it then lands at the same relative place beneath the place of the receiver's, however the three paths are written |
| Paths.OfferWithoutDirectory | src/WebRTCClient.cpp:300-301 | without a sender's directory it lands at its whole absolute place under the receiver's |
| Places.LandsByWholePlace | src/WebRTCClient.cpp:300-301 | without a sender's directory it lands at the whole place its path leads to, beneath the receiver's |
| Specs.RoundTrip | src/WebRTCClient.cpp:20-46 | every list of specs with non-empty fields, no comma, and no colon in peer or room survives being written and parsed |
| Specs.ParseReadsTheText | src/WebRTCClient.cpp:20-46 | what is parsed prints back as the text without its empty entries |
| Specs.RefusedExactly | src/WebRTCClient.cpp:33-43 | text is refused exactly when one of its non-empty entries is no spec |
| Specs.ParseFileSpecs | src/WebRTCClient.cpp:20-46 | the loop accepts and returns exactly what the parsing of the split text does |
| Text.SplitJoin | src/WebRTCClient.cpp:22-29 | splitting undoes joining |
| Text.JoinSplit | src/WebRTCClient.cpp:22-29 | joining undoes splitting |
| Watcher.RemovedExactly | src/FileWatcher.cpp:183-193 | a removal is reported if and only if it was the last change |
| Watcher.AddedExactly | src/FileWatcher.cpp:183-193 | an addition is reported if and only if one that did not directly follow a removal was followed by none |
| Watcher.NetEffect | src/FileWatcher.cpp:183-193 | for histories files can have, the reported change is the net effect on the file |
| Watcher.RunRefinesBatches | src/FileWatcher.cpp:175-215 | in every run the pending table sums up exactly the notices since the last delivery, and each delivery is the sum of a whole batch that was quiet for its timeout |
| Watcher.NothingLost | src/FileWatcher.cpp:175-215 | every notice of a run is in exactly one batch, in order |
| Watcher.CreatedExactly | src/FileWatcher.cpp:154-171 | a path is held as newly created exactly while its creation has not been followed by its closing or removal |
| Watcher.ChildIsAppend | src/FileWatcher.cpp:151 | the path of a name in a directory is what the library's operator makes of the two |
| Watcher.ClosedWriteNoted | src/FileWatcher.cpp:161-165 | after any events, the closing of a written file is noted as an addition exactly if the file was created and its creation has not settled, and as a modification otherwise |
| Watcher.OtherChangesNoted | src/FileWatcher.cpp:154-171 | a file moved in is noted as added, one deleted or moved out as removed, and a mere creation not at all |
| Watcher.NoFileNotNoted | src/FileWatcher.cpp:143-160 | an event of no file notes nothing but what is found in a directory that appears; only the end of a watch removes one |
| Watcher.AddTreeNotes | src/FileWatcher.cpp:114-135 | watching a tree notes every file in it as added when asked to, and nothing else |
| Watcher.AddTreeWatches | src/FileWatcher.cpp:114-135 | and watches every directory in it that can be watched, each under its own path, and no other |
| Watcher.FileWatcher.Notify | src/FileWatcher.cpp:175-195 | a notice is coalesced with the pending change of its path and moves the deadline |
| Watcher.FileWatcher.FlushIfQuiet | src/FileWatcher.cpp:197-215 | before the deadline nothing happens; from then on everything pending is delivered once and cleared |
| Watcher.FileWatcher.AddWatchTree | src/FileWatcher.cpp:114-135 | watching a tree watches every directory and reports every file in it when asked to |
| Watcher.FileWatcher.HandleEvents | src/FileWatcher.cpp:137-173 | a buffer of kernel events does to the watcher what its events do one after the other, and what they note reaches the pending table in order; what each event notes is said by the rows above |
| IosManager.WaitersExactlyOnce | iOS/Sources/CloudNodeClient/ConnectionManager.swift:87-146 | in every run each waiter still waits or was resumed exactly once; waiters exist only when ready; idle and failed managers hold nothing; negotiating and ready ones have joined both rooms |
| IosManager.AcceptedByMessage | iOS/Sources/CloudNodeClient/ConnectionManager.swift:129-132 | a waiter is told of acceptance only by an acceptance of its own offer |
| IosManager.AnswerResumes | iOS/Sources/CloudNodeClient/ConnectionManager.swift:129-132 | an answer resumes its waiter with what it says, once, and any other answer resumes nobody |
| IosManager.EndRefuses | iOS/Sources/CloudNodeClient/ConnectionManager.swift:87-100 | the end of a connection resumes everyone who still waits with a refusal |
| IosManager.NegotiatesExactly | iOS/Sources/CloudNodeClient/ConnectionManager.swift:138-146 | a manager starts to negotiate exactly when a roster finds both rooms joined and the peer in its room while it is neither negotiating nor ready |
| IosManager.WaitsExactly | iOS/Sources/CloudNodeClient/ConnectionManager.swift:138-146 | and waits for its peer exactly when it finds both rooms joined and the peer missing |
| IosManager.ReadyExactly | iOS/Sources/CloudNodeClient/ConnectionManager.swift:168-172 | it becomes ready exactly by the news of an opening while it negotiates |
| IosManager.RosterKept | iOS/Sources/CloudNodeClient/ConnectionManager.swift:108-115 | a roster is what its room then holds, and the client's own name on it means that the room is joined |
| IosManager.LeaveKept | iOS/Sources/CloudNodeClient/ConnectionManager.swift:116-122 | so is a roster that comes with a departure, if the manager stays connected |
| IosManager.FailsExactly | iOS/Sources/CloudNodeClient/ConnectionManager.swift:206-210 | a connected manager fails exactly by a failure, by a bad address, by its negotiation running out of time, or by its peer leaving its room while ready |
| IosManager.SessionKeptExactly | iOS/Sources/CloudNodeClient/ConnectionManager.swift:162-172 | a step makes a manager ready without a session if and only if it is the news of an opening while the present negotiation has none |
| IosManager.LateOpenLeavesNoSession | iOS/Sources/CloudNodeClient/ConnectionManager.swift:162-172 | and such a run exists |
| IosManager.ConnectionManager.Connect | iOS/Sources/CloudNodeClient/ConnectionManager.swift:59-85 | connecting ends what was before and awaits the rooms, or fails on the address with nothing left over |
| IosManager.ConnectionManager.Disconnect | iOS/Sources/CloudNodeClient/ConnectionManager.swift:87-100 | every waiter is resumed with a refusal, once, and everything is forgotten |
| IosManager.ConnectionManager.Handle | iOS/Sources/CloudNodeClient/ConnectionManager.swift:104-136 | a message does what the run model says |
| IosManager.ConnectionManager.AdvanceIfPossible | iOS/Sources/CloudNodeClient/ConnectionManager.swift:138-146 | negotiation starts only with both rooms joined and the peer in its room |
| IosManager.ConnectionManager.Fail | iOS/Sources/CloudNodeClient/ConnectionManager.swift:206-210 | an idle manager does not fail; any other forgets everything and keeps the reason |
| IosManager.ConnectionManager.TakeSession | iOS/Sources/CloudNodeClient/ConnectionManager.swift:162-166 | a created session is kept exactly if it is still wanted |
| IosManager.ConnectionManager.OfferFile | iOS/Sources/CloudNodeClient/ConnectionManager.swift:255-270 | a waiter is registered exactly if everything is up |
| IosSession.AppliedAtMostOnce | iOS/Sources/CloudNodeClient/PeerSession.swift:118-138 | under every interleaving each candidate is applied at most once, and only if it arrived |
| IosSession.DescribedExactly | iOS/Sources/CloudNodeClient/PeerSession.swift:118-124 | the description is set exactly if an answer that the transport took is among the events |
| IosSession.NeverAppliedEarly | iOS/Sources/CloudNodeClient/PeerSession.swift:119-124 | a step that applies a candidate finds the remote description set, by an answer that is among the events before it |
| IosSession.NothingStaysQueued | iOS/Sources/CloudNodeClient/PeerSession.swift:120-124 | once an answer took the queue, nothing is queued again |
| IosSession.AllApplied | iOS/Sources/CloudNodeClient/PeerSession.swift:118-138 | when all that was begun is done, every candidate that arrived has been applied, once |
| IosSession.AnswerIsItsSteps | iOS/Sources/CloudNodeClient/PeerSession.swift:118-126 | an uninterrupted answer is its thread's steps: description, queue taken, each candidate applied in turn |
| IosSession.PeerSession.ApplyAnswer | iOS/Sources/CloudNodeClient/PeerSession.swift:118-126 | a description that is taken has all held candidates applied in order and none held; one that is not changes nothing |
| IosSession.PeerSession.AddRemoteCandidate | iOS/Sources/CloudNodeClient/PeerSession.swift:129-138 | a candidate is held before the description is set and applied from then on |

## Left out

- JSON, Base64, SDP and ICE content: messages are values; names are not escaped when the program builds JSON text by hand (include/MimeDetector.hpp:155-163), and a name that breaks the text is not modelled.
- Transport: sockets, WebRTC, reconnect threads and buffering in the server's sends (src/WebRTCServer.cpp:209-212) are ordered queues here; a relayed message is taken to be delivered or lost as a whole.
- Server relays without room checks: SDP answers and candidates (src/WebRTCServer.cpp:357-438) give no guarantee to state.
- Server.RoomServer.HandleFile: the server's own conditions on the file's members (src/WebRTCServer.cpp:223-229, 445-449, 478-483) are folded into one "the message is complete" condition.
- Runs across reconnects: pending offers and half-received files survive a lost connection (src/WebRTCClient.cpp:1051-1067), so alignment is stated within one session; EXIT is not final in the code (src/WebRTCClient.cpp:329, 354, 965) and nothing here says it is.
- The client's main loop (src/WebRTCClient.cpp:1142-1283): its ping cycle and its sorting of rooms; the three operations it calls are modelled.
- Offering.OfferingClient.ConnectPeer: a wait that never ends has no outcome, so what is not woken by its peer counts as stopped.
- Sender.SendingClient.MakeDataChannel: the queue object shared by table and worker (`Queues.FileQueue`) is here an entry in a table of queues, told apart by number, so a worker that outlives its table entry is not modelled.
- Queues.FileQueue.GetItem: waiting for an item is a precondition, wake-ups are not modelled.
- Locks.FileLock.Acquire: a waiting caller goes on when the lock can be granted; waiting itself is not modelled, nor are files replaced under a fixed path, hard links or lock hand-over order.
- Receiver: what locking and opening come to is one function of the destination during one call; the content recorded for a write that failed is nominal.
- Channel.DataChannel.Send: a send on a channel that is already closed is recorded like any other, since the worker looks at the channel before and after.
- Paths: symbolic links and case folding; all path operations are lexical, as in the code they model.
- Watcher.FileWatcher.HandleEvents: all events of one buffer are given one clock reading, and the order in which paths of one batch are called back is not modelled; starting, stopping and polling are left out.
- IosManager: the list of transfers shown to the user, and the order in which waiters are resumed.
- The iOS sender's alignment: its chunk loop can be suspended between chunks, so two sends may mix their bytes; only its bound and its chunks are proved.
- Around the protocol: logging, command line, property bags, views, random names.
