# liboctopipes, modelled

A model of liboctopipes as a message broker over named pipes, with proofs about it: the frame format, the payloads
of the Common Access Pipe (CAP), the routing server, the client, and the loops that move bytes through FIFOs. The
operating system is an oracle: results of `poll`, `read`, `write`, `open` and `mkfifo` are parameters, and what
listener threads do is a schedule of pushes that may fall between any two steps of the main thread.

| file | content |
|---|---|
| Bytes.dfy, Types.dfy | bytes, C strings, XOR, big-endian sizes, `memcpy`; error codes and the message record |
| Frame.dfy, FrameLaws.dfy, Serializer.dfy | the frame format, its laws, and the encoder and decoder as they run over buffers |
| Cap.dfy | CAP payloads: preparing and parsing, with their round trips |
| Transport.dfy | the loops of `pipe_send` and `pipe_receive` |
| Broker.dfy, Control.dfy | the server's state as a value: registry, inboxes, dispatch, drains, CAP requests, steps and runs |
| Routing.dfy, Drains.dfy, Waiting.dfy | exact routing, conservation and order; round robin; bounded waiting |
| Inboxes.dfy, Servers.dfy | the inbox, worker, server and CAP objects, proved against the value model |
| Clients.dfy, Handshake.dfy, EndToEnd.dfy | the client object, subscribing end to end, forwarding end to end |
| Faithful.dfy | on which runs and calls the source, as written, does what is documented |
| Quiescence.dfy | acknowledgement traffic dies out |
| CapLock.dfy | the timed exclusion between the server's CAP reads and CAP writes |

`dafny verify dfyconfig.toml` checks everything.

## Conventions

A byte is a natural number below 256, and `Xor` is `^` on bytes, defined bit by bit. A C string is the part of a
buffer before its first NUL (`CStr`); names that arrive in frames may contain NUL bytes and are cut there, as
`strcmp` and `strlen` cut them. A NULL name or payload is the empty sequence. Sizes are cast to one byte where the
source stores them in one byte, and are 64-bit where the source has `size_t` or `uint64_t`.

Where the text of the source cannot do what it is documented to do, both are modelled. `AsWritten` follows the
statements and has an explicit outcome for undefined behaviour (`Overread`, `Undefined`, `Crashed`, `Faulted`,
`Strays`, `Overrun`) and for a deadlock (`Blocked`, `Waits`); `Documented` is the documented behaviour. In each case a
lemma or a method contract says exactly when the two agree, and the last column also names the inputs on which they do
not:

| source | as written | exactly when it is right |
|---|---|---|
| src/serializer.c:124-127 | the buffer is compared with the payload size, not with the running minimum | `OverreadsExactlyWhen`, `ReadingsDifferExactlyWhen`, `LostEtxAccepted`, `LongerFrameAcceptedIff`; `HeaderOverread`, `ShortFrameAccepted`, `LongerFrameAccepted` |
| src/server.c:1301-1306, src/server.c:1336-1341 | after a failed decode a pointer to the freed record is queued, which taking or expunging the entry follows | `ListenSafeIff`; `UnreadableByteUndefined`, `ShortFrameQueued` |
| src/server.c:1168-1170, src/server.c:1247-1249 | removing an entry shifts inbox records instead of entries | `DequeueAsWritten`, `RemoveAsWritten`, `DrainOne`, `AllRunsIff`, `QuietAllRunsIff`; `SecondEntryFaults` |
| src/server.c:1056, src/pipes_unix.c:195-204 | a message with a lifetime of 0 leaves no time to open the pipe, and a descriptor that was never set is polled | `DispatchMessage`, `DrainOne`, `PipeSend`; `LifetimeZeroFaults` |
| src/server.c:341, src/server.c:344-347 | an error entry is looked up again after its removal; a failed request leaves the mutex locked | `CapOnceFaithfulIff`; `CapOnceFaults`, `CapOnceLocks`, `FailedRequestBlocks` |
| src/server.c:367 | the test of the inbox pointer is reversed, so nothing is ever processed | never: `CapAllNeverFaithful` |
| src/server.c:461-503, src/cap.c:159-167, src/cap.c:154-180 | taken names, missing FIFOs and bad group lists lead to freed or unset pointers | `CapSafeIff`, `AnnouncedGroups`; `TakenNameStillSubscribed`, `MissingPipesCrash`, `CutGroupCrashes`, `SubscriptionCutShort` |
| src/server.c:531 | the search for a client to unsubscribe has no bound | `CapSafeIff`; `UnsubscriptionCrashes` |
| src/client.c:411 | the terminator of the remote is stored in the origin | `OriginIntactIff`, `AckIntactIff`; `TruncatedOriginName` |
| src/client.c:265-268 | an assignment that carries an error still makes the client subscribed (modelled as it is) | `SubscribedWithPipesIff`; `OldPipesReturn`, `TakenNameStillSubscribed`, `OldPipesShared` |
| src/client.c:342 | unsubscribing asks for the loop to be stopped too early, so the request is refused (modelled as it is) | `Unsubscribe` |
| src/pipes_unix.c:218-220 | the -1 of a failed write is added to the byte counter (modelled as it is) | `SentExactlyIff`; `FailedWriteDuplicates` |

The theorems about runs (routing, conservation, round robin, waiting, delivery, registry, quiescence) are stated of
`Documented`. `FaithfulIff` says on which runs the source as written goes through the same states, with the CAP inbox
and its mutex: every read of the CAP or of a registered client's pipe fails or decodes, no inbox that is drained holds
a second entry or a message of lifetime 0 with a recipient, and every `process_cap_once` call finds either nothing or a
single request that is safe and succeeds. `SafeRunsRoute` carries routing and conservation over to those runs. `FaultIff`
and `LockedForGood` say what becomes of the others: they go astray or leave the mutex locked for good, as in
`FailedRequestBlocks`. The methods of the server take the reading as a parameter and say for each call whether it faults.

## Model

| member | source | states |
|---|---|---|
| Bytes.BigEndianByte | src/serializer.c:225-232 | byte j of the size field is the size shifted right by 8 * (7 - j), cut to a byte |
| Bytes.FromBigEndianRoundTrip | src/serializer.c:100-114 | shift-and-add reading and shift-and-mask writing of a size are inverse on all byte strings |
| Bytes.XorFoldUpdate | src/serializer.c:265-295 | replacing one byte changes the fold by exactly the XOR of the two bytes |
| Frame.StemLayout | src/serializer.c:209-244 | where each field of a message sits in its frame |
| FrameLaws.DecodesIffCarries | src/serializer.c:40-147 | decoding returns a message iff the buffer starts with its frame, ends in ETX, is long enough and the checksum agrees or is ignored |
| FrameLaws.DecodeInvertsEncode | src/serializer.c:40-257 | a frame followed by anything decodes to its message iff what follows is empty or ends in ETX |
| FrameLaws.FirstOfTwoFrames | src/serializer.c:51-141 | of two concatenated frames the first is returned |
| FrameLaws.EncodingIsInjective | src/serializer.c:196-257 | two messages have the same frame iff they agree on all fields but the checksum, which encoding overwrites |
| FrameLaws.Canonicity | src/serializer.c:42-250 | an accepted buffer re-encodes to itself iff it has exactly the frame's size and its checksum was verified or is 0; its size is at least the frame's (documented), or one less (as written) |
| FrameLaws.OverreadsExactlyWhen | src/serializer.c:124-134 | as written, the payload copy leaves the buffer exactly for well-marked frames that lack more than their last byte |
| FrameLaws.HeaderOverread | src/serializer.c:124-134 | a concrete buffer of 17 bytes whose decoding copies a byte from beyond it |
| FrameLaws.ReadingsDifferExactlyWhen | src/serializer.c:124-127 | the comparison as written and the one with the running minimum disagree exactly on truncated frames |
| FrameLaws.LostEtxAccepted | src/serializer.c:51-141 | as written, a frame that lost its ETX is accepted iff its payload ends in ETX |
| FrameLaws.ShortFrameAccepted | src/serializer.c:124-127 | a concrete short frame that is accepted as written |
| FrameLaws.ChecksumIsFold | src/serializer.c:265-295 | the field-wise checksum is the XOR over the whole buffer without its checksum byte |
| FrameLaws.FrameXorsToZero | src/serializer.c:245-250 | the XOR of all bytes of a frame sent with its checksum is 0 |
| FrameLaws.AcceptedIffXorZero | src/serializer.c:136-141 | an exact frame with the checksum in force is accepted iff its bytes XOR to 0 |
| FrameLaws.ChecksumDecides | src/serializer.c:136-145 | whatever follows the frame, with the checksum in force the decoder accepts it iff its bytes XOR to 0 and otherwise reports the checksum |
| FrameLaws.OtherVersionChecksum | src/serializer.c:265-295 | the checksum of a message of another version is that of the two markers |
| FrameLaws.VersionRefusedIff | src/serializer.c:51-145 | the version is refused iff the two markers are there and byte 1 is not 1 |
| FrameLaws.OptionBits | include/octopipes/types.h:68-73 | an acknowledgement is asked for by bit 0 of the options byte, and the checksum ignored by bit 2 |
| FrameLaws.FrameInBytes | src/serializer.c:196-257 | a frame byte by byte, checksum included |
| FrameLaws.UncheckedFrameInBytes | src/serializer.c:245-250 | a frame sent without checksum, byte by byte |
| FrameLaws.SingleByteDetection | src/serializer.c:40-147 | a replaced byte outside the length fields goes unnoticed iff it is the options byte and switches the checksum off |
| FrameLaws.LengthByteDetection | src/serializer.c:40-147 | whatever byte is replaced, an accepted result ignores its checksum or is strictly shorter or, as written only, is one byte longer than the buffer |
| FrameLaws.LongerFrameAcceptedIff | src/serializer.c:124-141 | as written, a replaced byte yields a longer message with its checksum in force iff the frame is then one byte short, has the checksum in force, and the byte changed by ETX |
| FrameLaws.LongerFrameAccepted | src/serializer.c:124-141 | such frames: a payload of one byte x whose size becomes 2 is accepted as x followed by ETX |
| FrameLaws.OneShortAcceptedIff | src/serializer.c:124-141 | as written, a frame one byte short is accepted with its checksum in force iff its bytes XOR to ETX |
| FrameLaws.LostByteUndetected | src/serializer.c:100-141 | a size lowered by one goes unnoticed iff the last payload byte is the XOR of the two size bytes |
| FrameLaws.LengthFieldUndetected | src/serializer.c:100-141 | a concrete frame whose length field can be corrupted unnoticed |
| Serializer.CalculateChecksum | src/serializer.c:265-295 | the checksum loops compute the checksum |
| Serializer.Encode | src/serializer.c:196-257 | filling the buffer through the cursor, checksum last, yields the frame and sets the message's checksum; other versions are refused |
| Serializer.DecodeFrame | src/serializer.c:40-187 | for NULL and every buffer the cursor walk ends as the declarative decoder says, and no read before the payload copy leaves the buffer |
| Serializer.ReadSize | src/serializer.c:100-114 | the eight 64-bit shift-and-add statements read the size field without overflow |
| Cap.GroupsParsedIff | src/cap.c:154-180 | parsing yields a group list iff the bytes start with that list, or are exactly a shorter list |
| Cap.SubscriptionRoundTrip | src/cap.c:36-181 | parsing a prepared subscription gives the groups back iff their count and sizes fit one byte each |
| Cap.AnnouncedGroups | src/cap.c:146-180 | success delivers fewer groups than announced exactly when the bytes ran out, and the payload starts with the groups |
| Cap.SubscriptionCutShort | src/cap.c:154-180 | a concrete payload that announces a group it does not carry and still parses |
| Cap.PrepareSubscription | src/cap.c:36-60 | the first loop's size is what the second loop writes, and the buffer is the subscription |
| Cap.ParseSubscribe | src/cap.c:139-181 | the cursor loop returns the groups that the bytes start with, and never reads past the payload |
| Cap.AssignmentRoundTrip | src/cap.c:73-232 | a successful assignment comes back iff both paths fit one size byte; an error comes back alone |
| Cap.AssignmentParsedIff | src/cap.c:193-232 | parsing yields two paths iff the payload starts with their assignment and both fit one size byte |
| Cap.AssignedErrorIff | src/cap.c:193-210 | parsing yields an error code alone iff the payload has four bytes or more and starts with 255 and that code |
| Cap.CapBytes | include/octopipes/types.h:79-90 | the first byte of each kind of payload, the error codes, and payloads byte by byte |
| Cap.PrepareAssign | src/cap.c:73-88 | the buffer is the assignment |
| Cap.ParseAssign | src/cap.c:193-232 | the cursor walk returns the assignment, and never reads past the payload |
| Transport.PipeSend | src/pipes_unix.c:189-232 | without time nothing is opened and an unset descriptor is polled; without a successful attempt before the timeout nothing is sent; otherwise the writing loop returns what the sequence of poll and write results determines |
| Transport.SentExactlyIff | src/pipes_unix.c:210-231 | a reported success wrote the data and nothing else iff no write failed; each failure duplicates a byte |
| Transport.SuccessIff | src/pipes_unix.c:210-231 | unless a write failed, success is reported iff all the data is on the wire, however often the pipe was not ready |
| Transport.FirstWriteFails | src/pipes_unix.c:218-231 | a write that fails before any byte went out ends the loop, with WRITE_FAILED iff a poll failed before |
| Transport.FailedWriteDuplicates | src/pipes_unix.c:218-220 | a concrete schedule that sends a byte twice and reports success |
| Transport.PipeReceive | src/pipes_unix.c:81-178 | the reading loop returns what the sequence of poll and read results determines, reads of 0 bytes included |
| Transport.FailedReads | src/pipes_unix.c:97-177 | what a read returns that meets a broken pipe, or a read of 0 bytes, before any byte |
| Transport.ReassemblyIff | src/pipes_unix.c:97-177 | the reader gets what flows in before the first pause, so the whole transmission iff nothing comes later |
| Transport.MessageCrossesPipe | src/pipes_unix.c:97-231 | any partial writes without a failed one end in success, and any chunking of the reads delivers the sent message |
| Broker.ListenSafeIff | src/server.c:1300-1314 | a listener does what is documented iff the read failed or holds a documented frame; it is safe on these and, queuing a message instead of an error, on the truncated frames that decoding accepts as written |
| Broker.ListenFailures | src/server.c:1344-1349 | in either reading a failed read queues its error and no message, except that having nothing to read queues nothing |
| Broker.ListenRejects | src/server.c:1335-1341 | as documented a buffer is queued as its message, or as the error that decoding it has |
| Broker.ErrorsKeepNames | src/server.c:1408-1437 | the server code of every client error |
| Broker.UnreadableByteUndefined | src/server.c:1336-1341 | a concrete read after which the listener queues freed memory |
| Broker.Listen | src/server.c:1327-1354 | a queued entry has a message and no error, or an error and no message |
| Broker.OnceBacklog | src/server.c:697-731 | a pass without arrivals removes as many entries as it counts |
| Control.PathsInjective | src/server.c:429-441 | two pipe paths of one folder are equal only for the same client and direction |
| Control.PathsInBytes | src/server.c:429-441 | the two paths of the client a in the folder t, byte by byte |
| Control.CapSafeIff | src/server.c:390-540 | a CAP request is handled within the source's own memory iff it is safe, and then as documented |
| Control.SubscriptionCrashesIff | src/server.c:420-513 | as written a subscription crashes iff its payload is longer than one byte and holds no complete group list, or its name is taken, or its FIFOs are missing |
| Control.UnsubscriptionCrashesIff | src/server.c:524-540 | as written an unsubscription crashes iff others are registered but not the client |
| Control.OtherRequests | src/server.c:390-409 | a request without a name or a payload, or of another kind, is a bad packet and changes nothing |
| Control.IncompleteSubscription | src/cap.c:139-181 | as documented a subscription whose payload holds no complete group list is a bad packet and registers nobody |
| Control.UnsubscriptionAnswered | src/server.c:524-614 | an unsubscription removes exactly the client's worker and changes nothing else, and is an error iff there is none |
| Control.CapOnceFaithfulIff | src/server.c:326-356 | one CAP call is faithful iff it is blocked, has nothing to do, or has a single message that subscribes a new name completely, with its pipes and reply working, or unsubscribes a registered one; a failed request blocks every later call |
| Control.ErrorEntrySkipped | src/server.c:336-352 | as documented an entry with an error is counted and skipped |
| Control.CapOnceFaults | src/server.c:335-341 | two entries, or one with an error, make the call leave its memory |
| Control.CapOnceLocks | src/server.c:344-347 | a concrete message that fails and leaves the mutex locked for good |
| Control.UnsubscriptionCrashes | src/server.c:531-538 | a concrete registry and message on which the unbounded search runs off the registry |
| Control.CutGroupCrashes | src/cap.c:154-167 | a concrete payload whose group overruns it, for which the parser frees a pointer it never set |
| Control.MissingPipesCrash | src/server.c:461-503 | a concrete subscription that crashes when its FIFOs cannot be created, where a file system error is documented |
| Control.LifetimeZeroFaults | src/server.c:1048-1062 | a concrete server and message of lifetime 0 whose drain faults as written and succeeds as documented |
| Control.CapAllAnswers | src/server.c:363-381 | as documented, the CAP inbox and all that arrives during the call are answered in order, each entry once, until a request fails; on success nothing is left and every entry was counted |
| Control.CapAllNeverFaithful | src/server.c:367-369 | as written the call always reports an error and does nothing, which is never what is documented |
| Control.EntriesAlongRun | src/server.c:1327-1354 | in every run, drains and CAP requests included, every queued or dequeued entry is a message without an error or an error without a message |
| Control.RegistryAlongRun | src/server.c:429-614 | in every run names are unique, each worker's last subscription is its name, and all pipe paths are pairwise distinct |
| Control.StartThenStop | src/server.c:553-614 | starting succeeds iff the name is absent, and stopping a fresh worker restores the registry |
| Broker.StartReports | src/server.c:553-573 | a taken name and missing FIFOs are told apart, in this order, and leave the registry as it is |
| Control.StopRemovesOne | src/server.c:582-614 | stopping removes exactly one name and keeps the order of the others |
| Routing.DispatchExact | src/server.c:624-643 | a dispatch sends a message once to each client it reaches, and nothing in another sender's name |
| Routing.DispatchReports | src/server.c:624-643 | a dispatch succeeds iff there is a remote and no subscriber refuses; else it names the first that does |
| Routing.RefusalStops | src/server.c:624-643 | the subscribers before the first one whose pipe refuses get one copy each, in registration order; that one and its error are reported, and success if there is none |
| Routing.RefusedGetNothing | src/server.c:1048-1062 | nothing is ever sent to a client whose pipe refuses, nor anything but the message, nor in another name |
| Routing.OtherVersionStops | src/server.c:1052-1055 | a message of another version goes to nobody, and is an error of its first subscriber |
| Routing.DispatchFaultsIff | src/server.c:1048-1062 | as written a dispatch polls an unopened descriptor iff its message has a subscriber and no time to be sent in |
| Routing.DrainReports | src/server.c:705-727 | requests, error, client and frames of a drain for every valid entry: the client named is the one that refused |
| Routing.ReachesWithoutRefusal | src/server.c:1113-1120 | without refusals a client is reached iff the remote is among its subscriptions |
| Routing.RoutingExact | src/server.c:624-731 | over every run, what a client gets from a sender is exactly the dequeued messages that reached it, once each, in order |
| Routing.InboxConserved | src/server.c:1161-1224 | over every run, what was queued is what was dequeued or expunged, followed by what is still queued |
| Routing.TakenIsLogged | src/server.c:1161-1180 | while a client stays registered, what leaves its inbox is exactly what the drains log for it, in order |
| Routing.LoggedOrQueued | src/server.c:1161-1224 | of a client that stays registered, the log of dequeued entries followed by its inbox grows by exactly what is pushed |
| Routing.PerSenderOrder | src/server.c:697-731 | what a client gets from a sender is in the order in which the sender's listener queued it |
| Drains.OnceIsRun | src/server.c:697-731 | a process_once call, with any arrivals between its turns, is a run of steps |
| Drains.FailedPass | src/server.c:697-731 | a pass that fails counts the heads dispatched before the first inbox that is stuck, and reports that drain's error and client |
| Drains.FailedPassUncounted | src/server.c:741-753 | an error entry that process_once counts is left out of the count of process_all |
| Drains.FirstIsRun | src/server.c:653-687 | a process_first call is a run of steps |
| Drains.AllIsRun | src/server.c:741-753 | a process_all call, with any arrivals and refusals, is the run of its passes one after the other |
| Drains.FirstTakesOne | src/server.c:653-687 | whatever arrives and whoever refuses, process_first is one drain of the first inbox that is not empty at its turn, with the refusals of that turn; without one it takes nothing |
| Drains.RoundRobinTransposes | src/server.c:741-753 | in round-robin order, entry k of inbox i comes after as many entries as its rank says |
| Drains.ProcessAllIsRoundRobin | src/server.c:741-753 | with nothing arriving and whoever refuses, process_all succeeds iff every queued entry can be dispatched to all its subscribers in the pass whose turn it is, and then has emptied all inboxes in round-robin order, sent what their dispatches in that order send, and counted every entry |
| Drains.ProcessAllUnrefused | src/server.c:741-753 | when nobody refuses it succeeds iff every queued entry is a message with a remote |
| Waiting.PassServes | src/server.c:697-731 | a successful pass takes the head of every non-empty inbox, and nothing else of what was queued when it began, whatever arrives |
| Waiting.BoundedWaiting | src/server.c:697-731 | as documented, an entry with k entries before it is taken by the (k+1)-th successful call, whatever else happens; WaitingAsWritten says what is left of it as written |
| Faithful.EventFaithfulIff | src/server.c:326-356 | one read of a client's pipe or of the CAP, one drain, or one process_cap_once call does what is documented iff a condition that can be checked before it holds; otherwise it goes astray or leaves the CAP mutex locked, unless a short frame is accepted |
| Faithful.FaithfulIff | src/server.c:326-1354 | all along a run the source as written is in the documented state, with registry, inboxes, logs, CAP inbox and CAP mutex, iff every event of the run is safe |
| Faithful.FaultIff | src/server.c:326-1354 | unless a listener accepts a short frame, a run as written ends with nothing astray, nobody waiting and the mutex free iff every event of it is safe |
| Faithful.LockedForGood | src/server.c:333-347 | once the mutex is left locked it stays locked, and no process_cap_once call returns |
| Faithful.FailedRequestBlocks | src/server.c:344-347 | a run: after a request without a payload, the documented subscription of any new client is never even queued |
| Faithful.DocumentedIsRun | src/server.c:326-1354 | as documented every run goes through and leaves the mutex free, and what it does to the server is a run of steps, to which all results about runs apply |
| Faithful.CapInboxConserved | src/server.c:326-356 | as documented the CAP inbox is a queue: calls take the oldest entries, and what the listener queues comes after the others |
| Faithful.IdleReadQueuesNothing | src/server.c:1288-1354 | a read of 200 ms that times out without data changes no inbox |
| Faithful.BrokenReadQueuesError | src/server.c:1288-1354 | a read that finds its pipe broken before any byte adds exactly one entry, with that error, to exactly one inbox |
| Faithful.SafeRunsRoute | src/server.c:624-731 | in a safe run as written clients get exactly what they are owed, and inboxes are conserved |
| Faithful.EventEntries | src/server.c:1300-1354 | whatever listeners read, every entry queued or dequeued in the run, the CAP's included, is of one of the two kinds |
| Faithful.OnceRunsIff | src/server.c:697-731 | a process_once call runs as written iff the run it stands for drains nothing that faults |
| Faithful.FirstRunsIff | src/server.c:653-687 | the same for process_first |
| Faithful.AllRunsIff | src/server.c:741-753 | the same for process_all, with any arrivals and refusals |
| Faithful.SecondEntryFaults | src/server.c:1168-1170 | as written, a process_once call that is documented to succeed faults if any inbox holds a second entry, so nobody can wait behind another entry |
| Faithful.WaitingAsWritten | src/server.c:697-731 | what is left of bounded waiting as written: if the first of the calls runs, the inbox held a single entry, and that call takes it |
| Faithful.QuietAllRunsIff | src/server.c:741-753 | process_all with nothing arriving and every entry dispatchable in its pass runs as written iff no inbox holds a second entry or a message of lifetime 0 that has a recipient |
| Inboxes.Inbox.Push | src/server.c:1207-1224 | a push appends one entry |
| Inboxes.Inbox.Dequeue | src/server.c:1161-1180 | a dequeue returns and removes the head, by shifting the array |
| Inboxes.Inbox.Remove | src/server.c:1233-1262 | a removal takes out one entry, and ignores an index out of range |
| Inboxes.Inbox.RemoveAsWritten | src/server.c:1233-1262 | with the loop as written, the inbox record is left iff an entry before the last one is removed |
| Inboxes.Inbox.Expunge | src/server.c:1188-1196 | an expunge empties the inbox |
| Inboxes.Inbox.DequeueAsWritten | src/server.c:1161-1180 | with the loop as written, the inbox record is left iff two or more entries are queued |
| Servers.ClientWorker.MatchSubscription | src/server.c:1113-1120 | the match loop finds the remote iff it is in the list |
| Servers.OctopipesServer.IsSubscribed | src/server.c:762-771 | the search finds a worker iff the name is registered |
| Servers.OctopipesServer.GetClients | src/server.c:805-821 | the names in registration order |
| Servers.OctopipesServer.GetSubscriptions | src/server.c:781-795 | the list of the named worker, or an error |
| Servers.OctopipesServer.StartWorker | src/server.c:553-573 | appends one worker with the groups and its own name iff the name is absent and both FIFOs exist; otherwise nothing changes |
| Servers.OctopipesServer.StopWorker | src/server.c:582-614 | the shifting loop removes exactly the named worker and keeps the others in order, or reports that there is none |
| Servers.OctopipesServer.DispatchMessage | src/server.c:624-643 | the loop sends to the subscribers in registration order up to the first refusal, which it reports; as written it faults iff the message has lifetime 0 and a recipient |
| Servers.OctopipesServer.DrainOne | src/server.c:705-727 | dequeue and dispatch as one drain of the model; as written it faults iff the inbox holds a second entry or its head is a message of lifetime 0 with a recipient |
| Servers.OctopipesServer.ProcessFirst | src/server.c:653-687 | in either reading it faults exactly when FirstRuns fails, and otherwise refines the functional process_first for every schedule of arrivals: state, request count, error and reported client |
| Servers.OctopipesServer.ProcessOnce | src/server.c:697-731 | in either reading it faults exactly when OnceRuns fails, and otherwise refines the functional process_once for every schedule of arrivals between its turns |
| Servers.OctopipesServer.ProcessAll | src/server.c:741-753 | terminates for every finite schedule of arrivals; in either reading it faults exactly when AllRuns fails, and otherwise refines the functional process_all, of which round robin is proved |
| Servers.OctopipesServer.WriteCap | src/server.c:263-319 | every way out restores the state; the reply is written iff the CAP can be |
| Servers.OctopipesServer.ManageSubscription | src/server.c:420-513 | refines the functional answer: the new worker and its reply, a CAP error and its reply, or no change |
| Servers.OctopipesServer.ManageUnsubscription | src/server.c:524-540 | removes the client's worker, or changes nothing and reports an error |
| Servers.OctopipesServer.SearchAsWritten | src/server.c:531-538 | the search as written runs off the registry iff there are workers and none is the client's |
| Servers.OctopipesServer.HandleCapMessage | src/server.c:390-409 | refines the functional answer for every message, and leaves the state running |
| Servers.CapDesk.ProcessCapOnce | src/server.c:326-356 | refines the documented answer to one CAP entry, and leaves the mutex unlocked on every way out |
| Servers.CapDesk.ProcessCapAll | src/server.c:363-381 | terminates for every finite schedule of arrivals, and answers the CAP inbox in order until a request fails |
| Clients.OriginIntactIff | src/client.c:395-420 | as written, a sent message is the documented one iff remote and name have the same size byte, and memory is overrun iff the remote's is larger |
| Clients.SentFields | src/client.c:395-420 | in either reading the payload, remote, lifetime and options of the sent message are the caller's; as documented the origin is the client's name |
| Clients.TruncatedOriginName | src/client.c:404-411 | with a shorter remote, the origin that receivers see is cut to the remote's size |
| Clients.AckMessage | src/client.c:581-585 | an acknowledgement goes to the origin's name and never asks for one |
| Clients.AckIntactIff | src/client.c:581-585 | as written, the acknowledgement is the documented one iff the names of both clients have the same size byte, and memory is overrun iff the origin's is larger |
| Clients.AckFields | src/client.c:581-585 | in either reading an acknowledgement carries option 2, no payload and a lifetime of 255, and goes to the origin's name |
| Clients.SubscribedWithPipesIff | src/client.c:257-268 | after an assignment that parses, the client is subscribed, and has pipes iff the error is success or it kept those of an earlier subscription, which it then has again |
| Clients.ForeignReplyRefused | src/client.c:240-256 | a reply addressed to another client, or that is no assignment, is a bad packet and changes nothing |
| Clients.FailedReplyKept | src/client.c:224-239 | a reply that cannot be read or decoded is reported and changes nothing |
| Clients.FailedAssignment | src/client.c:257-275 | an assignment that does not parse leaves the state, and which pipes are left |
| Clients.OldPipesReturn | src/client.c:257-268 | a client that unsubscribed and whose name was taken gets its old pipes back together with the error |
| Clients.OctopipesClient.Subscribe | src/client.c:178-277 | the request written and the state entered for every reply |
| Clients.OctopipesClient.Unsubscribe | src/client.c:285-352 | the client ends unsubscribed, never stopped; nothing is sent unless it was subscribed |
| Clients.OctopipesClient.LoopStop | src/client.c:153-167 | only an unsubscribed client can be stopped; a thread that cannot be joined leaves the state as it was |
| Clients.OctopipesClient.LoopStart | src/client.c:134-145 | only a subscribed client can be started; a thread that cannot be created leaves the state as it was |
| Clients.OctopipesClient.Send | src/client.c:378-439 | a subscribed or running client writes the frame of the message with its terminator stored as written, or faults iff the remote's size byte is larger than the name's or the lifetime is 0; any other client sends nothing |
| Clients.OctopipesClient.Turn | src/client.c:568-604 | what the loop reports and acknowledges for every read, as written, and which reads make it fault |
| Handshake.HandshakeComposes | src/client.c:178-277 | request, server and reply together: one new worker with the groups and the name, whose pipes the client then has |
| Handshake.CapMessages | src/client.c:195-206 | field by field, what server and client read of each other's CAP messages |
| Handshake.TakenNameStillSubscribed | src/server.c:442-513 | a taken name changes nothing at the server, and leaves the client subscribed, without pipes or with those of its earlier subscription; as written the server crashes |
| Handshake.OldPipesShared | src/client.c:257-268 | the pipes it then has are those of the worker that now holds its name |
| Handshake.ReplyTellsOutcome | src/server.c:442-512 | the reply says success iff a worker was added, name taken iff there was one, and a file system error otherwise; an unwritable reply changes nothing |
| Handshake.UnsubscribeUndoesSubscribe | src/server.c:524-540 | subscribing and unsubscribing a new client restores the registry |
| Faithful.ListenQueuesFrame | src/server.c:1327-1354 | a read that starts with the frame of a message and ends in ETX queues that message, whatever is between, in either reading |
| EndToEnd.ListenQueuesFirst | src/server.c:1327-1354 | of however many frames a read returns, the listener queues the message of the first, in either reading |
| EndToEnd.FramesForwarded | src/server.c:624-731 | over every run, what one client gets from another is an order-preserving selection of the frames this one wrote, byte for byte, as long as every read of its listener fails, does not decode, or starts with a frame it wrote after the last one that was queued |
| EndToEnd.FrameDelivered | src/server.c:697-731 | as documented, a message with k entries before it is sent, byte for byte as its frame came in, by the (k+1)-th successful call to every client then subscribed to its remote |
| EndToEnd.PayloadArrives | src/client.c:378-439 | what a client sends is queued with its payload, remote, lifetime and options, and as documented with its name |
| EndToEnd.AckArrives | src/client.c:581-585 | an acknowledgement is queued for the one whose message it answers, marked as one |
| EndToEnd.BrokerIsTransparent | src/server.c:624-731 | the case of one frame, written to an idle inbox and drained next: it reaches each subscriber of its remote once and byte for byte, and nobody else |
| Quiescence.RunIsWork | src/client.c:565-606 | each step of the network uses up at least one unit of the remaining work, and exactly one if it loses nothing to refusals or to frames that coalesce in one read |
| Quiescence.DeliverExact | src/server.c:629-641 | each client's pipe gets the frames sent to its name, in order |
| Quiescence.MovesArePipes | src/client.c:568-604 | a read takes from the front of a pipe, and the acknowledgement of a message that asks for one is written at the end of the other |
| Quiescence.QuietIff | src/client.c:565-606 | no work is left iff nothing is in flight iff no step is possible |
| Quiescence.AcksQuiesce | src/client.c:581-585 | every schedule ends after at most as many steps as there was work at its start, with nothing in flight; without losses after exactly that many |
| CapLock.ExclusionIff | src/server.c:231-252 | in every run no listener read overlaps the server's write iff a read is shorter than the wait |
| CapLock.IdleReadTakesBudget | src/pipes_unix.c:94-154 | on an idle CAP the listener's read with its 200 ms ends without data at its fourth poll of 50 ms, which is the read budget of the exclusion |
| CapLock.SourceWaits | src/server.c:231-252 | the write waits 500 ms after the lock, an idle read takes 200 ms, and two checks are 100 ms apart |
| CapLock.SourceTimingExcludes | src/server.c:1288-1319 | with the source's 200 and 500 ms the exclusion holds, and BLOCK is set only inside write_cap |

## Left out

- System calls, signals and the file system: `mkfifo`, `open`, `poll`, `read`, `write`, `unlink`, and `create_clients_dir` are oracles or absent.
- Threads: creation and mutex objects of the server; a listener is a schedule of pushes, its thread can always be created and joined, and data races on the state fields are not modelled.
- Memory: `malloc` always succeeds, so `BAD_ALLOC` occurs only for a block of size 0 in `pipe_receive`; freeing is modelled only where it makes a later access undefined.
- Clocks: time appears in CapLock.dfy and in the timeouts of Transport.dfy; the sleeps of the other loops are dropped.
- PipeSend: the data is shorter than 2^64 - 1 bytes.
- DispatchMessage: the log of sent frames holds the frames that were written completely; the bytes that a failed write left in a pipe are not modelled, nor is a faulting call's state.
- ProcessCapOnce, ProcessCapAll: the documented reading; the readings as written are the functions CapOnce and CapAll.
- CapAllNeverFaithful: the first reply ends with one of the results that `pipe_send` has, which PipeSend lists.
- TakeReply: a pipe path the client has freed is modelled as no path; using it afterwards is not modelled.
- RegistryAlongRun: covers workers made through the CAP; starting workers with pipe paths of the caller's choice is documented as unsafe.
- FrameDelivered, BoundedWaiting: the calls are the documented ones; as written, WaitingAsWritten leaves only the case of an inbox with a single entry.
- FramesForwarded: a read that starts in the middle of a frame and still decodes yields a message that nobody wrote, and is excluded.
- FaithfulIff: a run is followed up to the first event that goes astray or leaves the main thread waiting; what the listeners still queue then is not modelled.
- AcksQuiesce: acknowledgements have the documented origin, on which the work they cause does not depend (AckWeight); the client set is fixed; messages that ask for an acknowledgement have an origin, since the client loop cannot answer an empty one (Turn reports that fault).
- Callbacks, setters, error descriptions, the command-line clients, the C++ wrapper and the Windows stubs: they would only add easy members.
