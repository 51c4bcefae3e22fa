# Verified model of the Fyles transfer core

Fyles moves files between peers in chunks, over encrypted sessions that are renegotiated,
with requests that are resent and transfers that are resumed. This project models the parts
of it that keep state, as Dafny classes and step systems, and proves what they promise over
every run. The network, the disk, the clock, the scheduler and the other peers are an
environment that chooses the next step.

| file | models |
|---|---|
| `ChunkRing.dfy` | the eight slots in which a receiver puts chunks back in order |
| `SendWindow.dfy`, `FileReader.dfy` | the sender's window of eight chunks and its double-buffered source |
| `PartFile.dfy` | the names of part files |
| `Receiver.dfy`, `ReceiverInvariant.dfy`, `ReceiverAnswers.dfy` | the per-peer state machine of the receiving side with database and disk, what it keeps, and what its answers mean |
| `FilerequestReceiver.dfy` | the same in place: a map of receive managers with their slots and open files |
| `Transfer.dfy`, `TransferSafety.dfy`, `TransferTheorems.dfy`, `TransferAnswers.dfy` | whole transfers: an honest sender, the receiver, any other peers, interruptions, resumes and restarts |
| `TransferHypotheses.dfy`, `TransferBreaks.dfy` | what the sender must heed is exact; a run for each condition that breaks the theorem without it |
| `NonceWindow.dfy`, `SessionCipher.dfy`, `SessionDelivery.dfy` | the ring of nonce flags; the two ends of one session; which messages get through |
| `RequestRegistry.dfy`, `TimeoutWorker.dfy` | outstanding requests and the worker that times them out |
| `ResendProtocol.dfy`, `SessionSendReceive.dfy` | losing, refusing and resending requests; trial decryption |
| `SessionStore.dfy`, `SessionEstablishment.dfy` | current and recent sessions; single-flight establishment |
| `IdleExpiryMap.dfy`, `ScopedExpiryMap.dfy` | the two maps with lazy cleanup |
| `Common.dfy` | options, bytes, and the least number a set lacks |

Each stateful type of the program is a class whose methods are proved equal to a step
function on values; the theorems are about every run of those step functions.

## Hypotheses

What the main theorems assume of the environment, and why.

- Transfers (`Transfer.AllowedBut`). The sender under observation sends as chunk i the i-th piece
  read since it last started and has at most eight unacknowledged. It starts at byte 0 after its
  new transfer was accepted and after it was told to start over
  (`fyles_service/p2p/src/event_loop/filerequest/file_tracker.rs:1091-1163`), and at the offset after
  an accepted resume (`:1228-1300`). A chunk sent before a start does not arrive after it. Nothing
  is assumed of other peers.
- Guards (`Transfer.Heeds`). A transfer stays in memory after its file was finalised, and its
  sender may be told to start over while it stays there. So the sender's own requests must not
  (`FreshStamp`) start it again with the same millisecond and contact once it is finalised,
  (`ReadableSize`) resume it then in another filerequest with the size of the part file unreadable,
  (`OwnContact`) end it under another contact that has a part file of its own, or (`NoSurvivor`)
  be told to start over while something of it is in memory. The code's sender picks a fresh id for
  every new transfer and resumes in one filerequest (`file_tracker.rs:447-512`), which rules out the
  first two; the contact is that of the session in use, which rules out the other two only while
  it stays the same. `TransferHypotheses` proves each guard exact in every reachable state, and
  `TransferBreaks` gives for each a run from the beginning that heeds the others and confirms a wrong
  file.
- Names. Peer and contact ids contain no underscore and no contact is named like the
  placeholder (`PartFile.PlainIds`); without that two transfers can share a part file
  (`PartFile.UnderscoresConfuseNames`), and `PartFile.NamesCollideIffHeadersOverlap` says exactly when.
- Requests. Transport ids are fresh, a message is delivered at most once, and each transport
  id has one outcome. That the answer can be encrypted is not assumed: the bound counts the
  answers that could not, and `ResendProtocol.SpoiledAnswerRunsTwice` shows that one of them is
  enough for a second execution.
- Sessions. The cipher is ideal: a ciphertext opens only under the key and nonce it was sealed
  with, and only what was sealed opens. Sessions are cleared at most once and only when blamed
  if error handlers run one after another; `SessionStore.ClearsRightIffTimely` says exactly when in
  general, and `SessionStore.RacingHandlersClearNewSession` shows two handlers that race.
- Clocks do not run backwards. Operations that read the clock more than once take each reading
  as a parameter; a cleanup of the scoped map uses one later reading for all its queues.
- Machine integers. The chunk counter and the lower bound of the nonce window must not
  overflow; the preconditions `earliestNotReceived + 8 <= U32_MAX` and
  `lowerBound + window.Length <= U64_MAX` say so, and `SessionCipher.WindowStaysWithin64Bits` shows the
  second to hold for almost 2^64 acceptances. The initiator's subtraction from a received nonce
  wraps around, as in a build without overflow checks; with them it panics on a nonce of its
  own half.

## Where code and comments differ

The model follows the code.

- The requester's comments and log messages take an error of the remote side as proof that the
  request was not processed; a response whose encryption failed is reported the same way after
  the business logic ran (`fyles_service/p2p/src/event_loop/handle_file_request_event.rs:75-82`).
- The documentation of a resume has the sender continue with a new transfer when it is told to
  start over (`fyles_service/p2p/src/types.rs:39-45`); the code sends chunks from byte 0 under the old id.
- The end of a transfer does not compare the contact with the one that started it, a resume
  does not compare the filerequest with the recorded one, and a transfer stays in memory after
  its file was finalised.
- A new transfer opens its part file before its record is inserted, so a refused duplicate
  leaves an empty part file.
- The reader ignores a failed seek and then goes on where it was, and a seek after the end of
  the file does nothing.

## Model

| member | source | states |
|---|---|---|
| `ChunkRing.DrainRefines` | fyles_service/p2p/src/event_loop/filerequest/receive_manager.rs:97-110 | Appending in order ends with everything available written, or stops exactly because the declared size or the disk does not allow it; the file grows and stays a prefix of the chunks in order, and never exceeds the declared size. |
| `ChunkRing.StoreRefines` | fyles_service/p2p/src/event_loop/filerequest/receive_manager.rs:77-113 | The eight slots answer and write like a reassembler that remembers every chunk: the file is the chunks before the least missing index in order; each of the three results occurs exactly in its case. |
| `ChunkRing.DuplicateChangesNothing` | fyles_service/p2p/src/event_loop/filerequest/receive_manager.rs:86-96 | A chunk received before, whether written or waiting, is acknowledged and changes nothing at all. |
| `ChunkRing.StoreAllSeesArrivals` | fyles_service/p2p/src/event_loop/filerequest/receive_manager.rs:77-113 | After every run of received chunks the ring stands for exactly the set of chunks that arrived. |
| `ChunkRing.ArrivalOrderIsIrrelevant` | fyles_service/p2p/src/event_loop/filerequest/receive_manager.rs:77-113 | Two arrival orders of the same chunks, with any duplicates, leave the same slots, counters and file. |
| `ChunkRing.StartReassembles` | fyles_service/p2p/src/event_loop/filerequest/receive_manager.rs:70-75 | After a reset the ring stands for a start at the end of the file with nothing received. |
| `ChunkRing.ReceiveManager.constructor` | fyles_service/p2p/src/event_loop/filerequest/receive_manager.rs:45-68 | A new manager has eight empty slots and counts from chunk 0. |
| `ChunkRing.ReceiveManager.ResetSlots` | fyles_service/p2p/src/event_loop/filerequest/receive_manager.rs:70-75 | Empties every slot and restarts the count; file and progress stay. |
| `ChunkRing.ReceiveManager.StoreChunk` | fyles_service/p2p/src/event_loop/filerequest/receive_manager.rs:77-113 | In place, the ring of `StoreRefines`: same slots, counters, file contents and result, also when a write fails half way. |
| `ChunkRing.ReceiveManager.DrainSlots` | fyles_service/p2p/src/event_loop/filerequest/receive_manager.rs:97-110 | The write loop in place equals the recursive drain and ends. |
| `SendWindow.SendManager.constructor` | fyles_service/p2p/src/event_loop/filerequest/send_manager.rs:136-153 | A new sender, with its progress set to an offset, has nothing in flight. |
| `SendWindow.SendManager.IsReady` | fyles_service/p2p/src/event_loop/filerequest/send_manager.rs:243-245 | A chunk may be sent exactly while fewer than eight have been sent from the first unacknowledged one on. |
| `SendWindow.SendManager.Sent` | fyles_service/p2p/src/event_loop/filerequest/send_manager.rs:205-226 | Records the next index under the request id; no slot in use is overwritten. |
| `SendWindow.SendManager.ReceiveAck` | fyles_service/p2p/src/event_loop/filerequest/send_manager.rs:231-275 | Acknowledgements in any order: progress is the offset plus the sizes of the chunks before the first unacknowledged one, and neither assertion nor panic of the code is met. |
| `SendWindow.SendManager.Advance` | fyles_service/p2p/src/event_loop/filerequest/send_manager.rs:264-273 | Moves the window to the first unacknowledged chunk, counting each chunk once. |
| `SendWindow.SendManager.AllAcknowledged` | fyles_service/p2p/src/event_loop/filerequest/send_manager.rs:189-200 | The sender reports that it is done exactly if everything it sent is acknowledged, and its progress then covers all of it. |
| `FileReader.ChunkingExtends` | fyles_service/p2p/src/file_reader.rs:46-81 | The piece at the cursor continues the pieces handed out so far. |
| `FileReader.ChunkingComplete` | fyles_service/p2p/src/file_reader.rs:46-81 | Pieces that leave nothing to read complete the file from the offset on. |
| `FileReader.Reader.constructor` | fyles_service/p2p/src/file_reader.rs:22-35 | A new reader has prefetched from the start of the file. |
| `FileReader.Reader.Read` | fyles_service/p2p/src/file_reader.rs:46-81 | For every pattern of short reads, what is handed out continues the file from the last offset without gap or repetition; it ends exactly at the end of the file or with an error; the buffer handed out is not the one being filled. |
| `FileReader.Reader.SetProgress` | fyles_service/p2p/src/file_reader.rs:83-94 | Discards the prefetched piece and goes on at the offset; at the prefetch position if the seek fails; does nothing once reading has ended. |
| `PartFile.IntRoundTrip` | fyles_service/core/src/library/util/part_file.rs:19-32 | Every 64-bit start time is recovered from its decimal form, which contains no underscore. |
| `PartFile.ParseRecoversStart` | fyles_service/core/src/library/util/part_file.rs:8-33 | Parsing a generated name gives the start time back, for every start time and all ids. |
| `PartFile.ParsesDigitsOnly` | fyles_service/core/src/library/util/part_file.rs:22-33 | A number is read from every text of digits and from nothing else. |
| `PartFile.ParsesIff` | fyles_service/core/src/library/util/part_file.rs:22-33 | A name has a start time exactly if it ends in `.part` and what comes before its first underscore is that number. |
| `PartFile.NamesEqualIff` | fyles_service/core/src/library/util/part_file.rs:8-20 | Two names are equal exactly if the start times are and the rest joins up to the same text. |
| `PartFile.NamesCollideIffHeadersOverlap` | fyles_service/core/src/library/util/part_file.rs:8-20 | Two contacts or peers can get the same name for some transfer ids exactly if one header is a prefix of the other. |
| `PartFile.NameDeterminesTransfer` | fyles_service/core/src/library/util/part_file.rs:8-20 | For ids without underscores and no contact named like the placeholder, the name determines all four fields. |
| `PartFile.UnderscoresConfuseNames` | fyles_service/core/src/library/util/part_file.rs:8-20 | Without either condition two different transfers share a name. |
| `FilerequestReceiver.FilerequestReceiver.RespondTo` | fyles_service/p2p/src/event_loop/filerequest/receive_manager.rs:143-512 | One request of any peer moves the managers, their files, the database and the disk, in place, as the step of the specification does, with the same answer; managers share nothing but files, and managers, files and records stay in agreement. |
| `FilerequestReceiver.FilerequestReceiver.HandleNew` | fyles_service/p2p/src/event_loop/filerequest/receive_manager.rs:152-230 | A new transfer, in place, as `ReceiverAnswers.NewIsAcceptedIff` and `AcceptedNewIsRecorded` say: the part file exists even when recording fails; otherwise the transfer is recorded and replaces the one of the peer. |
| `FilerequestReceiver.FilerequestReceiver.HandleContinue` | fyles_service/p2p/src/event_loop/filerequest/receive_manager.rs:231-249 | A resume: from memory if transfer, filerequest and contact are the same, else from disk. |
| `FilerequestReceiver.FilerequestReceiver.HandleFromDisk` | fyles_service/p2p/src/event_loop/filerequest/receive_manager.rs:250-325 | A resume from disk starts at the length of the part file, only if admitted. |
| `FilerequestReceiver.FilerequestReceiver.HandleAbort` | fyles_service/p2p/src/event_loop/filerequest/receive_manager.rs:326-375 | An abort, in place, as `ReceiverAnswers.AbortIsConfirmedIff` and `ConfirmedAbortRemovesPart` say: the transfer is forgotten in any case, and its part file is removed if it is not misnamed. |
| `FilerequestReceiver.FilerequestReceiver.HandleChunk` | fyles_service/p2p/src/event_loop/filerequest/receive_manager.rs:376-434 | A chunk reaches the manager of the peer only for its current transfer and contact; every failure forgets the transfer. |
| `FilerequestReceiver.FilerequestReceiver.StoreInto` | fyles_service/p2p/src/event_loop/filerequest/receive_manager.rs:77-113 | The manager of one peer stores a chunk in its own slots and writes to its own file; what every other manager and file holds stays as it is. |
| `FilerequestReceiver.FilerequestReceiver.Resume` | fyles_service/p2p/src/event_loop/filerequest/receive_manager.rs:235-245 | Resuming empties the slots of the manager in place and answers with its progress. |
| `FilerequestReceiver.FilerequestReceiver.HandleDone` | fyles_service/p2p/src/event_loop/filerequest/receive_manager.rs:435-505 | The end is confirmed only for the current transfer with exactly the declared number of bytes, after its part file got its final name. |
| `ReceiverInvariant.OpenKeepsSound` | fyles_service/direct_host_utils/src/direct_fs_controller.rs:770-780 | Opening a part file finds the file with exactly that tag or makes an empty one, and touches no other. |
| `ReceiverInvariant.DrainCounts` | fyles_service/p2p/src/event_loop/filerequest/receive_manager.rs:97-110 | Whatever the chunks are, the byte count equals the length of the file unless a write fails; a failed write is counted whole although the file has only what the disk took. |
| `ReceiverInvariant.PeersWriteApart` | fyles_service/p2p/src/event_loop/filerequest/receive_manager.rs:143-151 | Transfers of different peers never write to the same file. |
| `ReceiverInvariant.RespondKeepsSound` | fyles_service/p2p/src/event_loop/filerequest/receive_manager.rs:143-512 | Every request of every peer, honest or not, keeps: each transfer in memory writes to the part file of its own tag, is on record with its declared size, and has counted exactly the bytes in the file; only files of recorded transfers have content, within the declared size. |
| `ReceiverAnswers.OtherPeersAreUntouched` | fyles_service/p2p/src/event_loop/filerequest/receive_manager.rs:143-512 | A request of one peer never touches the transfer of another. |
| `ReceiverAnswers.NewIsAcceptedIff` | fyles_service/core/src/core/brain/handle_action.rs:847-911 | A new transfer is rejected exactly if the filerequest is missing or inactive, or neither public nor meant for the contact, who is not the owner either; it is accepted exactly if not rejected, its id is new and nothing fails. |
| `ReceiverAnswers.AcceptedNewIsRecorded` | fyles_service/p2p/src/event_loop/filerequest/receive_manager.rs:152-230 | After acceptance the record and the transfer in memory are as announced, with nothing received, and the part name leads to the file it writes to. |
| `ReceiverAnswers.RefusedNewLeavesNothing` | fyles_service/p2p/src/event_loop/filerequest/receive_manager.rs:152-230 | Any other answer leaves records, transfers and files as they were; its part file is there exactly if it was admitted and could be opened. |
| `ReceiverAnswers.ContinueIsAcceptedIff` | fyles_service/core/src/core/brain/handle_action.rs:912-976 | A resume is accepted at the progress of the running transfer if that is asked for by id, filerequest and contact; else at the length of the part file, exactly if the filerequest is active and open to the contact, the record is of this peer and contact, and the file can be opened and measured; it is told to start over exactly if not entitled or not opened. |
| `ReceiverAnswers.UnopenedPartFails` | fyles_service/p2p/src/event_loop/filerequest/receive_manager.rs:250-275 | A resume that is admitted but cannot open its part file marks the record as failed at 0 bytes. |
| `ReceiverAnswers.RefusedContinueKeepsRunning` | fyles_service/p2p/src/event_loop/filerequest/receive_manager.rs:231-325 | A resume that is not accepted leaves the running transfer of the peer as it is. |
| `ReceiverAnswers.AbortIsConfirmedIff` | fyles_service/p2p/src/event_loop/filerequest/receive_manager.rs:326-375 | An abort is confirmed exactly if the peer has a transfer that was touched within 30 seconds, does not misname it, and the file is removed; it is an error exactly if only the removal fails, else a violation; the peer has no transfer afterwards in any case. |
| `ReceiverAnswers.ConfirmedAbortRemovesPart` | fyles_service/p2p/src/event_loop/filerequest/receive_manager.rs:345-366 | A confirmed abort has removed exactly the part file of the transfer under the contact that asked, and recorded the failure with the progress made. |
| `ReceiverAnswers.UnconfirmedAbortChangesNothing` | fyles_service/p2p/src/event_loop/filerequest/receive_manager.rs:326-375 | Any other answer leaves disk and records as they were. |
| `ReceiverAnswers.MisfitChunkEndsTransfer` | fyles_service/p2p/src/event_loop/filerequest/receive_manager.rs:376-395 | A chunk for another transfer or contact, or after 30 seconds of silence, ends the transfer and writes nothing. |
| `ReceiverAnswers.ChunkIsRecorded` | fyles_service/p2p/src/event_loop/filerequest/receive_manager.rs:397-434 | For a chunk that fits, the record gets the progress if it is confirmed, the failure if the disk failed, and stays as it is for a violation; only a confirmed chunk leaves the transfer in memory. |
| `ReceiverAnswers.ChunkIsStored` | fyles_service/p2p/src/event_loop/filerequest/receive_manager.rs:397-434 | A chunk that fits writes to the file of its transfer what the ring of `ChunkRing.StoreRefines` appends, also before a violation or a failed write, and to no other file; the answer is the ring's. |
| `ReceiverAnswers.DoneIsConfirmedIff` | fyles_service/p2p/src/event_loop/filerequest/receive_manager.rs:435-505 | The end is confirmed exactly if it is asked for the running, complete transfer, the part file is there under the contact that asks, and neither disk, clock nor database fail. |
| `ReceiverAnswers.ConfirmedDoneCompletes` | fyles_service/p2p/src/event_loop/filerequest/receive_manager.rs:460-505 | A confirmed end has given exactly that part file its final name and recorded the transfer as completed. |
| `ReceiverAnswers.EarlyDoneKeepsTransfer` | fyles_service/p2p/src/event_loop/filerequest/receive_manager.rs:435-458 | Asking too early is a violation that leaves the transfer running; asking under another id ends it. |
| `ReceiverAnswers.DoneWithoutTransfer` | fyles_service/p2p/src/event_loop/filerequest/receive_manager.rs:435-445 | Without a running transfer an end is a violation, and an internal error if it idles out between the two looks; nothing is finalised or recorded. |
| `ReceiverAnswers.ReportEndsTransfer` | fyles_service/p2p/src/event_loop/filerequest/receive_manager.rs:506-512 | A report of a violation ends the transfer of the peer and changes nothing else. |
| `TransferTheorems.StepKeepsInv` | fyles_service/p2p/src/event_loop/filerequest/receive_manager.rs:143-512 | The invariant of a transfer with an honest sender is kept by every request of every peer, by reads, acknowledgements, restarts of the receiver and edits of filerequests, also when the sender is told to start over. |
| `TransferTheorems.PartFileIsPrefixOfSource` | fyles_service/p2p/src/event_loop/filerequest/receive_manager.rs:70-113 | In every state of every run, every file of the transfer holds a prefix of the source, and no file of anyone exceeds its declared size. |
| `TransferTheorems.FinalisedFileIsSource` | fyles_service/p2p/src/event_loop/filerequest/receive_manager.rs:435-505 | In every state of every run, every finalised file of the transfer equals the source if the declared size is the source's. |
| `TransferTheorems.ConfirmedDoneFinalisesSource` | fyles_service/p2p/src/event_loop/filerequest/receive_manager.rs:435-505 | A confirmed end has just finalised one file, it is the source if the declared size is the source's, and the record says that the transfer is complete. |
| `TransferTheorems.HonestChunkIsTaken` | fyles_service/p2p/src/event_loop/filerequest/receive_manager.rs:376-434 | A chunk of the honest sender for its live transfer is never a protocol violation: the sender's window never outruns the receiver's slots. |
| `TransferTheorems.CompletedTransferIsConfirmed` | fyles_service/p2p/src/event_loop/filerequest/receive_manager.rs:435-505 | Once the whole source is read and acknowledged, ending the transfer under its contact is confirmed unless disk or database fail, or the source was already finalised: the part name of a live transfer leads to its file or the file is final. |
| `TransferTheorems.ContentChangesByChunk` | fyles_service/p2p/src/event_loop/filerequest/receive_manager.rs:376-434 | Only a chunk changes what a file holds, and only for the transfer, peer and contact that write to it. |
| `TransferTheorems.GrantsComeFromAdmission` | fyles_service/core/src/core/brain/handle_action.rs:847-976 | Every grant goes back to an earlier request of the same peer and contact for the transfer that named a present, active filerequest which was public or had the contact in its audience; or a new transfer of the owner; a continued one was on record for that peer and contact. |
| `TransferTheorems.BytesComeFromAdmittedTransfers` | fyles_service/p2p/src/event_loop/filerequest/receive_manager.rs:143-434 | Over every run, bytes enter a file only by a chunk of the peer, contact and transfer the file is named after, who had asked for the transfer earlier when an active filerequest was open to them, or they were the owner, or the transfer was on record as theirs. |
| `TransferAnswers.RunKeepsSound` | fyles_service/p2p/src/event_loop/filerequest/receive_manager.rs:143-512 | Whatever guards the sender drops, every state of every run keeps files, transfers and records in agreement. |
| `TransferAnswers.ConfirmedAbortErases` | fyles_service/p2p/src/event_loop/filerequest/receive_manager.rs:326-375 | Over every run, when a request under the contact of the peer's transfer is answered with a confirmed abort, the part file of the transfer is gone, every other one is as it was, the peer has no transfer, and the record says that it failed. |
| `TransferAnswers.AbortedTransferStartsOver` | fyles_service/p2p/src/event_loop/filerequest/receive_manager.rs:250-325 | Over every run, a resume right after a confirmed abort, if still invited and with a readable file, is accepted at byte 0. |
| `TransferAnswers.AcceptedOffsetIsFileLength` | fyles_service/p2p/src/event_loop/filerequest/receive_manager.rs:231-325 | Over every run, a resume from memory or disk is accepted at exactly the length of the file that the transfer goes on writing to, which is named after it, with empty slots. |
| `TransferAnswers.AcceptedOffsetIsReceived` | fyles_service/p2p/src/event_loop/filerequest/receive_manager.rs:231-325 | Over every run, the file of the observed transfer then holds exactly the source up to the offset the sender is told. |
| `TransferAnswers.ConfirmedChunkIsOnRecord` | fyles_service/p2p/src/event_loop/filerequest/receive_manager.rs:397-410 | Over every run, after a confirmed chunk the record says how many bytes the file of the transfer holds. |
| `TransferHypotheses.FreshStampIsExact` | fyles_service/p2p/src/event_loop/filerequest/receive_manager.rs:152-230 | In every state a run can reach, a request leads to a wrong final file by the next end exactly if it starts a finalised transfer again with its stamp and contact. |
| `TransferHypotheses.ReadableSizeIsExact` | fyles_service/p2p/src/event_loop/filerequest/receive_manager.rs:250-325 | The same for a resume of a finalised transfer in another filerequest whose part file opens but cannot be measured. |
| `TransferHypotheses.OwnContactIsExact` | fyles_service/p2p/src/event_loop/filerequest/receive_manager.rs:435-505 | A request finalises a wrong file exactly if it ends the complete transfer under another contact that has a part file. |
| `TransferHypotheses.NoSurvivorIsExact` | fyles_service/p2p/src/event_loop/filerequest/file_tracker.rs:1091-1163 | Sender and receiver agree on what was sent since the last start exactly if no transfer with something received survives the answer to start over. |
| `TransferHypotheses.SurvivorBreaks` | fyles_service/p2p/src/event_loop/filerequest/receive_manager.rs:250-275 | If a resumed transfer survives that answer, the next chunk is confirmed and the file is no longer a prefix of a source that does not repeat itself there. |
| `TransferBreaks.WithoutFreshStamp` | fyles_service/p2p/src/event_loop/filerequest/receive_manager.rs:152-230 | For every source that is not empty, a run from the beginning that heeds the other guards and in which an empty file is confirmed. |
| `TransferBreaks.WithoutReadableSize` | fyles_service/p2p/src/event_loop/filerequest/receive_manager.rs:250-325 | For every source that is not empty, such a run without the guard on sizes. |
| `TransferBreaks.WithoutOwnContact` | fyles_service/p2p/src/event_loop/filerequest/receive_manager.rs:435-505 | For every source that is not empty and any two contacts, such a run without the guard on contacts. |
| `TransferBreaks.WithoutNoSurvivor` | fyles_service/p2p/src/event_loop/filerequest/file_tracker.rs:1091-1163 | For every source whose last byte is not its first, a run in which the sender starts over as told and a file that is not the source is confirmed. |
| `NonceWindow.LeastUnusedIsAtMostCount` | fyles_service/crypto/src/rolling_nonce_window.rs:81-90 | The lower bound never passes the number of accepted nonces. |
| `NonceWindow.FreshAcceptedIffPredecessorsUsed` | fyles_service/crypto/src/rolling_nonce_window.rs:57-93 | An unused nonce is accepted exactly if every nonce a window or more before it is used. |
| `NonceWindow.UsedAreArrivals` | fyles_service/crypto/src/rolling_nonce_window.rs:64-93 | Over every run the used nonces are exactly those that arrived and were accepted. |
| `NonceWindow.AcceptedAtMostOnce` | fyles_service/crypto/src/rolling_nonce_window.rs:64-93 | Over every run each nonce is accepted at most once. |
| `NonceWindow.ReorderingWithinWindowLosesNothing` | fyles_service/crypto/src/rolling_nonce_window.rs:64-93 | If no nonce overtakes one that is a window older, then with any duplicates exactly the first arrivals are accepted. |
| `NonceWindow.RollingNonceWindow.constructor` | fyles_service/crypto/src/rolling_nonce_window.rs:172-177 | A new window has used nothing and starts at nonce 0. |
| `NonceWindow.RollingNonceWindow.GetInvalidateAt` | fyles_service/crypto/src/rolling_nonce_window.rs:148-156 | Reads and clears one flag; an index outside the ring is invalid and changes nothing. |
| `NonceWindow.RollingNonceWindow.ValidateAt` | fyles_service/crypto/src/rolling_nonce_window.rs:158-169 | Sets one flag and tells whether it was clear. |
| `NonceWindow.RollingNonceWindow.Advance` | fyles_service/crypto/src/rolling_nonce_window.rs:81-90 | The loop ends, also if every flag is clear, with the lower bound at the least unused nonce and the flags again standing for the set. |
| `NonceWindow.RollingNonceWindow.IsValid` | fyles_service/crypto/src/rolling_nonce_window.rs:64-93 | For every window size, the ring accepts exactly what the unbounded set of used nonces allows, records it, and on refusal changes nothing and names the reason. |
| `SessionCipher.LittleEndianRoundTrip` | fyles_service/crypto/src/lib.rs:66-68 | A number is recovered from its little-endian bytes. |
| `SessionCipher.NonceBytesInjective` | fyles_service/crypto/src/lib.rs:66-68 | Different 64-bit nonces have different 12-byte encodings. |
| `SessionCipher.NoncesAreNeverReused` | fyles_service/crypto/src/rolling_nonce_window.rs:117-129 | Over every run of both ends no two encryptions share a nonce or its encoding, and nonces stay within 64 bits. |
| `SessionCipher.DecryptsOnceWhatWasSent` | fyles_service/crypto/src/lib.rs:63-87 | Over every run with loss, repetition, reordering and forgery, an end decrypts at most once under a nonce, gets exactly what was sent under it, and not its own messages until almost half of the nonces are used. |
| `SessionCipher.FirstDeliveriesAreDecrypted` | fyles_service/crypto/src/lib.rs:78-86 | Over every run in which the nonces an end receives, counted from 0, never overtake one that is 100 older, a message sealed on the session is decrypted exactly if nothing was delivered with its nonce before. |
| `SessionDelivery.NonceTellsPosition` | fyles_service/crypto/src/rolling_nonce_window.rs:117-140 | Over every run the nonce of a message is its position among the encryptions of its end, in the half of that end, and the other end counts it as just that position. |
| `SessionDelivery.MessagesAreDecryptedOnFirstDelivery` | fyles_service/crypto/src/lib.rs:63-87 | Over every run in which an end receives no forgeries, and no message before every one that was encrypted 100 or more earlier, with any repetitions: each message is decrypted at its first delivery, to what was encrypted, and at no other. |
| `SessionDelivery.DecryptedOnlyAfterEarlierMessages` | fyles_service/crypto/src/rolling_nonce_window.rs:57-93 | Over every run without forgeries a message is decrypted only if every encryption 100 or more before it worked and was delivered: the bound is exact, and a failed encryption ends the session 100 messages later. |
| `SessionCipher.WindowStaysWithin64Bits` | fyles_service/crypto/src/rolling_nonce_window.rs:57-62 | The bound of the window does not overflow before almost 2^64 acceptances. |
| `SessionCipher.NonceGeneratorValidator.GetNextSendNonce` | fyles_service/crypto/src/rolling_nonce_window.rs:117-129 | Each end hands out the next nonce of its own half, and none once the half is used up. |
| `SessionCipher.NonceGeneratorValidator.Validate` | fyles_service/crypto/src/rolling_nonce_window.rs:131-140 | The k-th nonce that the other end sends is accepted exactly if the window of 100 takes k; it is then used up. |
| `SessionCipher.Dencryptor.Encrypt` | fyles_service/crypto/src/lib.rs:64-76 | Seals under the next nonce; the nonce is counted even if sealing fails, and none is handed out once the half is used up. |
| `SessionCipher.Dencryptor.Decrypt` | fyles_service/crypto/src/lib.rs:78-86 | Uses the nonce up before the ciphertext is looked at; the three results occur exactly in their cases. |
| `RequestRegistry.OperationsKeepUniqueIds` | fyles_service/p2p/src/send_receive_traits/request_registry.rs:342-467 | Every operation keeps external ids unique among live requests, and a resend keeps the external id. |
| `RequestRegistry.TimeoutRequestRegistry.RegisterRequestId` | fyles_service/p2p/src/send_receive_traits/request_registry.rs:342-350 | A request without data gets the next external id and a timer. |
| `RequestRegistry.TimeoutRequestRegistry.RegisterRequest` | fyles_service/p2p/src/send_receive_traits/request_registry.rs:352-370 | A request gets the next external id and a timer, with what a resend needs. |
| `RequestRegistry.TimeoutRequestRegistry.RemoveRequest` | fyles_service/p2p/src/send_receive_traits/request_registry.rs:372-382 | Gives the entry back and stops its timer; nothing for an unknown id. |
| `RequestRegistry.TimeoutRequestRegistry.GetRequestForResend` | fyles_service/p2p/src/send_receive_traits/request_registry.rs:384-410 | Hands a request out exactly if it is registered with data and idempotent, counting one retry and restarting the timer; otherwise nothing changes. |
| `RequestRegistry.TimeoutRequestRegistry.GetRequestForResendAfterSessionError` | fyles_service/p2p/src/send_receive_traits/request_registry.rs:412-442 | Hands a request out exactly if it is registered with data, counting one retry; a new session is needed exactly if the current one is the one it was sent with. |
| `RequestRegistry.TimeoutRequestRegistry.UpdateRequestId` | fyles_service/p2p/src/send_receive_traits/request_registry.rs:451-467 | Files the entry under the new transport id with its external id unchanged. |
| `TimeoutWorker.ObeyKeepsMatched` | fyles_service/p2p/src/send_receive_traits/request_registry.rs:255-297 | Every command keeps the same ids with matching keys in table and delay queue. |
| `TimeoutWorker.ExpireKeepsMatched` | fyles_service/p2p/src/send_receive_traits/request_registry.rs:298-319 | An expiry keeps them too. |
| `TimeoutWorker.TimesOutAtMostOnce` | fyles_service/p2p/src/send_receive_traits/request_registry.rs:249-321 | Over every interleaving of registry and worker each id times out at most once, and not after its unregistering was processed. |
| `TimeoutWorker.IdsAreAccountedFor` | fyles_service/p2p/src/send_receive_traits/request_registry.rs:249-321 | Over every interleaving no id is lost: it is still to be read, or in the table with a delay in the queue, or it timed out, or its unregistering was processed. |
| `TimeoutWorker.NodesAreAsIssued` | fyles_service/p2p/src/send_receive_traits/request_registry.rs:249-321 | Over every interleaving the node in the table under an id, which a timeout reports, is the one it was registered for. |
| `TimeoutWorker.TimeoutRequestRegistryWorker.PollNext` | fyles_service/p2p/src/send_receive_traits/request_registry.rs:254-320 | One poll never removes or resets a key the queue lacks, and reports the expired id with its node. |
| `ResendProtocol.StepKeepsInv` | fyles_service/p2p/src/send_receive_traits/session_send_receive.rs:309-488 | Every step of requester, network and responder keeps: at most two transmissions per request, the second only for idempotent requests or after a session error. |
| `ResendProtocol.AtMostOnce` | fyles_service/p2p/src/send_receive_traits/session_send_receive.rs:309-488 | Over every run of losses, refusals, local errors and resends, the business logic runs at most once per request, plus once per answer that could not be encrypted; at most twice for idempotent requests. |
| `ResendProtocol.CheckPassesIff` | fyles_service/p2p/src/send_receive_traits/session_send_receive.rs:322-337 | Over every run the handler of an error goes on exactly if the request is still registered with a retry count of 0. |
| `ResendProtocol.FetchedRequestIsResentIff` | fyles_service/p2p/src/send_receive_traits/session_send_receive.rs:338-441 | Over every run, when that handler fetches the request, it is on its way to be sent again exactly if it is idempotent or the error was a session error of the responder; its retry count is then 1, and otherwise nothing changes. |
| `ResendProtocol.LostRequestIsTransmittedTwice` | fyles_service/p2p/src/send_receive_traits/session_send_receive.rs:392-441 | A run from the start in which an idempotent request is lost and transmitted a second time after the local error. |
| `ResendProtocol.AnsweredRequestIsOver` | fyles_service/p2p/src/send_receive_traits/session_send_receive.rs:448-488 | Over every run a request whose answer arrives while it is registered is never transmitted and never registered again. |
| `ResendProtocol.FailedSendIsFinal` | fyles_service/p2p/src/send_receive_traits/session_send_receive.rs:365-391 | Over every run a request whose sending fails, the first time or again, is never transmitted after that. |
| `ResendProtocol.SpoiledAnswerRunsTwice` | fyles_service/p2p/src/event_loop/handle_file_request_event.rs:75-82 | A run in which the encryption of an answer fails and a request that is not idempotent is executed twice. |
| `ResendProtocol.ExternalIdsAreStable` | fyles_service/p2p/src/send_receive_traits/session_send_receive.rs:555-620 | Over every run a request gets the next external id when first sent and keeps it across the resend; live requests never share one. |
| `ResendProtocol.RetryCountTellsHistory` | fyles_service/p2p/src/send_receive_traits/request_registry.rs:444-449 | Over every run the retry count of a live request is 0 only if it was transmitted once and no resend is under way, and never above 1. |
| `ResendProtocol.ExternalIdsAreIssuedOnce` | fyles_service/p2p/src/send_receive_traits/request_registry.rs:352-370 | Over every run no external id is issued twice. |
| `ResendProtocol.LiveIdWasIssued` | fyles_service/p2p/src/send_receive_traits/request_registry.rs:352-467 | Over every run the external id of a live request is the one it was issued when first sent. |
| `ResendProtocol.ExternalIdIsTransmittedAtMostTwice` | fyles_service/p2p/src/send_receive_traits/session_send_receive.rs:555-620 | Over every run an external id is carried only by the request it was issued to, which is transmitted at most twice. |
| `SessionSendReceive.TryOne` | fyles_service/p2p/src/send_receive_traits/session_responder.rs:77-83 | Trying a session on a message uses up its nonce and leaves the other sessions alone. |
| `SessionSendReceive.TrySessions` | fyles_service/p2p/src/send_receive_traits/session_responder.rs:74-83 | The first session that can open the message does, for every session tried the nonce is used up, those after it are untouched; it fails exactly if none can. |
| `SessionSendReceive.DecryptRespond` | fyles_service/p2p/src/send_receive_traits/session_responder.rs:67-101 | The business logic runs exactly if some session opens the request, on what it decrypts to and for its contact; every error but a failed encryption means that it did not run. |
| `SessionSendReceive.ReceiveResponse` | fyles_service/p2p/src/send_receive_traits/session_send_receive.rs:448-488 | The request is settled in any case; the first recent session that opens the response decides contact and content. |
| `SessionSendReceive.HandleError` | fyles_service/p2p/src/send_receive_traits/session_send_receive.rs:322-444 | A request is resent exactly if it is registered with a retry count of 0 and data, and either the responder reported a session error or it is idempotent; its count is then 1; the session is cleared only if it is the one the request was sent with. |
| `SessionStore.RecentSessionsAreComplete` | fyles_service/p2p/src/send_receive_traits/get_session.rs:417-440 | Over every interleaving of establishing, clearing and reading, a reader gets first the session that was current when it looked, then exactly what the events of the run displaced from the peer in the last 15 seconds, newest first. |
| `SessionStore.DisplacedSessionIsFound` | fyles_service/p2p/src/send_receive_traits/get_session.rs:235-243 | A session displaced by any event, whether a new session, a clear or an error handler, is in the answer to every read of the peer that ends within 15 seconds. |
| `SessionStore.CurrentSessionIsLastAgreed` | fyles_service/p2p/src/send_receive_traits/get_session.rs:389-415 | Over every run the current session of a peer is the one agreed last, if it is less than 31 minutes old and was neither cleared nor dropped with the identity; otherwise there is none. |
| `SessionStore.SessionIsClearedAtMostOnce` | fyles_service/p2p/src/send_receive_traits/session_send_receive.rs:345-364 | However many requests fail under a session, it is cleared at most once and no other session because of it, if error handlers run one after another. |
| `SessionStore.ClearsRightIffTimely` | fyles_service/p2p/src/send_receive_traits/get_session.rs:442-448 | Over every run, interleaved or not, sessions are cleared at most once and only when blamed exactly if every handler that comes to clear a session finds it current or finds none. |
| `SessionStore.RacingHandlersClearNewSession` | fyles_service/p2p/src/send_receive_traits/session_send_receive.rs:345-364 | A run in which two handlers compare before either clears and the second clears the new session. |
| `SessionStore.SessionManager.StoreSession` | fyles_service/p2p/src/send_receive_traits/get_session.rs:235-243 | The new session is current and an unexpired one it replaces goes to the cache. |
| `SessionStore.SessionManager.GetRecentReceiveSessions` | fyles_service/p2p/src/send_receive_traits/get_session.rs:417-440 | The current session first, then the cached ones. |
| `SessionStore.SessionManager.ClearSession` | fyles_service/p2p/src/send_receive_traits/get_session.rs:442-448 | The peer has no session afterwards and the cleared one is in the cache. |
| `SessionEstablishment.SessionEstablishmentSender.Drop` | fyles_service/p2p/src/crypto.rs:608-617 | A sender that goes out of scope unsent broadcasts a failure, a used one nothing. |
| `SessionEstablishment.InitiatorSessionCreation.ToSession` | fyles_service/p2p/src/crypto.rs:648-690 | A session is created, and is the one of the response, exactly if the secret fits and the signature fits should the keys be known; a known key with a wrong signature fails authentication; every branch broadcasts exactly one result, a session exactly if one is created. |
| `SessionEstablishment.InitiatorSessionCreation.Cancel` | fyles_service/p2p/src/crypto.rs:699-703 | Broadcasts exactly the given cause. |
| `SessionEstablishment.InitiatorSessionCreation.DropUnused` | fyles_service/p2p/src/crypto.rs:608-617 | An attempt that is dropped broadcasts exactly one failure. |
| `SessionEstablishment.OneOutcomePerAttempt` | fyles_service/p2p/src/send_receive_traits/get_session.rs:176-262 | Over every run each attempt has broadcast one result, or none while it is stored or its response is being verified. |
| `SessionEstablishment.SingleFlight` | fyles_service/p2p/src/send_receive_traits/get_session.rs:283-387 | Over every run of concurrent callers at most one attempt per peer is open, and each call sends at most one initiation. |
| `SessionEstablishment.NoInitiationDuringFlight` | fyles_service/p2p/src/send_receive_traits/get_session.rs:283-387 | An initiation is sent only if the peer has no attempt in the store that is younger than 60 seconds. |
| `SessionEstablishment.StoreHasLastSession` | fyles_service/p2p/src/send_receive_traits/get_session.rs:226-245 | Over every run the session in the store for a peer is the one stored last, since the identity last changed. |
| `SessionEstablishment.LookingCallerFinds` | fyles_service/p2p/src/send_receive_traits/get_session.rs:294-301 | Over every run a caller returns the usable session its peer has in the store, and goes on exactly if there is none. |
| `SessionEstablishment.CallerWithoutSessionJoins` | fyles_service/p2p/src/send_receive_traits/get_session.rs:302-387 | Over every run it then waits for the attempt of its peer that is younger than 60 seconds; without one it starts and announces its own, or fails if it cannot sign. |
| `SessionEstablishment.ResultsAreExplained` | fyles_service/p2p/src/crypto.rs:648-703 | Over every run each result was broadcast by an event that explains it: a session only by a response for that attempt with that session, whose secret fits and whose signature fits if the keys were known; each failure by its own cause. |
| `SessionEstablishment.WakingCallerIsTold` | fyles_service/p2p/src/send_receive_traits/get_session.rs:296-387 | Over every run a waiting caller returns the result of its own attempt, or the session of another's; after a failure or a missed result of another's it looks once more and then gives up. |
| `SessionEstablishment.CallersGetTheirPeersSession` | fyles_service/p2p/src/send_receive_traits/get_session.rs:283-387 | Over every run a caller is given only a session that its peer had in the store when it looked, or that an attempt for its peer has broadcast. |
| `IdleExpiryMap.StepLags` | fyles_service/p2p/src/data_structures/idle_expiry_map.rs:77-317 | Every operation, and every action on an entry, answers as on a timed map that never cleans up, and the two maps keep differing in expired entries only. |
| `IdleExpiryMap.CleanupIsInvisible` | fyles_service/p2p/src/data_structures/idle_expiry_map.rs:77-317 | The same for every sequence of operations, with any number of timed actions on an entry that was looked up, every clock and every cleanup interval; only an insertion may find an expired value gone. |
| `IdleExpiryMap.ValuesAreConserved` | fyles_service/p2p/src/data_structures/idle_expiry_map.rs:77-317 | In every reachable state each inserted value is in exactly one place, and got there once: stored, given to the callback, given back, or dropped. |
| `IdleExpiryMap.CallbackSeesExpired` | fyles_service/p2p/src/data_structures/idle_expiry_map.rs:108-317 | The callback gets an unexpired value only when an entry is destructed; values are dropped silently only by a clear, the removal of an expired key, or a modification of an entry that expired meanwhile. |
| `IdleExpiryMap.DueCleanupExpiresAll` | fyles_service/p2p/src/data_structures/idle_expiry_map.rs:77-168 | When a cleanup is due, an insertion, get or look-up gives every expired value to the callback and leaves nothing expired; when it is not, all other entries stay. |
| `IdleExpiryMap.ExpiryMap.CleanupIfDue` | fyles_service/p2p/src/data_structures/idle_expiry_map.rs:153-168 | When due, every expired entry is removed and its value given to the callback once. |
| `IdleExpiryMap.ExpiryMap.Insert` | fyles_service/p2p/src/data_structures/idle_expiry_map.rs:77-84 | The insertion of the step function, with the same callbacks. |
| `IdleExpiryMap.ExpiryMap.Get` | fyles_service/p2p/src/data_structures/idle_expiry_map.rs:86-106 | The lookup of the step function, which touches the entry it finds. |
| `IdleExpiryMap.ExpiryMap.Remove` | fyles_service/p2p/src/data_structures/idle_expiry_map.rs:108-116 | The removal of the step function; the callback is not involved. |
| `IdleExpiryMap.ExpiryMap.Clear` | fyles_service/p2p/src/data_structures/idle_expiry_map.rs:118-121 | Everything goes, without callbacks. |
| `IdleExpiryMap.ExpiryMap.Entry` | fyles_service/p2p/src/data_structures/idle_expiry_map.rs:123-151 | An expired entry is handed to the callback and counts as vacant. |
| `IdleExpiryMap.ExpiryMap.Apply` | fyles_service/p2p/src/data_structures/idle_expiry_map.rs:200-317 | What each operation on an entry does, also when the entry expires between lookup and use. |
| `ScopedExpiryMap.StepFollows` | fyles_service/p2p/src/data_structures/scoped_expiry_map.rs:115-185 | If a configuration covers the lifetime of values, every operation answers as a plain log of pushes does. |
| `ScopedExpiryMap.AgreesWithLog` | fyles_service/p2p/src/data_structures/scoped_expiry_map.rs:115-185 | The same for every run and every cleanup interval. |
| `ScopedExpiryMap.AnswersAreUnexpired` | fyles_service/p2p/src/data_structures/scoped_expiry_map.rs:133-148 | What a read returns is unexpired at its first clock reading, and what is unexpired at its last is returned. |
| `ScopedExpiryMap.UseProlongsScope` | fyles_service/p2p/src/data_structures/scoped_expiry_map.rs:115-185 | Whatever the configuration, a scope that was pushed to or read gives back every unexpired value to a read that comes before it has idled out since. |
| `ScopedExpiryMap.ShortIdleLosesValues` | fyles_service/p2p/src/data_structures/scoped_expiry_map.rs:447-478 | For every configuration that does not cover the lifetime of values there is a run that loses a live value. |
| `ScopedExpiryMap.AgreesIffIdleCoversLifetime` | fyles_service/p2p/src/data_structures/scoped_expiry_map.rs:101-185 | All runs of a configuration, an idle time of zero included, agree with the log exactly if scopes may idle as long as values live, or idle for no time while values live for one tick between cleanups. |
| `ScopedExpiryMap.ScopedMap.PushValue` | fyles_service/p2p/src/data_structures/scoped_expiry_map.rs:115-131 | The push of the step function. |
| `ScopedExpiryMap.ScopedMap.GetValues` | fyles_service/p2p/src/data_structures/scoped_expiry_map.rs:133-148 | The unexpired values of the queue, newest first, after a cleanup if due. |
| `ScopedExpiryMap.ScopedMap.RemoveScopeOf` | fyles_service/p2p/src/data_structures/scoped_expiry_map.rs:150-154 | Only that scope goes. |
| `ScopedExpiryMap.ScopedMap.ClearAll` | fyles_service/p2p/src/data_structures/scoped_expiry_map.rs:156-161 | Every scope goes and the cleanup clock restarts. |
| `ScopedExpiryMap.ScopedMap.Prune` | fyles_service/p2p/src/data_structures/scoped_expiry_map.rs:62-67 | The pruning loop leaves exactly the unexpired values in their order. |
| `ScopedExpiryMap.ScopedMap.CleanupIfDue` | fyles_service/p2p/src/data_structures/scoped_expiry_map.rs:163-185 | When due, idle scopes go whole and the others are pruned, or removed if nothing is left. |

## Left out

- Cryptographic primitives, key exchange messages and serialisation: an ideal cipher and opaque secrets stand for them.
- libp2p, event dispatch, gRPC, notifications, tracing and the daemon: plumbing, or steps of the environment.
- SQLite: filerequests and received files are maps; a record is unique per transfer id. A failed insert or update is a choice of the environment.
- Paths, sanitising of file names, and the removal of stale part files.
- The buffering of asynchronous file writes: a write appends at once, all of it or what the disk takes, and the length read on a resume is that of what was written.
- `file_tracker.rs`: the queue of files to send; its conduct towards the receiver is the hypothesis on the sender.
- Liveness: nothing is said about when a command is read, a timer fires or a waiter is woken.
- That a request is reported exactly once: the code keeps the entry and its timer when it gives up, so a timeout may follow.
- The retry policy `CappedExponentialRetry`, `TrackMap` and `BoundedList`; `TtlMap` is taken to be a plain timed map.
- FilerequestReceiver.FilerequestReceiver.RespondTo: the map of transfers is the timed map without cleanup, which `IdleExpiryMap.CleanupIsInvisible` justifies; the chunk counter must not overflow 32 bits.
- FilerequestReceiver.FilerequestReceiver.HandleChunk: for a wrong contact the code answers at random; the answer is a parameter.
- TransferHypotheses.NoSurvivorIsExact: states agreement of sender and receiver; whether a wrong file results depends on the source, since one that repeats itself can survive the mix-up.
- SendWindow.SendManager.constructor: stands for construction followed by setting the progress, which the code does before it sends.
- IdleExpiryMap.ExpiryMap.CleanupIfDue: values stand for owned objects, so no value is stored under two keys.
