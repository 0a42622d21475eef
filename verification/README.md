# In-vehicle communication stack: model and proofs

This project models the communication stack under `Software_CC2642` and proves what it is built to guarantee: an
ISO 15765-2 transport layer (CanTp) over CanIf and a CAN FD driver, the queued secure messages of AnchorCom, the
segmentation protocol between processors (IMC), the diagnostic server core (UDS, section 7.5 of ISO 14229-1:2013),
CAN network management (section 7.2 of AUTOSAR SWS CAN Network Management 4.2), and the message RAM and new-data
search of the M_CAN driver.

`dafny verify dfyconfig.toml` checks everything.

## How the model is built

Each component has a value-level module of step functions that follow the branches of the code, and an imperative
module whose classes and arrays update the same state in place; every method is proved equal to its step function,
and the results are proved about runs, that is about every finite sequence of calls, frames, timeouts and answers of
the neighbouring layers. For each component one such result is complete: an observer who sees only the calls, their
times and answers, and what came of the earlier ones, knows exactly what comes of the next one. These results (the
`Timeline` modules, `AnchorComSending`, `AnchorComReceiving` and `CanIfRuns`) are stated on frames, bytes and histories,
not on the variables of the code, so a step function that takes a wrong branch, and the method equal to it, breaks one.

| files | content |
|---|---|
| `CanTpConfig`, `CanTpFrames`, `CanTpSegments` | length tables, segmentation arithmetic, frame encoders and decoders, frame assembly in a buffer |
| `CanTpSender`, `CanTpReceiver` | one transmit and one receive channel as steps |
| `CanTpTxChannels`, `CanTpRxChannels`, `CanTpNode` | the channel tables and the confirmation table updated in place, with the main function loop |
| `CanTpNet` | sender, receiver, bus and CanIf flags together; end-to-end delivery |
| `CanTpLockstep`, `CanTpStall`, `CanTpOneConsecutive`, `CanTpUnitBlocks`, `CanTpPersistent`, `CanTpOverlap` | block counters, and exactly when the two ends can stall |
| `CanTpLost`, `CanTpCompletes` | what a stall costs, and progress |
| `CanTpTiming`, `CanTpBuffer`, `CanTpNegotiation` | timeouts, separation time, buffers, block sizes and wait frames over whole runs, refusals |
| `CanTpTxTimeline`, `CanTpRxTimeline` | everything that a transmit and a receive channel do, call by call over whole runs |
| `CanTpBlocked` | a receive channel whose entry in the confirmation table is never cleared |
| `CanTpGrant`, `CanTpCapacity` | receiver in front of the AnchorCom buffer, and what fits through it |
| `CanIf`, `CanIfRuns`, `CanIfInterface` | the race between Tx confirmation and reception, and who is called in whole runs |
| `AnchorComFormat`, `AnchorComTx`, `AnchorComRx`, `AnchorComEntries` | the secure pipeline and its inverse, on values and on buffers |
| `AnchorComRing`, `AnchorComTxQueue`, `AnchorComRxQueue`, `AnchorComPeers` | ring queues, message states, receive buffer ownership |
| `AnchorComSending`, `AnchorComAuthentic`, `AnchorComReceiving` | what the answers of the services make of a message on its way out, which messages a peer takes in, and which received bytes reach the application |
| `AnchorComEndToEnd`, `AnchorComProgress` | queues and pipelines of a sending and a receiving peer together, and which messages can still get through |
| `ImcTp`, `ImcTpRuns`, `ImcTpTimeline`, `ImcTpChannels` | segmentation between processors |
| `ElTime` | elapsed-time timers |
| `UdsCore`, `UdsTimeline`, `UdsServer` | diagnostic server |
| `CanNm`, `CanNmWakeUp`, `CanNmTimeline`, `CanNmNode` | network management |
| `MCanBits`, `MCanRam`, `MCanData` | new-data search, message RAM layout, bytes in controller words |

Build switches are fixed to CAN FD on; burst mode, page confirmation, FC-disable, dynamic FC, shared FC, trigger
transmit, asynchronous crypto and ICOM off, and to function addressing on in the diagnostic server. A call into
another layer is a parameter that carries its answer; time is a parameter of every call. Some values the model reports
(the number of consecutive frames so far, the calls made to the upper layer, the history of responses) are history
that the code does not store; no step reads it.

Definitions that are not part of the sources are fixed as follows: a received frame passes the length check when it is
at least as long as expected; reading past the received length yields zero; ticks are a linear function of
microseconds, reduced to the width of the tick counter; `PduLengthType` is 32 bits wide; the value that marks STmin as
unset is no STmin; an elapsed-time timer is a start time and a duration, and stays elapsed; AnchorCom uses one byte of
channel id, two of prefix, four of trailer (one truncated freshness, three CMAC) and eight of freshness; encryption
preserves length and is undone by decryption under the same freshness; the buffers hold header, payload, padding and
freshness; the configured minimum length of a received AnchorCom message covers a prefix and a trailer; a
receive buffer has at most 65520 bytes, so that a length that has wrapped around in 16 bits lies outside it and shows as
an empty payload.

## What the proofs found

- An SDU of more than 65535 bytes is refused on CAN FD although the first frame could announce it: the limit is cast
  to `uint16` (CanTp.c:289; `CanTpFrames.PhysicalLimit`).
- A CanTp transfer can stall: an answer that overtakes its own confirmation is dropped when the fake Tx confirmation
  is missing, and a grant for an abandoned SDU can open a block of the next one, after which the two block sizes
  differ. A connection has a run that stalls if and only if it is physical, N_Cs is not zero, and either a fake is
  missing, or the receiver's maximum block size is not one and the sender can cancel or time out
  (`CanTpOverlap.StallsExactly`), and it stalls then even though its upper layer always offers exactly the rest of the
  SDU. The request in transfer at a stall is lost: timeouts end the two waits, but no continuation delivers it.
- A receiver whose query for the free buffer fails goes on to the decision about wait frames, and reports the same
  failure a second time if a wait frame is due and the maximum is used up (`CanTpNegotiation.FailedQueryExactly`).
- Whether a refused SDU can be cancelled depends on what was missing of the reception before it, because the remaining
  length is not set for it (`CanTpRxTimeline.AlwaysDue`).
- A receive channel can be blocked for good: a single or first frame that arrives while the confirmation of its flow
  control frame is outstanding moves the channel on without clearing its entry in the confirmation table, and from then
  on nothing clears it and no flow control is sent. Between two nodes this happens in some run if and only if the
  receiver lacks the fake Tx confirmation on a physical connection with N_Cs above zero.
- With N_Cs at zero no frame is ever sent; otherwise every accepted SDU can be delivered, whatever STmin is.
- AnchorCom admits an SDU of exactly the buffer size, but one byte is reserved, so an SDU can be delivered exactly when
  it is shorter than the buffer.
- Overwriting a queued AnchorCom message queues it twice; a few repetitions fill the queue for every other message. A
  request that meets a full queue is refused but leaves its buffer marked as full; from then on every request for that
  message that does not overwrite is refused, for good (`AnchorComTxQueue.LockedOutForGood`).
- An AnchorCom encryption that fails once is never tried again. An entry that fails so below the error limit is
  neither worked on nor counted nor removed, so it holds up its queue for good: nothing is ever sent to that peer
  again. A queued message can still get through if and only if it is itself neither removed nor stuck nor out of
  tries, and no such entry is in front of it; a message type can hold up its queue if and only if it is encrypted and
  the error limit is above one.
- A BLE node computes the channel id of a master broadcast with its own index, the master with index zero; they agree
  exactly when the node's index is a multiple of 16.
- IMC cuts the length of a message to 16 bits, delivers only the tail of one of more than 256 frames, and confirms one
  of more than 255 frames too early when all its frames are queued before the first confirmation. A message whose cut
  length is zero is never confirmed. A transfer that is cancelled while frames are unconfirmed is still confirmed with
  E_OK (`ImcTpTimeline.CancelledIsConfirmed`), and frames that follow a failed reception in the right sequence are still
  copied to the upper layer (`ImcTpTimeline.ReceivesExactly`).
- A null or empty diagnostic request ends a pending service without an answer to it.
- CanNm only notes a wake-up or a repeat message request, and can lose it before its next main function: in prepare bus
  sleep when the wait time is over and the network is not requested, in ready sleep when the timeout is over or the
  network is requested, in normal operation when the network is released. For every calibration there are such runs.
- From the 129th extended acceptance filter on, the `uint8` word index starts over and overwrites earlier filters.

## Model

| member | source | states |
|---|---|---|
| CanTpConfig.CanDl | Software_CC2642/CanTp_Prv.c:43-51 | the table entry is a CAN FD length that holds n bytes, and n itself when n is one |
| CanTpConfig.CanDlIsSmallest | Software_CC2642/CanTp_Prv.c:43-51 | no smaller CAN FD length of at least eight bytes would do |
| CanTpConfig.FullOnWire | Software_CC2642/Can_44_TCAN4x5x_MCan.c:918-1004 | a frame of a full CAN FD length is delivered exactly as it was sent |
| CanTpConfig.GetBlockCfs | Software_CC2642/CanTp_Prv.h:544-575 | the quotient formula counts the frames that a frame-by-frame count needs |
| CanTpConfig.BlockCfsFormula | Software_CC2642/CanTp_Prv.h:544-575 | the recursive count equals the rounded-up quotient for every remainder and payload |
| CanTpFrames.FunctionalIsSingle | Software_CC2642/CanTp.c:278-296 | a functional request is accepted if and only if it fits a single frame |
| CanTpFrames.PhysicalLimit | Software_CC2642/CanTp.c:278-296 | a physical request is accepted if and only if it is not empty and has at most 4095 bytes, or 65535 on CAN FD |
| CanTpFrames.SingleFrameDecodes | Software_CC2642/CanTp_Prv.h:898-995 | whatever the bus appends, the length check accepts the sender's single frame and recovers exact length, offset and bytes |
| CanTpFrames.FirstFrameDecodes | Software_CC2642/CanTp_Prv.h:898-995 | the first frame meets FF_DLmin, yields the exact length and data, and leaves a positive remainder |
| CanTpFrames.ConsecutiveFrameDecodes | Software_CC2642/CanTp_Prv.h:898-995 | a consecutive frame passes the check of a receiver that expects its data, with sequence number and bytes intact |
| CanTpFrames.FlowControlFrameDecodes | Software_CC2642/CanTp_Prv.c:648-700 | flow status, block size and STmin reach the sender unchanged |
| CanTpFrames.CreateSingleFrame | Software_CC2642/CanTp_Prv.c:409-489 | the buffer filled in place holds exactly the encoded single frame |
| CanTpFrames.CreateFirstFrame | Software_CC2642/CanTp_Prv.c:497-564 | the buffer holds exactly the encoded first frame |
| CanTpFrames.CreateConsecutiveFrame | Software_CC2642/CanTp_Prv.c:573-638 | the buffer holds exactly the encoded consecutive frame |
| CanTpFrames.CreateFlowControlFrame | Software_CC2642/CanTp_Prv.c:648-700 | the buffer holds exactly the encoded flow control frame |
| CanTpFrames.PadInto | Software_CC2642/CanTp_Prv.c:446-457 | padding fills up to the next CAN FD length and touches nothing in front of it |
| CanTpSegments.OffsetMonotone | Software_CC2642/CanTp_Prv.c:573-638 | later frames carry later bytes of the SDU |
| CanTpSender.StepKeeps | Software_CC2642/CanTp.c:441-516 | every call keeps the channel where the segmentation says it is, and the lock only in the wait for confirmation |
| CanTpSender.StepBalance | Software_CC2642/CanTp.c:248-376 | one call adds a confirmation exactly when it frees the channel |
| CanTpSender.ConfirmationsConserved | Software_CC2642/CanTp.c:248-376 | in every run accepted requests equal confirmations plus one if busy, and the lock names the channel only while it waits |
| CanTpSender.PositiveMeansComplete | Software_CC2642/CanTp.c:472-505 | E_OK is confirmed only when the whole SDU went into frames and the last one is confirmed |
| CanTpSender.SendConsecutiveEmits | Software_CC2642/CanTp_Prv.c:710-768 | a main function call in a block emits the next segment or nothing, and never moves without a frame |
| CanTpSender.AcceptedEmits | Software_CC2642/CanTp_Prv.c:846-914 | an accepted request starts with its single or first frame |
| CanTpReceiver.StepKeeps | Software_CC2642/CanTp_Prv.c:119-343 | whatever bytes arrive and whatever the neighbours answer, the receive channel stays consistent |
| CanTpReceiver.MainEffect | Software_CC2642/CanTp_Prv.c:969-1048 | a main function call moves no data and opens a block only through the negotiation |
| CanTpReceiver.FirstLeavesRemainder | Software_CC2642/CanTp_Prv.h:945-968 | an accepted first frame announces more bytes than it carries |
| CanTpReceiver.FirstEffect | Software_CC2642/CanTp_Prv.c:187-269 | a first frame delivers nothing; it opens a reception with exactly its own bytes or refuses one |
| CanTpTxChannels.TxChannels.Transmit | Software_CC2642/CanTp.c:248-327 | in place: the request's channel takes the step, all others are unchanged |
| CanTpTxChannels.TxChannels.CancelTransmit | Software_CC2642/CanTp.c:338-376 | in place: cancels the one channel and releases its lock |
| CanTpTxChannels.TxChannels.GetTxBuffer | Software_CC2642/CanTp_Prv.c:67-110 | in place: the buffer negotiation; which answers obtain the buffer, and when, is CanTpBuffer.SendsExactly |
| CanTpTxChannels.TxChannels.CreateFrame | Software_CC2642/CanTp_Prv.c:409-638 | the assembled frame is the one of the segmentation, and the cursor moves by its payload |
| CanTpTxChannels.TxChannels.CanIfTransmit | Software_CC2642/CanTp_Prv.h:685-717 | in place: the table entry names this channel exactly when the frame was handed down |
| CanTpTxChannels.TxChannels.TransmissionRequestAccepted | Software_CC2642/CanTp_Prv.c:846-914 | in place: first transmission of a request |
| CanTpTxChannels.TxChannels.SendConsecutiveFrame | Software_CC2642/CanTp_Prv.c:710-768 | in place: one consecutive frame when buffer and STmin allow it |
| CanTpTxChannels.TxChannels.MainChannel | Software_CC2642/CanTp_Prv.c:777-837 | in place: the state function of one channel |
| CanTpTxChannels.TxChannels.MainFunction | Software_CC2642/CanTp.c:131-160 | the loop gives every channel exactly its own step |
| CanTpTxChannels.TxChannels.Confirmed | Software_CC2642/CanTp.c:472-505 | in place: confirmation of a data frame, on the channel that the table names |
| CanTpTxChannels.TxChannels.SetTxBlockInfo | Software_CC2642/CanTp_Prv.h:1049-1089 | in place: block size and STmin taken over from the first grant only |
| CanTpTxChannels.TxChannels.RxFlowControl | Software_CC2642/CanTp_Prv.c:352-400 | in place: a flow control frame changes only a channel that waits for one |
| CanTpRxChannels.RxChannels.RxSingle | Software_CC2642/CanTp_Prv.c:119-178 | in place: single frame reception |
| CanTpRxChannels.RxChannels.RxFirst | Software_CC2642/CanTp_Prv.c:187-269 | in place: first frame reception |
| CanTpRxChannels.RxChannels.RxConsecutive | Software_CC2642/CanTp_Prv.c:278-343 | in place: consecutive frame reception |
| CanTpRxChannels.RxChannels.TakeSegment | Software_CC2642/CanTp_Prv.c:278-343 | in place: a copied segment advances counters, asks for the next block or delivers |
| CanTpRxChannels.RxChannels.GetConnectionAcceptance | Software_CC2642/CanTp_Prv.h:1005-1040 | in place: a reception in progress is reported as failed |
| CanTpRxChannels.RxChannels.LengthError | Software_CC2642/CanTp_Prv.h:1267-1290 | in place: a bad length aborts only a wait for consecutive frames |
| CanTpRxChannels.RxChannels.RxIndication | Software_CC2642/CanTp.c:527-563 | in place: the frame's channel takes the step, all others are unchanged |
| CanTpRxChannels.RxChannels.SetRxBlockInfo | Software_CC2642/CanTp_Prv.h:1119-1163 | in place: the block size negotiation; which block size and status each free buffer gives is CanTpNegotiation.GrantsExactly |
| CanTpRxChannels.RxChannels.FcTransmit | Software_CC2642/CanTp_Prv.h:727-757 | in place: the flow control frame carries the status and block size of the channel |
| CanTpRxChannels.RxChannels.SendFlowControlFrame | Software_CC2642/CanTp_Prv.c:969-1048 | in place: clear-to-send, wait or overflow decision |
| CanTpRxChannels.RxChannels.MainFunction | Software_CC2642/CanTp.c:131-160 | the loop gives every channel exactly its own step |
| CanTpRxChannels.RxChannels.Confirmed | Software_CC2642/CanTp_Prv.h:1195-1216 | in place: confirmation of a flow control frame, on the channel that the table names |
| CanTpRxChannels.RxChannels.CancelReceive | Software_CC2642/CanTp.c:386-430 | in place: cancels unless at most one frame is missing |
| CanTpNode.Node.constructor | Software_CC2642/CanTp.c:81-90 | every channel is idle and no entry of the confirmation table names one |
| CanTpNode.Node.LookupFindsWaiting | Software_CC2642/CanTp.c:459-461 | the entry of an id names a transmit channel if and only if the connection with that id awaits the confirmation, and a receive channel if and only if it awaits the confirmation or is blocked; any other entry is the invalid channel |
| CanTpNode.Node.TxConfirmation | Software_CC2642/CanTp.c:441-516 | through the table: exactly the connection with this id takes its step, no other channel of either direction moves |
| CanTpNode.Node.RxIndication | Software_CC2642/CanTp_Prv.h:821-888 | flow control reaches the transmit connection of the pair, any other frame the receive connection, and nothing else moves |
| CanTpNode.Node.MainFunction | Software_CC2642/CanTp.c:131-160 | one pass over both tables gives every channel exactly its own step |
| CanTpNet.StepKeeps | Software_CC2642/CanTp_Prv.c:187-343 | every call and delivery keeps both ends, the bus and the deliveries consistent with one segmentation |
| CanTpNet.DeliveryIsFaithful | Software_CC2642/CanTp_Prv.c:187-343 | over every interleaving, each SDU indicated with E_OK is byte for byte an accepted request, none twice, in request order |
| CanTpNet.SegmentArrives | Software_CC2642/CanTp_Prv.c:278-343 | a consecutive frame completes an SDU only if none before it was skipped, in spite of the four-bit sequence number |
| CanTpLockstep.NeverStalled | Software_CC2642/CanTp_Prv.h:1049-1089 | with fakes at both ends and any block size, a run in which requests do not overlap never stalls; the condition on the configuration is CanTpOverlap.StallsExactly |
| CanTpLockstep.CountersInStep | Software_CC2642/CanTp_Prv.h:1119-1163 | frames in flight plus frames to come equal the smaller of the receiver's counter and what the SDU still needs |
| CanTpStall.StallsWithoutSenderFake | Software_CC2642/CanTp_Prv.c:352-400 | without the sender's fake, every SDU with consecutive frames has a run that stalls |
| CanTpStall.StallsWithoutReceiverFake | Software_CC2642/CanTp_Prv.c:278-343 | without the receiver's fake, every SDU with at least two consecutive frames has a run that stalls |
| CanTpStall.StallsExactlyWithoutFakes | Software_CC2642/CanIf_Cbk.c:194-201 | some run of this one SDU stalls if and only if the sender's fake is missing, or the receiver's is and there are at least two consecutive frames; then also one whose upper layer offers exactly the rest of the SDU |
| CanTpOneConsecutive.OneConsecutiveNeverStalls | Software_CC2642/CanTp_Prv.c:278-343 | with the sender's fake alone, an SDU with exactly one consecutive frame stalls in no run |
| CanTpUnitBlocks.UnitBlocksNeverStall | Software_CC2642/CanTp_Prv.h:1119-1163 | with both fakes and blocks of one frame no run stalls, overlapping requests, cancellations and timeouts included |
| CanTpPersistent.PersistentNeverStalls | Software_CC2642/CanTp_Prv.c:710-837 | with both fakes and a sender that can neither cancel nor time out no run stalls, whatever the block size and however requests overlap |
| CanTpOverlap.OverlapStalls | Software_CC2642/CanTp_Prv.h:1049-1089 | with both fakes and any other maximum block size, two requests that overlap on the bus can stall, by a cancellation or by a timeout |
| CanTpOverlap.StallsExactly | Software_CC2642/CanIf_Cbk.c:178-242 | for every connection: some run stalls if and only if it is physical, N_Cs is not zero, and a fake is missing or the maximum block size is not one and the sender can cancel or time out; and exactly then some run stalls whose upper layer offers exactly the rest of the SDU |
| CanTpLost.StalledIsLost | Software_CC2642/CanTp_Prv.c:777-837 | whatever follows a stall, deliveries are requests in order and the one in transfer at the stall is not among them |
| CanTpBlocked.BlockedForGood | Software_CC2642/CanTp_Prv.c:969-1048 | whatever frames, calls and confirmations follow, a blocked receive channel stays blocked, sends no flow control and delivers nothing longer than one frame |
| CanTpBlocked.BlockedExactly | Software_CC2642/CanTp.c:459-510 | a run of any frames blocks the channel if and only if somewhere an accepted single or first frame arrived while the confirmation of its flow control frame was outstanding |
| CanTpBlocked.BlocksExactly | Software_CC2642/CanIf_Cbk.c:178-242 | some run of two nodes blocks the receive channel if and only if the receiver has no fake, the connection is physical and N_Cs is not zero; and exactly then some run whose upper layer offers exactly the rest of the SDU |
| CanTpCompletes.EverySduCanArrive | Software_CC2642/CanTp_Prv.c:67-110 | every accepted SDU has a run, with an upper layer that offers exactly the rest of the SDU, that delivers exactly it and confirms it with E_OK if and only if N_Cs is not zero, whatever STmin and the block size are; with N_Cs zero no run delivers anything |
| CanTpCompletes.CarryFrame | Software_CC2642/CanTp.c:472-505 | inside a block one frame, sent, confirmed and delivered, brings both ends closer to the end and keeps the counters equal |
| CanTpTiming.SeparationKept | Software_CC2642/CanTp_Prv.c:752-761 | inside a block two frames are at least STmin apart |
| CanTpTiming.FramesAreSpaced | Software_CC2642/CanTp_Prv.c:710-768 | in every run any two successive frames of one block are handed down at least STmin apart, whatever confirmations come between |
| CanTpTiming.WaitsExactly | Software_CC2642/CanTp_Prv.c:777-837 | in every run a waiting sender is given up exactly when N_As since its last frame, or N_Bs since the last confirmation or flow control, has run out |
| CanTpTiming.STminTable | Software_CC2642/CanTp_Prv.h:1064-1075 | milliseconds and hundreds of microseconds are exact up to the counter width, reserved codes count as 127 ms, and none exceeds that if it fits the counter |
| CanTpTiming.FlowStatusObeyed | Software_CC2642/CanTp_Prv.c:352-400 | clear-to-send opens a non-empty block, wait restarts the timer and changes nothing else, any other status ends the transfer |
| CanTpTiming.WaitFramesBounded | Software_CC2642/CanTp_Prv.c:1024-1041 | in every run the receiver sends at most the configured number of wait frames between two data frames that it takes |
| CanTpTiming.TooLongIsAnswered | Software_CC2642/CanTp_Prv.c:187-269 | an SDU that is too long is answered with overflow and then reported as failed, once |
| CanTpTiming.OverflowEndsTransfer | Software_CC2642/CanTp_Prv.c:389-393 | the overflow answer ends the sender's transfer with E_NOT_OK |
| CanTpBuffer.SendsExactly | Software_CC2642/CanTp_Prv.c:67-110 | in every run a channel with a frame to make obtains the buffer if and only if, before N_Cs, the upper layer offers at least the SDU bytes in that frame of the segmentation; busy or too little changes nothing, a refusal or an elapsed N_Cs gives one E_NOT_OK, and with a buffer that very frame is made unless STmin within a block is not over |
| CanTpNegotiation.WaitsExactly | Software_CC2642/CanTp_Prv.c:1056-1118 | in every run a waiting receiver is given up exactly when N_Ar since its flow control frame, or N_Cr since the confirmation or the last segment, has run out |
| CanTpNegotiation.GrantsExactly | Software_CC2642/CanTp_Prv.h:1119-1163 | in every run the flow control frame sent carries the block size granted before, or the maximum if the rest fits, or the largest number of frames that fit, in eight bits and at most the maximum; clear-to-send if and only if the rest or that many frames fit, else wait at once and then each N_Br up to the maximum, else failure |
| CanTpNegotiation.FitsExactly | Software_CC2642/CanTp_Prv.h:1136-1144 | the quotient is the one number of whole frames that fit the free buffer |
| CanTpNegotiation.FailedQueryExactly | Software_CC2642/CanTp_Prv.c:1000-1041 | in every run a failed buffer query ends the reception, and is reported twice if and only if a wait frame is due and the maximum is used up |
| CanTpTxTimeline.AlwaysDue | Software_CC2642/CanTp.c:248-516 | in every run and for each call, the value returned, the frame handed down and the confirmation given are exactly those due by the earlier calls and outcomes: admission, the next frame of the segmentation, buffer and separation time, N_As, N_Bs and N_Cs, strict timeouts, block size and STmin of the first grant, E_OK for the last confirmation only |
| CanTpRxTimeline.SingleExactly | Software_CC2642/CanTp_Prv.h:905-944 | the length check passes exactly the single frames whose length byte and frame length agree, classic or CAN FD, and yields their bytes |
| CanTpRxTimeline.FirstExactly | Software_CC2642/CanTp_Prv.h:945-968 | the length check passes exactly the first frames of a full CAN FD length that announce more than a single frame could carry, in the right length format, and yields length and bytes |
| CanTpRxTimeline.ConsecutiveExactly | Software_CC2642/CanTp_Prv.h:969-995 | the length check passes exactly the consecutive frames that hold a full segment or all that is missing, padded if required |
| CanTpRxTimeline.AlwaysDue | Software_CC2642/CanTp_Prv.c:119-343 | in every run, for any bytes and for each call, deliveries, failure indications, flow control and the value returned are exactly those due by the earlier calls and outcomes: what each frame says, sequence and strict timeouts, displaced receptions, refusals, the negotiation, N_Ar, N_Br and N_Cr, and cancellation |
| CanTpGrant.GrantFits | Software_CC2642/CanTp_Prv.h:1119-1163 | clear-to-send never promises more bytes than the reported buffer holds, in spite of the 8-bit block size |
| CanTpGrant.StepKeeps | Software_CC2642/rbdAnchorComTp.c:1956-2058 | buffer offset and channel stay in step for any frames |
| CanTpGrant.NoOverflowInsideBlock | Software_CC2642/rbdAnchorComTp.c:2030-2052 | in every run the buffer accepts each segment of a granted block |
| CanTpCapacity.DeliveredExactlyBelowCapacity | Software_CC2642/rbdAnchorComTp.c:1956-2058 | an SDU that start of reception admits is delivered in some run if and only if it is shorter than the buffer and, on a functional connection, fits one frame |
| CanIf.FirstMatch | Software_CC2642/CanIf_Cbk.c:261-290 | the first PDU whose identifier agrees outside the FD flag, and none before it does |
| CanIf.FakeMakesOrderIrrelevant | Software_CC2642/CanIf_Cbk.c:178-242 | confirmation then reception equals reception then confirmation for CanIf, all CanTp channels and other layers |
| CanIf.OrderMattersExactly | Software_CC2642/CanIf_Cbk.c:99-242 | whatever PDU the fake names: the orders agree if and only if nothing is pending, the connection's own confirmation is faked, no block ends or a wait is repeated |
| CanIf.AnswerLost | Software_CC2642/CanTp_Prv.c:352-400 | unless its own confirmation is faked, a sender that hears the answer first is left waiting for it |
| CanIf.AnswerKept | Software_CC2642/CanIf_Cbk.c:194-201 | if it is faked, a clear-to-send opens the next block in either order |
| CanIfRuns.CallsExactly | Software_CC2642/CanIf_Cbk.c:99-242 | in every run, whatever the transport layer does in between, a confirmation is passed on if and only if a frame of its PDU was taken and neither confirmed nor faked since; a frame first fakes what is owed to its partner and then reaches the first PDU that its identifier names, its one channel and no other |
| CanIfRuns.NamesFirst | Software_CC2642/CanIf_Cbk.c:261-290 | the search finds q if and only if q is the first PDU whose identifier equals the received one once the CAN FD flags are set in both |
| CanIfInterface.Interface.Transmit | Software_CC2642/CanIf.c:190-255 | a frame taken by the driver is marked pending, nothing else changes |
| CanIfInterface.Interface.TxConfirmation | Software_CC2642/CanIf_Cbk.c:99-159 | in place, down to the confirmation table of CanTp: the upper layer is called only for a pending confirmation |
| CanIfInterface.Interface.GetPduId | Software_CC2642/CanIf_Cbk.c:261-290 | the search loop returns the first match |
| CanIfInterface.Interface.RxIndication | Software_CC2642/CanIf_Cbk.c:178-242 | in place, down to the channels of CanTp: fake confirmation first, then the indication |
| AnchorComFormat.PadLen | Software_CC2642/rbdAnchorComTp.c:835-858 | the padding is shorter than a cipher block and completes one |
| AnchorComFormat.FlagBits | Software_CC2642/rbdAnchorComTp.c:835-858 | the third header byte of an encrypted message has its top bit set if and only if there is padding, the padding count in its low four bits, and zero between |
| AnchorComFormat.ChanIdSeparates | Software_CC2642/rbdAnchorComTp.c:718-746 | two channel ids are equal if and only if node, broadcast flag, channel and direction are |
| AnchorComFormat.BleBroadcastAgreesExactly | Software_CC2642/rbdAnchorComTp.c:1253-1263 | master and BLE node agree on a broadcast channel id if and only if the node index has no low bits |
| AnchorComTx.EnqueueInv | Software_CC2642/rbdAnchorComTp.c:640-708 | the payload in two pieces is the payload behind the header |
| AnchorComTx.FormatInv | Software_CC2642/rbdAnchorComTp.c:797-896 | formatting lays out header, padded payload and freshness |
| AnchorComTx.EncryptInv | Software_CC2642/rbdAnchorComTp.c:903-924 | encryption in place replaces exactly the padded payload |
| AnchorComTx.SealInv | Software_CC2642/rbdAnchorComTp.c:1147-1201 | the transmitted bytes are prefix, body, truncated freshness and the code over header, body and freshness |
| AnchorComTx.CycleKeeps | Software_CC2642/rbdAnchorComTp.c:1648-1711 | any cycle, with any failures, keeps the buffer meaning this payload |
| AnchorComTx.DoneMeansConfirmed | Software_CC2642/rbdAnchorComTp.c:1889-1942 | in every run an entry is done only after a positive confirmation that came while its transmission was in progress |
| AnchorComTx.StuckExactly | Software_CC2642/rbdAnchorComTp.c:1098-1129 | a run ends with an entry stuck in encryption if and only if some cycle formatted it and its encryption failed in that same cycle |
| AnchorComSending.SendsExactly | Software_CC2642/rbdAnchorComTp.c:1089-1249 | after any cycles and confirmations an entry is in transmission, done or removed exactly as the answers made it, its errors are exactly what the answers cost, and the bytes in transmission are the payload sealed with the freshness of the one cycle that dated it |
| AnchorComRx.FormatInv | Software_CC2642/rbdAnchorComTp.c:1300-1354 | the receiver rebuilds the very byte string that the sender authenticated |
| AnchorComRx.DecryptInv | Software_CC2642/rbdAnchorComTp.c:1548-1594 | decryption and the padding count recover the exact payload |
| AnchorComRx.CycleInv | Software_CC2642/rbdAnchorComTp.c:1719-1760 | any cycle, with any failures, keeps the entry meaning this payload |
| AnchorComRx.PayloadSurvives | Software_CC2642/rbdAnchorComTp.c:1482-1594 | under any failures at both ends the application gets the transmitted payload or nothing, at most once, and the codes agree |
| AnchorComRx.FaultFreeCycleDelivers | Software_CC2642/rbdAnchorComTp.c:1601-1638 | one cycle without faults delivers a waiting message |
| AnchorComAuthentic.HandedExactly | Software_CC2642/rbdAnchorComTp.c:1482-1638 | a message is handed over with payload x if and only if an application listens, freshness was answered, then the service verified it and its last three bytes are the code over channel id, message and that freshness, then it was decrypted if encrypted, and x is its content |
| AnchorComAuthentic.OnlyAuthentic | Software_CC2642/rbdAnchorComTp.c:1482-1540 | in every run of the receive queue, whatever bytes arrive, each payload handed over is the content of the bytes received in its place, whose code was verified so in a cycle of their own |
| AnchorComAuthentic.HeadProvenExactly | Software_CC2642/rbdAnchorComTp.c:1482-1540 | in every run the message at the head is past verification if and only if, after freshness was answered for it, the service verified it and its code is genuine |
| AnchorComAuthentic.CycleStep | Software_CC2642/rbdAnchorComTp.c:1719-1760 | a pass moves the head message on by one set of answers; it leaves the queue exactly when it is handed over or its errors reach the maximum, with exactly the payload that its bytes and answers give |
| AnchorComEntries.TxEntry.constructor | Software_CC2642/rbdAnchorComTp.c:640-708 | in place: both pieces are copied behind the header |
| AnchorComEntries.TxEntry.FormatForCrypto | Software_CC2642/rbdAnchorComTp.c:797-896 | in place: header, padding and freshness |
| AnchorComEntries.TxEntry.StartEncryption | Software_CC2642/rbdAnchorComTp.c:903-924 | in place: encryption over the payload |
| AnchorComEntries.TxEntry.Part1 | Software_CC2642/rbdAnchorComTp.c:1089-1139 | in place: format and encrypt, errors counted |
| AnchorComEntries.TxEntry.Seal | Software_CC2642/rbdAnchorComTp.c:1160-1178 | in place: the code is taken before the trailer overwrites the freshness |
| AnchorComEntries.TxEntry.Part2 | Software_CC2642/rbdAnchorComTp.c:1147-1201 | in place: authenticate, errors counted |
| AnchorComEntries.TxEntry.Part3 | Software_CC2642/rbdAnchorComTp.c:1208-1249 | in place: hand over to the transport layer |
| AnchorComEntries.TxEntry.Cyclic | Software_CC2642/rbdAnchorComTp.c:1648-1711 | in place: the entry at the head is worked on and removed at the error limit |
| AnchorComEntries.TxEntry.TxConfirmation | Software_CC2642/rbdAnchorComTp.c:1889-1942 | in place: done or retry |
| AnchorComEntries.TxEntry.CopyTxData | Software_CC2642/rbdAnchorComTp.c:1771-1880 | any chunk sizes yield consecutive pieces of the wire image, never past its end |
| AnchorComEntries.RxEntry.constructor | Software_CC2642/rbdAnchorComTp.c:2007-2058 | in place: received bytes go behind the reserved byte |
| AnchorComEntries.RxEntry.FormatForCmac | Software_CC2642/rbdAnchorComTp.c:1300-1354 | in place: trailer copied out before the freshness overwrites it |
| AnchorComEntries.RxEntry.Part1 | Software_CC2642/rbdAnchorComTp.c:1482-1540 | in place: verify, errors counted; which bytes pass is AnchorComAuthentic.HeadProvenExactly |
| AnchorComEntries.RxEntry.Part2 | Software_CC2642/rbdAnchorComTp.c:1548-1594 | in place: decrypt and remove padding |
| AnchorComEntries.RxEntry.Part3 | Software_CC2642/rbdAnchorComTp.c:1601-1638 | in place: hand the payload to the application |
| AnchorComEntries.RxEntry.Cyclic | Software_CC2642/rbdAnchorComTp.c:1719-1760 | in place: one pass over the entry at the head |
| AnchorComRing.Ring.Head | Software_CC2642/rbdAnchorComTp.c:364-380 | the ring's head is the FIFO's first entry |
| AnchorComRing.Ring.RemoveHead | Software_CC2642/rbdAnchorComTp.c:385-402 | removes the FIFO's first entry, fails only when empty |
| AnchorComRing.Ring.Add | Software_CC2642/rbdAnchorComTp.c:407-429 | appends to the FIFO, fails exactly at fifteen entries |
| AnchorComTxQueue.InsertSucceeds | Software_CC2642/rbdAnchorComTp.c:640-708 | with fewer than sixteen message types an idle message always finds room |
| AnchorComTxQueue.TransmitKeepsExactly | Software_CC2642/rbdAnchorComTp.c:640-708 | once-queued and HASDATA agree after a request if and only if it does not overwrite a queued message |
| AnchorComTxQueue.RemoveKeeps | Software_CC2642/rbdAnchorComTp.c:1060-1081 | finishing or dropping the head frees exactly its message |
| AnchorComTxQueue.AcceptedUnlessQueued | Software_CC2642/rbdAnchorComTp.c:1648-1711 | in every run a request is accepted exactly when its message is not queued, and messages leave in acceptance order |
| AnchorComTxQueue.OverwriteFillsQueue | Software_CC2642/rbdAnchorComTp.c:678-700 | for any number of message types, fifteen overwrites of any message make the queue refuse any other idle one, which is then locked out |
| AnchorComTxQueue.LockedOutExactly | Software_CC2642/rbdAnchorComTp.c:678-700 | a request or removal locks a message out if and only if it is a request for that message, which is not queued, at a full queue |
| AnchorComTxQueue.LockedOutForGood | Software_CC2642/rbdAnchorComTp.c:678-700 | whatever is requested and removed afterwards, a locked out message stays so and every request for it is refused unless it overwrites |
| AnchorComRxQueue.IndicateKeeps | Software_CC2642/rbdAnchorComTp.c:2070-2139 | a reception fills only a free buffer and queues it once |
| AnchorComRxQueue.CycleKeeps | Software_CC2642/rbdAnchorComTp.c:1719-1760 | a pass of the receive pipeline over the head frees exactly its buffer when it is finished and leaves the others intact |
| AnchorComRxQueue.FreeBufferFits | Software_CC2642/rbdAnchorComTp.c:481-517 | with at most seven channels a free buffer always finds room in the queue |
| AnchorComRxQueue.BuffersAreOwned | Software_CC2642/rbdAnchorComTp.c:2070-2139 | in every run, with any failures in the pipeline, NeedVerify is set exactly for queued buffers, waiting messages stay intact, a free buffer finds room, and delivery is at most once and in reception order |
| AnchorComRxQueue.EightChannelsOverflow | Software_CC2642/rbdAnchorComTp.c:481-517 | from eight channels on, for every minimum length and buffer size, a free buffer can be refused |
| AnchorComReceiving.ReceivesExactly | Software_CC2642/rbdAnchorComTp.c:1719-2139 | in every run a peer takes in exactly the messages of an allowed length with fewer than two of their channel and fifteen in all waiting, works on the first until it is handed over or its errors reach the maximum, and hands over exactly what its bytes and answers make of it |
| AnchorComPeers.TxPeer.Transmit | Software_CC2642/rbdAnchorComTp.c:640-708 | in place on ring and flags |
| AnchorComPeers.TxPeer.RemoveHead | Software_CC2642/rbdAnchorComTp.c:1060-1081 | in place on ring and flags |
| AnchorComPeers.RxPeer.TpRxIndication | Software_CC2642/rbdAnchorComTp.c:2070-2139 | in place: main buffer, temporary buffer or drop |
| AnchorComPeers.RxPeer.CyclicRx | Software_CC2642/rbdAnchorComTp.c:1719-1760 | in place: the receive pipeline on the head entry's buffer, then delivery and release |
| AnchorComEndToEnd.StepKeeps | Software_CC2642/rbdAnchorComTp.c:1648-1760 | every step at either peer, with any failures, losses and retries, keeps queues, bus and deliveries consistent; the bus carries the bytes in the sender's buffer |
| AnchorComEndToEnd.PayloadsInOrder | Software_CC2642/rbdAnchorComTp.c:1601-1638 | in every run, from the bytes in the sender's buffer through the receiver's, the payloads handed to the application are byte for byte accepted payloads of that peer, in acceptance order, at most one per transmission |
| AnchorComEndToEnd.OnceWithoutRetry | Software_CC2642/rbdAnchorComTp.c:1889-1942 | without a failed transmission each accepted message is sent at most once, so none is handed over twice |
| AnchorComProgress.GetsThroughExactly | Software_CC2642/rbdAnchorComTp.c:1648-1711 | at any point of any run, the entry at any queue position has a continuation that ends in its confirmed transmission if and only if it is not removed, not stuck in encryption and not at the error limit outside a transmission, and no entry in front of it is stuck |
| AnchorComProgress.QueueHeldUpForGood | Software_CC2642/rbdAnchorComTp.c:1098-1129 | behind a head stuck in encryption below the error limit nothing moves and nothing is sent in any continuation |
| AnchorComProgress.HeldUpExactly | Software_CC2642/rbdAnchorComTp.c:1098-1129 | a message type can hold up its queue in some run if and only if it is encrypted and the error limit is above one |
| ImcTp.CapacityFormula | Software_CC2642/rbdImc_PduRTp.c:545-580 | the bytes before the sequence number wraps are those of one first and 255 further frames |
| ImcTp.FrameTaken | Software_CC2642/rbdImc_PduRTp.c:321-419 | each frame keeps sender and receiver in step and the outcome unchanged, or completes it |
| ImcTp.RoundTripExactly | Software_CC2642/rbdImc_PduRTp.c:428-481 | for every length: exactly the part within 16 bits of length and behind the last wrap of the sequence number is delivered; the whole if and only if there is neither a cut nor a wrap |
| ImcTpRuns.OneConfirmationExactly | Software_CC2642/rbdImc_PduRTp.c:489-512 | for every length: every run raises exactly one confirmation, after the last frame's, if and only if the cut length is not zero and needs at most 255 frames |
| ImcTpRuns.EarlyConfirmation | Software_CC2642/rbdImc_PduRTp.c:489-512 | a longer message has a run that confirms it while frames are unconfirmed |
| ImcTpRuns.EmptyIsNeverConfirmed | Software_CC2642/rbdImc_PduRTp.c:226-255 | a message whose length is a multiple of 65536 is accepted and nothing ever follows |
| ImcTpRuns.IndicationKeeps | Software_CC2642/rbdImc_PduRTp.c:428-481 | any frame keeps the remaining count equal to what the upper layer is still owed |
| ImcTpRuns.CompletionsAreEarned | Software_CC2642/rbdImc_PduRTp.c:294-481 | every E_OK follows a start since which exactly the announced bytes were copied and nothing failed |
| ImcTpTimeline.SendsExactly | Software_CC2642/rbdImc_PduRTp.c:489-607 | after any requests, cancellations, cycles and confirmations: the frame sent is the one of its number, at its position of the cut message; E_OK is passed on if and only if nothing is left and at most one frame counts as unconfirmed; cancelling succeeds if and only if something is left |
| ImcTpTimeline.CancelledIsConfirmed | Software_CC2642/rbdImc_PduRTp.c:265-288 | a cancelled transfer is confirmed with E_OK by the confirmation of its last frame, and by none if no frame is unconfirmed |
| ImcTpTimeline.ReceivesExactly | Software_CC2642/rbdImc_PduRTp.c:294-481 | after any frames, the next one leads to exactly the calls due: it is copied if and only if it opens a transfer or has the next number and not too many bytes, E_OK follows exactly the last byte, E_NOT_OK a frame that breaks the transfer, and the bytes delivered are those copied since the start |
| ImcTpChannels.Channels.FindByImcId | Software_CC2642/rbdImc_PduRTp.c:178-194 | the first row with this id, or the table size |
| ImcTpChannels.Channels.FindByPdurTxId | Software_CC2642/rbdImc_PduRTp.c:203-219 | the first row with this id, or the table size |
| ImcTpChannels.Channels.Transmit | Software_CC2642/rbdImc_PduRTp.c:226-255 | in place: starts one channel's transfer |
| ImcTpChannels.Channels.CancelTransmit | Software_CC2642/rbdImc_PduRTp.c:265-288 | in place: stops one channel's transfer |
| ImcTpChannels.Channels.BuildFrame | Software_CC2642/rbdImc_PduRTp.c:542-582 | the buffer holds exactly the next frame |
| ImcTpChannels.Channels.Cyclic | Software_CC2642/rbdImc_PduRTp.c:520-607 | the loop gives every channel exactly its own step |
| ImcTpChannels.Channels.TxConfirmation | Software_CC2642/rbdImc_PduRTp.c:489-512 | in place: counts down and confirms at zero |
| ImcTpChannels.Channels.RxFirstFrame | Software_CC2642/rbdImc_PduRTp.c:321-372 | in place: first frame reception |
| ImcTpChannels.Channels.RxConsecutiveFrame | Software_CC2642/rbdImc_PduRTp.c:379-419 | in place: consecutive frame reception |
| ImcTpChannels.Channels.RxIndication | Software_CC2642/rbdImc_PduRTp.c:428-481 | in place: the frame's channel takes the step, all others are unchanged |
| UdsCore.IndicationKeeps | Software_CC2642/rbUds_Core.c:506-603 | any request keeps control block, timers and history consistent |
| UdsCore.PendingKeeps | Software_CC2642/rbUds_Core.c:899-995 | the pending subtask keeps them, and a service that stays pending has its next response not yet due |
| UdsCore.S3Keeps | Software_CC2642/rbUds_Core.c:1061-1080 | the session timer leaves a pending service alone |
| UdsCore.HistoryFollowsProtocol | Software_CC2642/rbUds_Core.c:879-1080 | in every run, whatever the gaps: at most four pending responses, no suppressed final one after them, no session reset in between |
| UdsCore.ScanBalances | Software_CC2642/rbUds_Core.c:899-1043 | a history that follows the protocol accounts for every request |
| UdsCore.ResponsesConservedExactly | Software_CC2642/rbUds_Core.c:506-656 | requests equal answers, timeouts, resets and the pending one if and only if no malformed request met a pending service |
| UdsCore.TakenUpExactly | Software_CC2642/rbUds_Core.c:533-603 | in every run exactly the well-formed requests that come when the history shows every earlier one as closed are taken up, in order, and each is answered at once under its own id: an unknown service as not supported, response pending only from a service that can be pending |
| UdsTimeline.AlwaysDue | Software_CC2642/rbUds_Core.c:506-1080 | in every run each call does exactly what is due by the calls, times and answers before it: the first answer by the first row with the id, its handler, the session and the length, in this order; pending responses, their end, the limit and the confirmation timeout on schedule; the session reset exactly when nothing extended the session for its whole time |
| UdsServer.Server.DataIndication | Software_CC2642/rbUds_Core.c:506-603 | on index, timers and flags: search loop, checks and first answer refine the protocol step; which answer each request gets is UdsTimeline.AlwaysDue |
| UdsServer.Server.TxConfirmation | Software_CC2642/rbUds_Core.c:767-781 | on index, timers and flags: refines the protocol step |
| UdsServer.Server.RxStarted | Software_CC2642/rbUds_Core.c:676-699 | on the timer's sticky status: refines the protocol step |
| UdsServer.Server.Cyclic | Software_CC2642/rbUds_Core.c:879-1080 | on index, timers and flags: both subtasks refine the protocol step, timers read only when their status is updated |
| CanNm.MainKeeps | Software_CC2642/CanNm.c:414-458 | a main function call takes only edges whose time has come |
| CanNm.RxKeeps | Software_CC2642/CanNm.c:335-405 | a frame in ready sleep restarts the quiet time that the observer measures |
| CanNm.SetStateKeeps | Software_CC2642/CanNm.c:487-536 | a state change sets exactly the timer that the observer expects |
| CanNm.RunsAreLegal | Software_CC2642/CanNm.c:414-536 | in every run the history is legal, CPU power is held exactly outside bus sleep, and the immediate count is zero outside repeat message |
| CanNm.SleepIsEarned | Software_CC2642/CanNm.c:663-688 | bus sleep follows ready sleep and prepare sleep, each held for its full time, ready sleep counted from the last frame heard |
| CanNm.RepeatIsServed | Software_CC2642/CanNm.c:764-788 | repeat message is not left before its time and, when requested from sleep, all immediate transmissions |
| CanNmWakeUp.WakeUpSurvivesExactly | Software_CC2642/CanNm.c:335-458 | in every run and every state that notes a wake-up or repeat request, the next main function call leads exactly where the history, the time and the network request say |
| CanNmWakeUp.LostExactly | Software_CC2642/CanNm.c:663-724 | for every calibration some run loses what it noted in a state if and only if that is prepare sleep, ready sleep or normal operation |
| CanNmTimeline.AlwaysDue | Software_CC2642/CanNm.c:414-788 | in every run an online main function call transmits in repeat message and normal operation exactly when the cycle in force is over, since the last transmission or a frame heard in normal operation, and in no other state; it then changes to exactly the state that time, request and history call for, with the transmission due on arrival; every other call does nothing but note a frame heard |
| CanNmTimeline.NeverSilent | Software_CC2642/CanNm.c:596-649 | after every online main function call that leaves the node in repeat message or normal operation there is a message within the longest cycle: its own, or one that it heard if a reduced time is configured |
| CanNmTimeline.PassiveExactly | Software_CC2642/CanNm.c:140-167 | in every run a passive start-up succeeds if and only if the history shows a sleep mode, and otherwise changes nothing |
| CanNmNode.Node.MainFunction | Software_CC2642/CanNm.c:414-788 | on the node's timers and flags: all handlers in order and the state change refine the step of the state machine; when it transmits is CanNmTimeline.AlwaysDue |
| CanNmNode.Node.RxIndication | Software_CC2642/CanNm.c:335-405 | on the node's timers and flags: refines the reaction to a frame in each state |
| CanNmNode.Node.PassiveStartUp | Software_CC2642/CanNm.c:140-167 | on the node's flags: wakes only from the sleep modes |
| MCanBits.GetCntLeadZero | Software_CC2642/Can_44_TCAN4x5x_MCan.c:389-407 | the halving search returns the true number of leading zeros of every 32-bit value |
| MCanBits.GetMsb | Software_CC2642/Can_44_TCAN4x5x_MCan.c:408-430 | the position of the top set bit of every 64-bit value, minus one for zero |
| MCanBits.ClearTop | Software_CC2642/Can_44_TCAN4x5x_MCan.c:1325-1325 | clearing the found bit leaves every other bit as it was |
| MCanBits.DrainRxBuffers | Software_CC2642/Can_44_TCAN4x5x_MCan.c:1239-1331 | the loop ends, visits exactly the set bits, each once and descending, and acknowledges each in its register |
| MCanRam.MessageRamInit | Software_CC2642/Can_44_TCAN4x5x_MCan.c:1700-1785 | the recorded start addresses pack the sections without gap or overlap |
| MCanRam.ElementsDisjoint | Software_CC2642/Can_44_TCAN4x5x_MCan.c:1252-1255 | under the access formulas any two configured elements are word aligned and disjoint |
| MCanRam.AddressIsLinear | Software_CC2642/Can_44_TCAN4x5x_MCan.c:1378-1380 | the word formulas step by exactly the element size |
| MCanRam.ConfigureGlobalFilters | Software_CC2642/Can_44_TCAN4x5x_MCan.c:883-903 | the n-th filter goes to the slot counted by its own `uint8` index, wrap-around of the extended index included |
| MCanRam.OnceExactly | Software_CC2642/Can_44_TCAN4x5x_MCan.c:2138-2174 | no slot of a type is written twice if and only if there are at most 128 extended filters |
| MCanRam.SlotsExactly | Software_CC2642/Can_44_TCAN4x5x_MCan.c:2138-2174 | each slot of a section is written exactly once and none outside it if and only if its size is the number of its filters and the index does not wrap |
| MCanData.StoreBytes | Software_CC2642/Can_44_TCAN4x5x_MCan.c:2367-2388 | the transmit words hold payload and fill, least significant byte first, and every byte behind the frame keeps its value |
| MCanData.LoadBytes | Software_CC2642/Can_44_TCAN4x5x_MCan.c:1302-1310 | byte i is taken from its own lane of its own word |
| MCanData.Transfer | Software_CC2642/Can_44_TCAN4x5x_MCan.c:2351-2388 | stored by one driver and loaded by another, a frame arrives unchanged, grown at most by fill bytes |

## Left out

- MCanRam.ConfigureGlobalFilters: at most 255 filters, because the size of the list is a `uint8`.
- CanTpLockstep.NeverStalled: claims nothing about runs that accept a request while the transfer before it is still in flight; which configurations have such a run that stalls is CanTpOverlap.StallsExactly.
- CanTpLockstep.CountersInStep: the same runs, in which the two counters can differ (CanTpOverlap.OverlapStalls).
- CanTpCompletes.EverySduCanArrive: shows that a completing run exists; it makes no claim about schedules in which the neighbouring layers refuse.
- CanTpCapacity.DeliveredExactlyBelowCapacity: buffers of at most 65535 bytes, the reach of the `uint16` offset.
- CanTpNet.DeliveryIsFaithful: one connection with its own channels; channels shared between connections are not modelled.
- CanTpNode.Node.TxConfirmation: every connection has a confirmation id of its own; ids shared between connections are not modelled.
- AnchorComTxQueue.AcceptedUnlessQueued: point-to-point messages without overwrite; broadcast duplication to the second lower layer is not modelled.
- AnchorComEndToEnd.PayloadsInOrder: the transport takes a whole message at one moment; copying that goes on after the entry was removed is not modelled. It assumes that the receiver's freshness management finds the sender's value whenever it answers, and that the transport keeps the order of transmissions.
- AnchorComEntries.TxEntry.CopyTxData: copies onward from its own offset; the caller's retry offset is not modelled, because CanTp never passes one.
- CanTp burst queue, page confirmation, trigger transmit, dynamic and shared flow control, parameter change, selection of a connection by address byte, and initialisation checks.
- CanTp address format 4, whose frame layout disagrees with its address size table.
- The sub-state of a reception request inside one call, which no other call can see.
- AnchorCom lookup by lower-layer PDU, test-mode messages, asynchronous crypto completion, and the loop over peers, whose queues share nothing.
- Crypto, freshness and non-volatile memory internals, which are not in these sources; they are abstract functions and answers.
- UDS service handlers, response contents beyond their kind, session and security internals, and the CPU power request of the session timer.
- CanNm message contents, the transmit supervision timer that only reports a development error, and node configuration.
- CanIf controller and transceiver modes beyond the one that gates transmission, and time stamps.
- M_CAN transmit events and their attribution to PDUs, SPI transfers, baud rates, mode switching and bus-off handling.
- Development error reports, logging and version information everywhere.
- Routing wrappers (PduR, RTE): they forward each call by a table look-up and keep no state.
- IMC below the transport protocol, ICOM and the other transceiver variants.
