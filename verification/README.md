# A verified model of the XVC server and the AxisToJtag firmware

The system carries JTAG vectors from a client over TCP to a server, from there over a lossy message channel to firmware,
and to the pins of a target; TDO travels back. This project models the parts on the way and proves that none of the
machinery in between shows: chunks, word sizes, interleaving, retries, replays, stalls and clock dividers.

| files | part |
|---|---|
| `SerDes`, `SerDesTiming` | the serialiser, clock by clock, and its timing on the pins |
| `Core`, `CoreProof`, `ShiftSpec` | the core that turns frames into serialiser jobs, and what a frame means |
| `Header`, `Firmware`, `Sizes`, `Refusals` | the header word, the firmware message by message, the length check, the errors |
| `AxisToJtag`, `AxisProof`, `AxisRun` | the protocol FSM with replay memory and stream selector; whole runs from reset |
| `Progress`, `AxisProgress` | ranks that show that the design does not get stuck |
| `Entities` | the design's entities as objects with registers, one process step after the other |
| `Protocol`, `ProtocolProof`, `RetryProgress`, `StaleReply`, `ProtocolOnAxis` | host and firmware over channels that lose, delay and repeat |
| `HostSpec`, `HostHeader`, `HostMessage`, `Driver` | the host's message buffers, headers and retry loop |
| `ConnSpec`, `Requests`, `Conn` | the server's receive buffer, message parser and chunking loop |
| `TapFsm`, `Bscan`, `TapScan`, `UserScan`, `Client` | the TAP controller (section 6.1 of IEEE Std 1149.1), its registers, a register outside, and the client's algorithms |
| `Sniffer`, `Dump` | the two other implementations of the controller, which watch the vectors |
| `LoopBack`, `TmemFifo`, `TmemOut`, `TmemSdes` | the emulated target, and the back ends on the TMEM bus |
| `Bits`, `Jtag`, `Arith`, `Options` | bit vectors, targets, arithmetic facts |

Words are bit sequences, bit 0 first. A target is an arbitrary function from the (TMS, TDI) pairs clocked in so far to
the level of TDO. One unbroken shift of a vector is `Jtag.Tdo`; that is what every layer is compared with. The layers
meet: the clocked design refines `Firmware.Serve`, the protocol and the host driver run on `Firmware.Serve`, the server
runs on the driver, and the client on what the server does for a target with a TAP.

Where code is clocked or updates objects, the model does so too: a pure next-state function states what one clock does,
a class executes it process by process, and invariants and runs are proved about the function.

## Results that a reader may not expect

- `xferRel` looks at the transaction ID of a reply but not at its command. In a query reply the bits of the ID are the
  TCK period. If a query was sent again, a late reply to it is taken for the reply to the first shift when the period
  byte happens to equal that shift's ID. `StaleReply.FailingRun` is such a run, for every target whose period byte is not
  zero; `StaleReply.PeriodIff` says that there is none otherwise. `ProtocolProof.SafeCallIff` gives the exact condition
  for a single call; the guarantee of the protocol is proved for all runs in which it is met.
- A query accepts any reply, also a late one to a shift. The protocol makes queries only while no message is in flight,
  and the server is proved for links with late replies as long as a session asks for the greeting, which makes it query
  the target, before its first shift only: `Conn.XvcConn.Run`. The shift path has no such condition.
- Without replay memory a shift must not be repeated by the channel: `ProtocolProof.RepeatIff`.
- The server announces its longest vector in bytes and the Python client takes it for bits, so it uses an eighth of it:
  `Client.XvcClient`.
- `checkLen` rounds the word width up to a power of two. It protects the memory for widths of 4, 8 and 16 bytes, and for
  other widths only if the memory holds the longest shift: `Sizes.CheckProtectsIff`.
- Nothing keeps the length out of the transaction ID in `mkShift`; the header is right exactly up to 2^20 bits:
  `HostHeader.HeaderFields`.
- A message longer than the outgoing TMEM FIFO is cut without notice: `TmemOut.JtagDriverTmemSender.Send`.

## Model

| member | source | states |
|---|---|---|
| `AxisRun.RepliesInOrder` | rtl/Axis2Jtag/AxisToJtag.vhd:478-627 | Main result for the design. For every run of clocks from reset (any stalls on both streams, any divider, any target, arbitrary RAM contents) what has been sent is a prefix of the replies to the requests served one by one: each request gets exactly one framed reply, in order, and no word is lost, repeated or mixed in |
| `AxisRun.IdleMeansServed` | rtl/Axis2Jtag/AxisToJtag.vhd:599-626 | Whenever the FSM is idle in such a run, the stream stands at a frame boundary, the consumed requests are answered completely, the TCK edges made so far are exactly the bits of the shifts that had to be executed, and the replay memory holds the words and ID of the last shift |
| `AxisProgress.AllServed` | rtl/Axis2Jtag/AxisToJtag.vhd:472-656 | The design never gets stuck. In every run, however it stalls, once there were as many clocks in which words could move on both streams as the requests cost, all requests are consumed and answered completely and the target has seen all their shifts |
| `AxisProgress.RunWithin` | rtl/Axis2Jtag/AxisToJtag.vhd:472-656 | Along every run, what is left to do and the clocks that helped so far stay within the budget |
| `AxisProgress.WorkProgress` | rtl/Axis2Jtag/AxisToJtag.vhd:472-631 | Inside a request no clock raises the rank, and each clock in which words can move lowers it |
| `Progress.CoreProgress` | rtl/Axis2Jtag/AxisToJtagCore.vhd:223-346 | The same for the core with its serialiser, from GET_TMS_S to the end of DISCARD_S |
| `Progress.SerGoesOn` | rtl/Axis2Jtag/JtagSerDesCore.vhd:104-200 | The serialiser's rank falls in each clock unless it is empty or has a finished word nobody takes |
| `Progress.SerTakes` | rtl/Axis2Jtag/JtagSerDesCore.vhd:113-180 | Taking a word adds at most two half periods for each of its bits, and less than one half period more; a word of full width bounds that |
| `AxisRun.RunKeepsInv` | rtl/Axis2Jtag/AxisToJtag.vhd:472-656 | The invariant of the whole design (FSM, selector, RAM, core, serialiser) holds after every run |
| `AxisRun.SelectorStep` | rtl/Axis2Jtag/AxiStreamSelector.vhd:56-77 | One clock of the design adds to what was sent exactly the word the selector takes in, if it takes one: it neither loses nor repeats a word |
| `AxisProof.WorkStep` | rtl/Axis2Jtag/AxisToJtag.vhd:472-631 | Inside a request, each clock in any of the five busy states leads to a busy state of the same request or to its completion |
| `AxisProof.RestStep` | rtl/Axis2Jtag/AxisToJtag.vhd:478-541 | Without a request on offer the idle design stays at rest and sends nothing |
| `AxisProof.BeginStep` | rtl/Axis2Jtag/AxisToJtag.vhd:478-541 | The header of a request is classified as the message-level specification says and the matching state is entered; the error codes that follow are in Refusals |
| `AxisProof.ReplayStep` | rtl/Axis2Jtag/AxisToJtag.vhd:606-645 | REPLAY_S: memOut stays the memory word before the read index in spite of the RAM latency, under any back-pressure |
| `AxisProof.AbsorbedWord` | rtl/Axis2Jtag/AxisToJtag.vhd:419-470 | Any word that enters the output stream is the next word of the reply due, with TLAST exactly on the last one: the word read past the end of the record never gets out |
| `AxisProof.CoreStaysAtRest` | rtl/Axis2Jtag/AxisToJtag.vhd:361-373 | While the request stream is not passed to the core, the core and the serialiser stay at rest |
| `Firmware.ShiftAnswer` | rtl/Axis2Jtag/AxisToJtagPkg.vhd:60-90 | Running a shift, bit by bit: edge i carries bit i of the TMS and TDI words, bit i of the reply is TDO just before edge i, there are ceil(n / W) reply words, zeros above bit n, and n is all announced bits unless TLAST came early |
| `Refusals.OtherVersion` | rtl/Axis2Jtag/AxisToJtag.vhd:493-497 | A request of another version, whatever else it says, gets one word with command 2, code 1, its own ID, and version 0, from which the host learns the version; nothing else changes |
| `Refusals.OtherCommand` | rtl/Axis2Jtag/AxisToJtag.vhd:530-533 | A command other than query and shift gets code 2 |
| `Refusals.ShortShift` | rtl/Axis2Jtag/AxisToJtag.vhd:507-529 | A shift that is a header alone, has TLAST on its first TMS word, or is longer than the memory gets code 3 and the target sees nothing |
| `Refusals.AnyQuery` | rtl/Axis2Jtag/AxisToJtag.vhd:501-505 | A query is answered with word size, depth and period, whatever else its header says, and invalidates the memory |
| `Refusals.WholeShift` | rtl/Axis2Jtag/AxisToJtag.vhd:507-529 | All other shifts: a repeated one gets the remembered reply and the target sees nothing, a new one is made and remembered |
| `Refusals.HostFails` | xvcSrv/src/xvcSrv.cc:318-336 | The host takes each of these replies for an error, whatever it waits for |
| `CoreProof.BusyStep` | rtl/Axis2Jtag/AxisToJtagCore.vhd:223-346 | Each clock inside a frame keeps the invariant of core and serialiser, under any stalls, until the frame is finished |
| `CoreProof.CompletesExactly` | rtl/Axis2Jtag/AxisToJtagCore.vhd:334-342 | Words accepted minus words returned is at most 3, so the comparison of the 2-bit counters holds exactly when the word coming back is the last one outstanding |
| `CoreProof.CollectStep` | rtl/Axis2Jtag/AxisToJtagCore.vhd:327-342 | A word that comes back and does not complete the frame is a full word of the reply, in order |
| `CoreProof.CompleteStep` | rtl/Axis2Jtag/AxisToJtagCore.vhd:334-342 | ALIGN_S is entered from SHIFT_S only with the true last word in the reply register and nothing outstanding |
| `CoreProof.AlignShift` | rtl/Axis2Jtag/AxisToJtagCore.vhd:300-311 | Aligning: each right shift brings the last word one step nearer to its zero-filled form, which it has when none is left |
| `CoreProof.EmittedWord` | rtl/Axis2Jtag/AxisToJtagCore.vhd:327-333 | A word the core emits is the next reply word of the frame, with TLAST exactly on the last one |
| `CoreProof.BusyPos` | rtl/Axis2Jtag/AxisToJtagCore.vhd:312-325 | Inside a frame the position in the request stream is never past its TLAST |
| `CoreProof.BusyEnds` | rtl/Axis2Jtag/AxisToJtagCore.vhd:312-325 | A frame with data ends in the clock, and only in the clock, in which the core emits a word with TLAST; that everything is taken and given back by then is in BusyStep |
| `CoreProof.StillbornStep` | rtl/Axis2Jtag/AxisToJtagCore.vhd:248-259 | TLAST on the very first TMS word ends the frame with nothing shifted and nothing sent |
| `CoreProof.SerTick` | rtl/Axis2Jtag/AxisToJtagCore.vhd:192 | One clock of the serialiser inside the core, given that the core has room when a word comes back without waiting: their joint invariant is kept. OfferKeepsRoom shows that the core always has that room |
| `Entities.OfferKeepsRoom` | rtl/Axis2Jtag/AxisToJtagCore.vhd:192 | Whatever state the core is in, and for any input, room for the serialiser's word is kept from the cycle in which it was promised until the word comes |
| `ShiftSpec.FrameIsJobs` | rtl/Axis2Jtag/AxisToJtagCore.vhd:246-289 | The serialiser jobs cut from a frame add up to exactly the bits of the frame, in order, also with early TLAST |
| `ShiftSpec.RepWordIsPiece` | rtl/Axis2Jtag/AxisToJtagCore.vhd:300-346 | Each reply word of the core is the matching word of one unbroken shift of the frame |
| `SerDes.Step` | rtl/Axis2Jtag/JtagSerDesCore.vhd:104-200 | Every clock with any divider, stalls and target keeps: edges made are the bits of the words taken, words returned are their TDO samples, in order, with adjacent words sharing one sample |
| `SerDes.Holds` | rtl/Axis2Jtag/JtagSerDesCore.vhd:124-194 | At most two words are inside; none exactly when the serialiser is idle with nothing on offer |
| `SerDes.OfferNeedsReady` | rtl/Axis2Jtag/JtagSerDesCore.vhd:140-154 | A word is offered without waiting only if the receiver was ready in the cycle before |
| `SerDes.OfferStable` | rtl/Axis2Jtag/JtagSerDesCore.vhd:182-194 | A word on offer that is not taken stays on offer unchanged |
| `SerDes.LastBitStep` | rtl/Axis2Jtag/JtagSerDesCore.vhd:124-154 | The sample that completes a word: go on with the next word at once, wait, or stop |
| `SerDes.WaiStep` | rtl/Axis2Jtag/JtagSerDesCore.vhd:182-194 | A waiting word is handed over once and the next one starts with the sample already taken |
| `SerDes.HandoverFall` | rtl/Axis2Jtag/JtagSerDesCore.vhd:156-181 | With a half period of one clock, the cycle that hands a word over also lowers TCK, and still nothing is lost |
| `SerDesTiming.PinTiming` | rtl/Axis2Jtag/JtagSerDesCore.vhd:112-196 | In every run: before TCK rises it was low for at least CLK_DIV2_G cycles with TMS and TDI already at the values of the edge; before it falls it was high for exactly CLK_DIV2_G cycles with TMS and TDI unchanged |
| `SerDesTiming.PhaseAlways` | rtl/Axis2Jtag/JtagSerDesCore.vhd:112-196 | In every state of every run the divider tells how long the current phase of TCK has lasted |
| `SerDesTiming.StrobesMarkEdges` | rtl/Axis2Jtag/JtagSerDesCore.vhd:104-200 | In every run the strobes are active exactly in the cycles in which TCK has just risen or fallen |
| `Entities.JtagSerDesCore.Clock` | rtl/Axis2Jtag/JtagSerDesCore.vhd:202-211 | The clocked process: registers become the next-state function of the old ones, or the reset values; the serialiser invariant is kept |
| `Entities.JtagSerDesCore.Comb` | rtl/Axis2Jtag/JtagSerDesCore.vhd:104-200 | The combinational process, statement by statement, computes the next-state function the proofs are about |
| `Entities.AxisToJtagCore.Comb` | rtl/Axis2Jtag/AxisToJtagCore.vhd:223-346 | The core's combinational process, statement by statement, computes the next-state function the proofs are about |
| `Entities.AxisToJtagCore.Clock` | rtl/Axis2Jtag/AxisToJtagCore.vhd:348-357 | One clock of core and embedded serialiser; their joint invariant is kept for any input |
| `Entities.AxisToJtag.Comb` | rtl/Axis2Jtag/AxisToJtag.vhd:472-631 | The FSM's combinational process, statement by statement, computes the next-state function the proofs are about |
| `Entities.AxisToJtag.Ram` | rtl/Axis2Jtag/AxisToJtag.vhd:633-645 | The replay memory: TDO words are written at the write index, the read port is one clock late and a write does not show in it |
| `Entities.AxisToJtag.Clock` | rtl/Axis2Jtag/AxisToJtag.vhd:647-656 | One clock of the whole design equals the next-state function on all registers together, or resets it |
| `Entities.AxisToJtag.Step` | rtl/Axis2Jtag/AxisToJtag.vhd:647-656 | Without a reset, all parts clocked together are one step of the next-state function |
| `Entities.AxisToJtag.Reset` | rtl/Axis2Jtag/AxisToJtag.vhd:647-656 | A reset at any time leads to a state from which the results on runs hold, whatever the memory holds |
| `Header.ErrFields` | rtl/Axis2Jtag/AxisToJtagPkg.vhd:106-114 | A client reads the error command, the error code, and the request's own transaction ID and version from an error reply |
| `Header.QueryFields` | rtl/Axis2Jtag/AxisToJtag.vhd:284-294 | From a query reply the word size, the memory depth and the TCK period can be read back; the period stands where a shift has its transaction ID |
| `Sizes.CheckProtectsIff` | rtl/Axis2Jtag/AxisToJtag.vhd:263-282 | With a memory, every length checkLen accepts fits it if and only if the word width is a power of two or the memory holds the longest shift there is |
| `Sizes.LenFitsExactly` | rtl/Axis2Jtag/AxisToJtag.vhd:263-282 | For every length a header can carry, the 21-bit sum does not wrap: checkLen is a comparison of bit counts |
| `Sizes.PowerOfTwoWidths` | rtl/Axis2Jtag/AxisToJtag.vhd:263-282 | The word widths that are a power of two are 4, 8 and 16 bytes |
| `Sizes.AdmissibleWhenClean` | rtl/Axis2Jtag/AxisToJtag.vhd:263-282 | For these widths the results on the design ask only that TLAST is not on a second or later TMS word |
| `ProtocolProof.ExactlyOnceAlways` | xvcSrv/src/xvcSrv.cc:303-340 | Main result for the retry protocol. For every run over channels that lose, delay and repeat in place: the target has seen the bits of each executed call once, in the order of the calls, and every call that returned was executed and delivered the TDO of that single execution |
| `RetryProgress.AllAttempts` | xvcSrv/src/xvcSrv.cc:311-334 | In the protocol each timeout sends the message once more, for as many attempts as there are |
| `RetryProgress.GivesUp` | xvcSrv/src/xvcSrv.cc:311-340 | Only the timeout after the last attempt ends the connection, and it does |
| `RetryProgress.CanReturn` | xvcSrv/src/xvcSrv.cc:311-340 | Whatever has happened to a call: while it has an attempt left, there is a run in which it returns, and then with the TDO of its single execution |
| `ProtocolProof.Step` | xvcSrv/src/xvcSrv.cc:303-380 | Each action of host, firmware or channels keeps the protocol invariant |
| `ProtocolProof.SafeCallIff` | xvcSrv/src/xvcSrv.cc:318-336 | The first shift after a query whose messages are still in flight goes well on all accounts if and only if the TCK period byte differs from its transaction ID: a late query reply is judged by that byte alone |
| `ProtocolProof.StaleQueryAccepted` | xvcSrv/src/xvcSrv.cc:318-336 | A query reply with the period of the awaited ID is taken for the reply to a shift the target has not even seen |
| `StaleReply.PeriodIff` | xvcSrv/src/xvcSrv.cc:303-380 | All runs of the protocol, with shifts called at any time, are good if and only if the period byte of the query reply is zero, which no transaction ID is |
| `StaleReply.FailingRun` | xvcSrv/src/xvcSrv.cc:303-380 | For every configuration with another period byte, a run from the start that fails: query, timeout, the same query, both answered, one reply taken, then a shift whose ID is the period byte; no message is lost or repeated, and the call returns without having been executed |
| `ProtocolProof.RepeatIff` | xvcSrv/src/xvcSrv.cc:367-370 | At any place in the request channel, repeating a message does no harm if and only if there is a replay memory or the message is a query; this is why the host makes a single attempt without one |
| `Protocol.NextXidDiffers` | xvcSrv/src/xvcSrv.cc:110-118 | A new transaction ID is never the one that matches anything and never the one before |
| `Protocol.ServeQuery` | rtl/Axis2Jtag/AxisToJtag.vhd:493-500 | A query invalidates the memory, leaves the target alone, and its reply is accepted by the host |
| `ProtocolOnAxis.ProtocolMeetsDesign` | rtl/Axis2Jtag/AxisToJtag.vhd:478-627 | The protocol on the clocked design: for every run of the protocol and every run of clocks on the requests that reach the target in it, once the design is idle with all of them consumed, the TCK edges on its pins are the bits of each executed call once and in order, every call that returned was executed, and what it returned left the design as one frame of its reply stream |
| `ProtocolOnAxis.ReceivedReady` | rtl/Axis2Jtag/AxisToJtag.vhd:478-627 | The requests that reach the target in a run of the protocol are ones on which the clocked design is proved; serving them gives the target state and history that the protocol has, and every reply under way and every result is a reply to one of them |
| `HostHeader.HeaderFields` | xvcSrv/src/xvcSrv.cc:177-182 | The header built by or-ing says version, command, ID and length as meant if and only if the vector has at most 2^20 bits; a longer one runs into the ID |
| `HostMessage.MessageMeansVectors` | xvcSrv/src/xvcSrv.cc:423-463 | For any vectors that fit, any ID and any stale bytes in the padding, the interleaved message is a proper shift request whose bits are those of the vectors |
| `HostMessage.PayloadIsPacked` | xvcSrv/src/xvcSrv.cc:423-471 | The bytes of the reply words are the TDO bits packed byte by byte, for any word size |
| `HostMessage.FitsTarget` | rtl/Axis2Jtag/AxisToJtag.vhd:263-282 | A vector that fits the target's memory in bytes passes checkLen and needs no more reply words than the memory has |
| `Driver.Resend` | xvcSrv/src/xvcSrv.cc:318-336 | Sending a message again, whether or not the target has seen it, leaves the same target state and gets the same reply |
| `Driver.JtagDriver.NewXid` | xvcSrv/src/xvcSrv.cc:110-118 | The new ID is the specified successor, within 1 to 255, and differs from the old one |
| `Driver.JtagDriver.XferRel` | xvcSrv/src/xvcSrv.cc:303-340 | The retry loop over a link that loses requests and loses, delays and repeats replies: old replies are passed over, a shift is executed at most once, exactly once if answered, and then the client has the TDO of that execution. It gives up only after all of its attempts, and not if more of these exchanges are good ones than there are old replies; on a punctual link it is answered if and only if one of them is good. Nothing else in the client's buffer changes |
| `Driver.JtagDriver.Attempt` | xvcSrv/src/xvcSrv.cc:318-336 | One attempt: what arrives is the reply due, which is accepted, or an old one, which is not |
| `Driver.QueryReplyNotFor` | xvcSrv/src/xvcSrv.cc:318-336 | A late query reply is passed over by a host waiting for a shift if and only if the TCK period differs from the ID |
| `Driver.JtagDriver.Interleave` | xvcSrv/src/xvcSrv.cc:434-463 | The planar vectors end up word by word, TMS before TDI, behind the header, the last word as far as there are bytes |
| `Driver.JtagDriver.FillMessage` | xvcSrv/src/xvcSrv.cc:423-463 | A fresh ID, the header and the interleaved vectors are in the message buffer |
| `Driver.JtagDriver.Query` | xvcSrv/src/xvcSrv.cc:342-380 | If the target answers, be it to an earlier query, word size, depth, retries and buffer size match it; and unless the TCK period equals the next ID while copies of the answer are still on their way, nothing can be confused with the next shift |
| `Driver.JtagDriver.SendVectors` | xvcSrv/src/xvcSrv.cc:423-471 | The target sees the vector exactly once if the call succeeds, at most once if not; the client's bytes are those of one unbroken shift. The call succeeds whenever more of its 1 or 6 exchanges are good than there are old replies |
| `Driver.StoredAll` | xvcSrv/src/xvcSrv.cc:465-471 | The stored payload is what an unbroken shift gives |
| `ConnSpec.UnbrokenPart` | xvcSrv/src/xvcConn.cc:224-254 | A shift broken at a byte boundary gives the matching part of the bytes of the unbroken shift |
| `ConnSpec.ChunkDone` | xvcSrv/src/xvcConn.cc:224-254 | One more chunk extends both what the target saw and what the client will get |
| `Conn.XvcConn.Fill` | xvcSrv/src/xvcConn.cc:75-97 | Reads until enough bytes are there, however they arrive; the stream of unread bytes is unchanged, and false means that it was too short |
| `Conn.XvcConn.Bump` | xvcSrv/src/xvcConn.cc:99-107 | Consumes bytes, and restarts the buffer when it is empty |
| `Conn.XvcConn.Flush` | xvcSrv/src/xvcConn.cc:142-156 | All of the reply is sent, in order, however the network cuts it |
| `Conn.XvcConn.AllocBufs` | xvcSrv/src/xvcConn.cc:109-140 | The buffers are large enough for any message behind any place within the first chunk; a longest piece of a vector fits the driver's buffer, the target's memory and the limit of the driver, if there is one, and no longer one would |
| `Conn.SupVecLenIsLongest` | xvcSrv/src/xvcConn.cc:109-140 | The pieces in which a vector goes to the target are the longest that the limits of driver and target allow |
| `Conn.XvcConn.ShiftChunks` | xvcSrv/src/xvcConn.cc:224-254 | The chunking loop, over any link: if all chunks are answered, client and target cannot tell it from one unbroken shift, whatever chunk and word size are; if the driver gives up, the target has seen a beginning of that shift and nothing twice |
| `Conn.XvcConn.HandleShift` | xvcSrv/src/xvcConn.cc:218-260 | A shift message, over any link: what is consumed, sent and shown to the target is what parsing says, and a beginning of its bits if the driver gives up |
| `Conn.XvcConn.Handle` | xvcSrv/src/xvcConn.cc:180-267 | One message: what is consumed, sent and shown to the target is what parsing the rest of the stream says (see Requests); errors end the session as it says; if the driver gives up, the target has seen a beginning of the bits of the message |
| `Conn.XvcConn.Dispatch` | xvcSrv/src/xvcConn.cc:195-257 | The same by the kind of the message; before the greeting goes out, the target has been told of a new connection, or its answer to an earlier query was taken |
| `Requests.Kinds` | xvcSrv/src/xvcConn.cc:195-257 | The kinds of messages by the character codes of their first two letters, and no other kind |
| `Requests.InfoParsed` | xvcSrv/src/xvcConn.cc:195-203 | `getinfo:`, whatever follows: eight bytes are consumed, the greeting is sent, the target sees nothing |
| `Requests.PeriodParsed` | xvcSrv/src/xvcConn.cc:204-222 | `settck:` and a number, whatever follows: eleven bytes are consumed, the target sees nothing, and the reply is the period in use from then on, the server's own one or the number |
| `Requests.OtherParsed` | xvcSrv/src/xvcConn.cc:255-257 | Any other two characters end the session |
| `Requests.CutParsed` | xvcSrv/src/xvcConn.cc:180-267 | A part of a message is not acted upon |
| `Conn.XvcConn.Run` | xvcSrv/src/xvcConn.cc:158-271 | Main result for the server. For every way the stream is cut into reads and writes, and over a link that loses requests and loses, delays and repeats replies: bytes sent, target history and end of the session are a function of the client's bytes alone, with each shift unbroken. If the driver gives up, the bytes sent and the target's history are beginnings of these: executed in order, nothing twice. It does not give up on a link without faults, nor on a punctual one that has a good exchange among any 6 (1 without a memory) in a row, however much else it loses |
| `ConnSpec.AsksOn` | xvcSrv/src/xvcConn.cc:180-267 | What it means for a session that it asks for the greeting only before its first shift, message by message |
| `TapFsm.JtagTapFSM.Clock` | rtl/JtagTap/JtagTapFSM.vhd:102-175 | From the encoding of any state the one-hot registers go to the encoding of the next state of the standard's diagram, and the branches that should never be reached are not reached; from register values that encode no state they would lead to Test-Logic-Reset |
| `TapFsm.ResetFromAnywhere` | rtl/JtagTap/JtagTapFSM.vhd:102-175 | Five ones on TMS lead to Test-Logic-Reset from any state |
| `TapFsm.PauseAndBack` | rtl/JtagTap/JtagTapFSM.vhd:102-175 | A pause of any length in the middle of a shift leads back to the shift |
| `TapFsm.ToUpdate` | rtl/JtagTap/JtagTapFSM.vhd:102-175 | From a shift, straight or out of a pause of any length, two ones lead to the update |
| `TapFsm.ToCapture` | rtl/JtagTap/JtagTapFSM.vhd:102-175 | From Run-Test/Idle or an update: the ways to the two captures and shifts |
| `Bscan.DecodeEncode` | rtl/JtagTap/JtagTapFSM.vhd:66-100 | The outputs of the FSM tell its state |
| `Bscan.JtagTapIR.RisingEdge` | rtl/JtagTap/JtagTapIR.vhd:115-146 | The rising-edge registers after an edge in a given state |
| `Bscan.Jtag2BSCAN.RisingEdge` | rtl/Jtag2BSCAN/Jtag2BSCAN.vhd:149-259 | FSM, registers and the outputs for the USER register together follow the TAP model on a rising edge; the FSM never fails |
| `Bscan.Jtag2BSCAN.FallingEdge` | rtl/Jtag2BSCAN/Jtag2BSCAN.vhd:149-259 | The same on a falling edge, with the instruction and the registered TDO |
| `TapScan.ScanSemantics` | rtl/JtagTap/JtagTapIR.vhd:94-146 | For any number of shifts, any data and any detours through Pause: a scan shows the captured bits (the fixed IR pattern, the ID, or a zero for BYPASS) and then what was sent, and the register holds the end of that |
| `TapScan.UpdateLatches` | rtl/JtagTap/JtagTapIR.vhd:94-113 | Update-IR latches the last IR_LENGTH bits of what passed through |
| `UserScan.UserLevel` | rtl/Jtag2BSCAN/Jtag2BSCAN.vhd:149-176 | With the USER instruction and in Shift-DR, TDO is the level that the USER register drives |
| `UserScan.UserSeen` | rtl/Jtag2BSCAN/Jtag2BSCAN.vhd:149-176 | So a scan with any detours shows what the USER device drove at its edges |
| `UserScan.NoneSeen` | rtl/JtagTap/JtagTapIR.vhd:94-146 | With an instruction that selects no register a scan shows ones only |
| `UserScan.PortsAlways` | rtl/Jtag2BSCAN/Jtag2BSCAN.vhd:149-259 | In every run from power-up, while TCK is low: CAPTURE, SHIFT and UPDATE tell the state, SEL whether the USER register is selected, and DRCK is gated by them |
| `UserScan.DrckRises` | rtl/Jtag2BSCAN/Jtag2BSCAN.vhd:223-251 | DRCK rises with TCK exactly if the USER register is selected and is to capture or shift; where else it rises neither CAPTURE nor SHIFT is active |
| `UserScan.UserScanSemantics` | rtl/Jtag2BSCAN/Jtag2BSCAN.vhd:149-259 | A register outside that obeys DRCK, CAPTURE and SHIFT takes part like one of the TAP's own: for any length, data and detours the scan shows what it captured and then what was sent, and it holds the end of that |
| `UserScan.UserUpdates` | rtl/Jtag2BSCAN/Jtag2BSCAN.vhd:223-251 | When UPDATE comes up after such a scan, the register holds the last bits that were sent |
| `Client.XvcClient.SendVecs` | xvcSrv/src/xvcClient.py:58-72 | The bytes of a `shift:` message are built, parsed as the server parses them, and the reply is read back: vectors as integers go out and come back bit for bit; an exception is raised exactly for vectors that are too long, too large for their bytes, or of a length that wraps in the server's count of bytes |
| `Requests.ShiftParsed` | xvcSrv/src/xvcConn.cc:223-254 | The server parses the client's message, whatever follows it, as a shift of exactly these vectors, with the reply of the unbroken shift, unless it is too long or its length wraps the count of bytes, in which case it rejects the message |
| `Client.XvcClient.constructor` | xvcSrv/src/xvcClient.py:17-22 | A new client has probed the instruction register: it knows its length, if that is at most 1024 and vectors of 1026 bits are allowed |
| `Client.XvcClient.ResetToIdle` | xvcSrv/src/xvcClient.py:74-77 | From any state the TAP is in Run-Test/Idle with the ID instruction |
| `Client.XvcClient.Shift` | xvcSrv/src/xvcClient.py:98-106 | The result is what the register in the scan path held followed by what came in; with update the TAP ends in Run-Test/Idle and an IR scan has latched the last bits |
| `Client.XvcClient.GetID` | xvcSrv/src/xvcClient.py:108-117 | From any state: the result is the ID and the TAP ends in Run-Test/Idle, unless vectors of 34 bits are not allowed, in which case there is an exception |
| `Client.XvcClient.GetIRLength` | xvcSrv/src/xvcClient.py:119-132 | From any state, with vectors of 1026 bits allowed: the result is IR_LENGTH for every length up to 1024 and the TAP ends in Run-Test/Idle, whether the length is probed or known |
| `Client.PlanarIsPins` | xvcSrv/src/xvcClient.py:58-72 | The bytes the client sends ask the server for the pins the integers mean, for any number of bits |
| `Client.FromPacked` | xvcSrv/src/xvcClient.py:58-72 | The integer made from the reply's bytes is the one its TDO bits make |
| `Client.OnesOut` | xvcSrv/src/xvcClient.py:126-132 | Zeros pushed in behind ones bring out as many ones as the register is long |
| `Client.OnesCounted` | xvcSrv/src/xvcClient.py:119-132 | The integer logarithm of what comes out, and one, is the length of the register |
| `Sniffer.JtagSniffer.ProcessVecs` | rtl/sim/JtagSniffer.py:264-268 | Vectors as integers are watched bit by bit, low bits first; the exception stops at the offending edge |
| `Sniffer.NoLimit` | rtl/sim/JtagSniffer.py:188-192 | Without an instruction length to compare with, the exception is never raised |
| `Sniffer.SnifferFollows` | rtl/sim/JtagSniffer.py:1-165 | In every run from reset in which no instruction scan had the wrong length, the sniffer is in the TAP's state, and what it has counted and collected is what the scan has sent since its capture, by the state diagram alone |
| `Sniffer.RecordedIsLatched` | rtl/sim/JtagSniffer.py:188-192 | At Update-IR the sniffer raises its exception if and only if the number of Shift-IR edges since the latest Capture-IR is not the length of the instruction register, and otherwise records the instruction the TAP latched |
| `Sniffer.LastScanIsSent` | rtl/sim/JtagSniffer.py:177-186 | The bits since the latest capture are those that were sent through the register, whatever the detours through Pause were |
| `Sniffer.ScanCollected` | rtl/sim/JtagSniffer.py:243-252 | For any scan of the data register, with any detours: with the USER instruction the bits sent are collected, with their number; with any other one the data record stays as it is |
| `Sniffer.UpdateRecords` | rtl/sim/JtagSniffer.py:188-192 | When Update-DR is left, value and length of that scan are recorded, for the USER instruction only |
| `Sniffer.RecordedIsUsers` | rtl/sim/JtagSniffer.py:243-262 | For a scan as long as the register behind the USER instruction, what the sniffer records is what that register holds when it is told to update |
| `Dump.JtagRegType.AddBit` | xvcSrv/src/jtagDump.cc:38-49 | The bit count over 64-bit words goes up by one |
| `Dump.JtagDumpCtx.Advance` | xvcSrv/src/jtagDump.cc:51-213 | The sixteen state objects take the edges of the standard's diagram, and count shifts since the last capture |
| `Dump.JtagDumpCtx.ProcessBuf` | xvcSrv/src/jtagDump.cc:304-324 | Bytes of TMS are processed as the fold over their bits, up to the wanted state; the result is how many bits are left |
| `Dump.ProcessInPieces` | xvcSrv/src/jtagDump.cc:304-324 | Vectors cut anywhere are watched as if they came at once |
| `Dump.StopsAtFirst` | xvcSrv/src/jtagDump.cc:304-324 | Processing stops exactly where the wanted state is reached for the first time, and the number of bits left says where that was |
| `Dump.DumpFollows` | xvcSrv/src/jtagDump.cc:51-213 | For every TMS trace the state is that of the TAP, and after any part of a scan the length is the number of its shifts |
| `LoopBack.UdpLoopBack.Xfer` | xvcSrv/src/xvcDrvLoopBack.cc:271-309 | From the first query on, each request is answered as the replay specification says; the error of a retry without a valid message is unreachable |
| `LoopBack.UdpLoopBack.Run` | xvcSrv/src/xvcDrvLoopBack.cc:319-342 | The loop, with each 256th request dropped if so set: if the first request that gets through is a query, the replies sent are those of the replay specification to the requests that get through, and the error is unreachable |
| `LoopBack.LastOf256Dropped` | xvcSrv/src/xvcDrvLoopBack.cc:333-336 | Of 256 requests the first 255 get through and the last one does not, and so on with the following ones |
| `LoopBack.LikeFirmware` | xvcSrv/src/xvcDrvLoopBack.cc:271-309 | For every sequence of queries, new and repeated shifts, the emulated target processes a shift if and only if the firmware lets its target see the bits, and both remember the same transaction |
| `LoopBack.UdpLoopBack.CopyTdi` | xvcSrv/src/xvcDrvLoopBack.cc:152-239 | The de-interleaving loop yields the TDI bytes of the message |
| `LoopBack.LoopsTdiBack` | xvcSrv/src/xvcDrvLoopBack.cc:152-239 | The message a host makes of its vectors comes back as its TDI vector |
| `LoopBack.AnswersTdi` | xvcSrv/src/xvcDrvLoopBack.cc:271-309 | A new message of a host is processed and answered with its TDI vector, and the same message again is answered alike and not processed |
| `LoopBack.Idempotent` | xvcSrv/src/xvcDrvLoopBack.cc:271-309 | However often the last shift is sent again, it is answered alike and processed once |
| `TmemFifo.Axis2TmemFifo.Clock` | rtl/BusIf/Tmem/Axis2TmemFifo.vhd:186-263 | Each clock keeps: while words are left to read, wcntReg = wcntCnt = occupancy, and the reader gets whole frames in order |
| `TmemFifo.JtagDriverTmemFifo.ReadHeader` | xvcSrv/src/xvcDrvAxisTmem.cc:360-376 | The header is read word by word; the error is raised exactly if the frame ends before, with the frame read completely |
| `TmemFifo.JtagDriverTmemFifo.XferFifo` | xvcSrv/src/xvcDrvAxisTmem.cc:360-404 | The drain loops return header and payload of the waiting frame and read all of its words, so that the FIFO goes back to the stream at a frame boundary, also when the frame is too short for a header |
| `TmemOut.OutgoingFifo.Clock` | rtl/BusIf/Tmem/Axis2TmemFifo.vhd:385-426 | The outgoing side: the words written since the FIFO was given back leave in order, TLAST (nothing but the FIFO running empty) is on exactly the last one, and the FIFO is given back with that word; words that find it full are dropped |
| `TmemOut.JtagDriverTmemSender.Send` | xvcSrv/src/xvcDrvAxisTmem.cc:335-358 | The driver's writing loop: the message, zero-filled to whole words, is handed over whole if and only if it fits the FIFO |
| `TmemOut.WordsHoldBytes` | xvcSrv/src/xvcDrvAxisTmem.cc:335-358 | The words handed over are the bytes of the message with zeros behind them |
| `TmemOut.Deliver` | rtl/BusIf/Tmem/Axis2TmemFifo.vhd:389-426 | Whatever the receiver's readiness, the frame handed over is delivered as one frame and the FIFO is given back |
| `TmemSdes.JtagDriverTmem.Xfer32bb` | xvcSrv/src/xvcDrvAxisTmem.cc:226-266 | Bit-banging makes the target see the bits in order and returns their TDO, zeros above |
| `TmemSdes.JtagPort.RunSerialiser` | rtl/BusIf/Tmem/Tmem2BSCANWrapper.vhd:185-240 | The register back end is the serialiser of this model with 32 bits, clocked until it is not busy any more, which it will be: the target has seen the low bits of the words, and their TDO is at the top of the register |
| `TmemSdes.OneWord` | rtl/BusIf/Tmem/Tmem2BSCANWrapper.vhd:216-240 | What the serialiser's invariant says of a single word taken and delivered, after any history of the pins |
| `TmemSdes.JtagDriverTmem.Xfer32sdes` | xvcSrv/src/xvcDrvAxisTmem.cc:277-301 | The serialiser behind the registers does the same; its result is shifted down |
| `TmemSdes.JtagDriverTmem.XferSdes` | xvcSrv/src/xvcDrvAxisTmem.cc:415-521 | On either back end, for every message, target and client cannot tell the word loop from one unbroken shift of the vectors in the message |

## Left out

- Frames with TLAST on a second or later TMS word: what happens depends on timing; `Firmware.Admissible` excludes them.
- Entities.AxisToJtag.Reset: a reset in the middle of a run starts a new run; what the target's history and the streams were before is not carried over.
- TKEEP and TSTRB of the streams, and LEN widths other than the 20 bits that the design instantiates.
- The generic TLAST_IGNORE_G of the core: the value that the design uses is modelled.
- Index widths of the replay memory: indices are unbounded numbers; the proofs keep them within the memory.
- Reads of the replay memory outside its size give an arbitrary word.
- The encoding of the TCK period, which uses logarithms: the encoded byte is a parameter, and so is the period the server reports.
- Driver.JtagDriver.XferRel: requests are not repeated on the link; that is in `Protocol`.
- Driver.JtagDriver.SendVectors: after a failed call nothing is promised for the next one; the source throws and the connection ends.
- Driver.JtagDriver.Query: the first query is sent in a word of 4 bytes; the stream word it becomes is zero-filled.
- Protocol: a query is only made while no messages are in flight, because a query accepts any reply; the driver's `Link` also has queries that meet late replies to queries.
- Shifts of 2^32 - 7 bits or more: the byte count wraps to 0 and the first, empty chunk has a header of ones, which the firmware refuses; the model rejects the message at once.
- Conn.XvcConn.Run: on a link that delays replies, sessions with a `getinfo:` after a shift are left out, and targets whose TCK period equals the first transaction ID; vectors in one piece must be at most 2^17 bytes and, without a replay memory, fit the driver's initial buffer; the source does not check the latter two.
- `reserve` without `resize` on the driver's buffer: the buffer is modelled with the size that was asked for.
- Sockets, `select`, `poll`, `accept`, MTU discovery, threads, time stamps, sleeping, option parsing, driver registry: reads, writes and transfers are steps that the surroundings choose.
- Client.XvcClient.SendVecs: the socket and the text of the greeting; the server's answer is `ConnSpec.Parse` of the message. The floating-point logarithm is the integer one.
- Bscan.Jtag2BSCAN.FallingEdge: the outputs for a USER register are those of the variant with clock enables; with TCK as a clock, DRCK and SEL are gates on TCK. The reset input is not modelled.
- UserScan.PortsAlways: if USER and IDCODE had the same instruction code, SEL would not follow the instruction out of Test-Logic-Reset, where it is held off; the clause on SEL is for different codes.
- Dump.JtagRegType.AddBit: the count only; the source shifts an `int` by up to 63 when it stores the bit.
- Sniffer.JtagSniffer.ProcessVecs: printing; the sniffer does not forget its instruction in Test-Logic-Reset, and neither does the model.
- LoopBack.UdpLoopBack.Xfer: playback files, bad versions and commands, and the check for enough bytes, which a host's messages pass.
- TmemSdes.JtagPort.RunSerialiser: polling and bus cycles; the busy bit is looked at in every clock.
- TmemFifo.Axis2TmemFifo.Clock: interrupts, auxiliary registers, the reset sequence and the delay of the read data; frames longer than the FIFO stall the stream, as in the source.
- Vendor blocks (FIFO macro, BUFGCTRL, BSCANE2, the debug bridge IP with its driver) and testbenches.
