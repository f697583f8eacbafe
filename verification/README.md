# watlowlib, modelled and proved

This project models the parts of watlowlib that keep state over long runs or rest on an
algebraic guarantee, and proves what they are for. `dafny verify dfyconfig.toml` checks it.

- **The Standard Bus stack.** `Bits`, `Crc` and `CrcDetection` treat bytes as bit strings in
  wire order and the CRCs as polynomial division, and `CrcOrder` finds the order of the data
  generator; `Framing`, `Tlv` and `Payload` are the three
  codecs; `SerialTransport` is the chunked byte stream with pushback, and `StdBusClient` the
  resynchronising reader and the exchange above it, proved against one flat byte sequence;
  `Exchange` puts a session on top of it.
- **Acquisition.** `Poll` is one poll of a controller, `Recorder` the absolute-cadence scheduler
  with its bounded queue, and `Sinks` the two flush drivers.
- **Port sharing.** `Locking` is a state machine of tasks over FIFO locks with owner-aware
  re-entry; `Manager` is the ref-counted port table; `Session` the availability automaton and
  the confirm gate; `Discovery` the scan over ports.
- **Parameters.** `Registry` is the hash index over rows and its rescaling, `ModbusCodec` the
  scaled register codec.
- `Wrappers` and `Sequences` hold what they share.

Where the source works step by step the model does too: its methods are proved against
functions on values, and what the source promises is proved about those functions. Time,
bytes arriving, consumers taking batches, replies, failing opens and scheduling choices are inputs
that range over everything.

## What the code does that one might not expect

Each of these is a lemma below, with the exact condition where the property does hold.

- A frame comes back from its encoding only if its header fields are bytes; larger ones are
  cut to eight bits (`Framing.RoundTripIff`).
- The reader takes the byte after a 55 with it, so one stray 55 before a frame loses the frame
  (`StdBusClient.StrayByteLosesFrame`, `StdBusClient.Resynchronises`).
- The reader refuses frames the encoder builds: those with a payload of 513 to 65535 bytes
  (`StdBusClient.LongFramesAreRefused`, `StdBusClient.Resynchronises`).
- Two flipped bits 32767 places apart pass the data CRC. Frames with a payload of at most 4093 bytes,
  and so all that the reader takes, have no room for that (`Framing.TwoBitErrorRejectedIff`,
  `Framing.FewBitsSeenIff`).
- After an overrun the slot polled can lie past the last tick of the run
  (`Recorder.PastTheEnd`, `Recorder.PollPastTheEnd`).
- A poll by id asks again by the row's name. When another row holds that name the poll reads the
  other row and labels the sample with the first (`Poll.ReadsWhatItLabels`, `Poll.MislabelledRead`).
- A request for instance 0 is checked as one for the row's default instance, but over Standard Bus
  0 itself is sent (`Session.InstanceOnTheWire`, `Session.ZeroIsSentAsZero`).
- A reply is not compared with the request. One that comes after its call has timed out answers
  the next call, and so on down the line (`Exchange.AnyReplyAnswers`, `Exchange.OneReplyBehind`).
  Exchanges get their own replies exactly when nothing is left over on the line before them
  (`Exchange.OwnRepliesIffNothingIsStale`).
- Standard Bus has no tag to write a signed 16 bit row under, so such a write is refused, and on Modbus
  a row can only be written if its own register count is that of its type
  (`Session.PayloadCarriesTheValue`, `Session.ChecksInOrder`).
- The deadline of an exchange lies around those of its reads and passes before them, so a reply
  that is incomplete when it passes is lost, not held back (`StdBusClient.StdBusClient.Execute`).
- "Unsupported" is sticky only while calls do not overlap (`Session.StickyIffNothingInFlight`).
- Writing to an unscaled Modbus row cuts the fraction off; only scaled rows round
  (`ModbusCodec.WriteThenRead`).
- The documentation of `WatlowManager.close` promises a group of the teardown errors, but teardown
  swallows them. The promise is kept exactly when no close of an owned open Modbus transport fails; a
  Standard Bus transport swallows such an error itself (`Manager.WatlowManager.Close`,
  `Manager.CloseHidesAFailure`).
- A Modbus transport lets the error of its port through, so a scan that is the first to open a missing
  or busy port over Modbus raises instead of returning rows, although its documentation promises rows
  (`Discovery.MissingModbusPortRaises`). A scan returns its rows exactly when none of its opens and none
  of its probes escapes (`Discovery.FinishesIff`); with devices that answer or keep silent it does so
  for every condition of the ports exactly when no transport it reaches is Modbus, or of an Auto plan
  with an address to probe (`Discovery.SafeIffNoRiskyStop`).

## Model

| member | source | states |
|---|---|---|
| `Crc.HeaderStepIsSerial` | src/watlowlib/protocol/stdbus/_crc.py:17-20 | the parallel header step equals eight steps of the bit-serial register of x^8+x^7+1, for every register and byte |
| `Crc.DataStepIsSerial` | src/watlowlib/protocol/stdbus/_crc.py:31-41 | the parallel data step equals eight steps of the bit-serial register of x^16+x^12+x^5+1, for every register and byte |
| `Crc.HeaderCrc8` | src/watlowlib/protocol/stdbus/_crc.py:11-21 | the loop over the bytes computes the complement of the remainder of the whole bit string |
| `Crc.DataCrc16` | src/watlowlib/protocol/stdbus/_crc.py:24-42 | the loop over the bytes computes the complement of the remainder of the whole bit string |
| `Crc.DataCrcBytes` | src/watlowlib/protocol/stdbus/_crc.py:45-47 | the two wire bytes are the sixteen CRC bits, least significant first |
| `CrcDetection.BurstLeavesRemainder` | src/watlowlib/protocol/stdbus/_crc.py:16-42 | a nonzero error confined to as many consecutive bits as the register is wide is no multiple of the generator, at any length and alignment |
| `CrcDetection.OddLeavesRemainder` | src/watlowlib/protocol/stdbus/_crc.py:30-42 | with an even number of generator terms, an error of odd weight is no multiple of the generator |
| `CrcDetection.AcceptIsResidue` | src/watlowlib/protocol/stdbus/framing.py:95-107 | comparing the received CRC with the computed one is running on over it and finding the residue |
| `CrcDetection.HeaderResidue` | src/watlowlib/protocol/stdbus/_crc.py:11-21 | the header residue is 0x55 |
| `CrcDetection.DataResidue` | src/watlowlib/protocol/stdbus/_crc.py:24-42 | the data residue is 0xF0B8 |
| `CrcDetection.CrcIsAffine` | src/watlowlib/protocol/stdbus/_crc.py:16-42 | the CRC of the sum of three messages of one length is the sum of their CRCs |
| `CrcDetection.SameRegisterIff` | src/watlowlib/protocol/stdbus/_crc.py:16-42 | two messages of one length have the same CRC if and only if they differ by a multiple of the generator |
| `CrcOrder.OrderIs32767` | src/watlowlib/protocol/stdbus/_crc.py:30-42 | x^d leaves the remainder 1 modulo x^16+x^12+x^5+1 if and only if 32767 divides d |
| `CrcOrder.TwoBitsCancelIff` | src/watlowlib/protocol/stdbus/_crc.py:30-42 | an error of exactly two bits is a multiple of the data generator if and only if 32767 divides their distance, at any length and place |
| `CrcOrder.FewBitsLeaveRemainder` | src/watlowlib/protocol/stdbus/_crc.py:30-42 | an error of one to three bits within 32767 is no multiple of the data generator |
| `Framing.DecodeEncode` | src/watlowlib/protocol/stdbus/framing.py:52-108 | decoding an encoding, with any bytes after it, gives the frame with its header fields reduced to bytes |
| `Framing.RoundTripIff` | src/watlowlib/protocol/stdbus/framing.py:60-67 | the round trip is exact if and only if frame type, destination and source are bytes |
| `Framing.AcceptsOnlyEncodings` | src/watlowlib/protocol/stdbus/framing.py:75-108 | whatever the decoder accepts begins with the encoding of the frame it returns |
| `Framing.AcceptsExactlyEncodings` | src/watlowlib/protocol/stdbus/framing.py:75-108 | a buffer decodes to a frame of byte-sized fields if and only if it begins with that frame's encoding |
| `Framing.PrefixesAreRefused` | src/watlowlib/protocol/stdbus/framing.py:86-103 | a frame cut short anywhere is refused, in its header as too short and behind it as truncated |
| `Framing.PreambleIsRequired` | src/watlowlib/protocol/stdbus/framing.py:86-89 | eight bytes or more are refused for their preamble if and only if they do not begin with 55 FF |
| `Framing.AcceptConstants` | src/watlowlib/protocol/stdbus/framing.py:95-107 | both CRC checks accept exactly when the register run over data and CRC ends on 0x55 and 0xF0B8 |
| `Framing.DataCorruptionRejected` | src/watlowlib/protocol/stdbus/framing.py:93-107 | with the header intact, every corruption of payload and data CRC within sixteen consecutive wire bits, or of odd weight, is rejected, for any payload length |
| `Framing.DamageRejectedIff` | src/watlowlib/protocol/stdbus/framing.py:93-107 | with the header intact, damage to payload and data CRC is rejected there if and only if it is no multiple of the generator, and otherwise the frame is accepted |
| `Framing.TwoBitErrorRejectedIff` | src/watlowlib/protocol/stdbus/framing.py:99-107 | with the header intact, two flipped bits are rejected if and only if 32767 does not divide their distance |
| `Framing.FewBitsSeenIff` | src/watlowlib/protocol/stdbus/framing.py:99-107 | every corruption of one to three bits behind the header is rejected if and only if the payload has at most 4093 bytes |
| `Framing.HeaderCorruptionRejected` | src/watlowlib/protocol/stdbus/framing.py:93-97 | every corruption of header and header CRC within eight consecutive wire bits is rejected |
| `Tlv.FoldWords` | src/watlowlib/protocol/stdbus/tlv.py:157-161 | the loop over a wide enumeration computes the big-endian number of its words |
| `Tlv.WordsOfNumber` | src/watlowlib/protocol/stdbus/tlv.py:157-161 | a number below 2^(16n) is what its n words fold to |
| `Tlv.NumberOfWords` | src/watlowlib/protocol/stdbus/tlv.py:157-161 | folding n words gives a number below 2^(16n), and those are its n words |
| `Tlv.DecodeEncode` | src/watlowlib/protocol/stdbus/tlv.py:58-162 | decoding an encoded value, with any bytes after it, gives the value as sent, its tag and the exact length consumed |
| `Tlv.Layout` | src/watlowlib/protocol/stdbus/tlv.py:58-97 | each encoding begins with its tag's number and carries its value most significant byte first, in two's complement for the signed type, and text behind its length |
| `Tlv.TruncatesTowardZero` | src/watlowlib/protocol/stdbus/tlv.py:58-97 | a fraction is cut off toward zero |
| `Tlv.TextDecodes` | src/watlowlib/protocol/stdbus/tlv.py:100-165 | any bytes decode as text: trailing NULs dropped, bytes past ASCII replaced |
| `Tlv.TextRoundTrip` | src/watlowlib/protocol/stdbus/tlv.py:132-142 | text comes back unchanged if and only if it has no trailing NUL, and else without them |
| `Tlv.NoPrefixDecodes` | src/watlowlib/protocol/stdbus/tlv.py:100-162 | no proper prefix of an encoded value decodes |
| `Tlv.DecodeIsLocal` | src/watlowlib/protocol/stdbus/tlv.py:100-162 | a decoded value depends only on the bytes it consumed |
| `Tlv.PackedWords` | src/watlowlib/protocol/stdbus/tlv.py:143-161 | n packed words decode to the number they spell, whatever follows |
| `Tlv.EncodeDecode` | src/watlowlib/protocol/stdbus/tlv.py:58-162 | encoding a decoded number again gives the bytes it was decoded from |
| `Payload.JoinSplit` | src/watlowlib/protocol/stdbus/payload.py:176-188 | joining the two parts of a parameter id gives the id |
| `Payload.SplitJoin` | src/watlowlib/protocol/stdbus/payload.py:176-188 | splitting undoes joining if and only if the member is below 1000 |
| `Payload.RequestBytes` | src/watlowlib/protocol/stdbus/payload.py:191-207 | a request that can be built is 01 03 01 and its selector, or 01 04, its selector and the encoded value; a thousand times the class and the member are the id |
| `Payload.RefusalDecodes` | src/watlowlib/protocol/stdbus/payload.py:210-260 | a payload is a refusal with a code if and only if it is 02 and that code, from 80; anything after the code is an error |
| `Payload.ReadRequestRoundTrip` | src/watlowlib/protocol/stdbus/payload.py:191-194 | a read request can be built exactly for byte-sized selectors, and then decodes to its parameter id and instance |
| `Payload.WriteRequestRoundTrip` | src/watlowlib/protocol/stdbus/payload.py:197-207 | a write request that can be built decodes to its parameter id, instance, tag and value |
| `Payload.ReadReplyDecodes` | src/watlowlib/protocol/stdbus/payload.py:226-236 | a read reply decodes to the selector and value it carries, whatever follows the value |
| `Payload.WriteReplyDecodes` | src/watlowlib/protocol/stdbus/payload.py:238-248 | a write reply decodes to the selector and value it carries, whatever follows the value |
| `SerialTransport.SerialTransport.ReadExact` | src/watlowlib/transport/serial.py:193-239 | the read loop answers and leaves the port as the specification says: pushback first, leftovers kept; its own timeout keeps what was collected, a lost port or a deadline around the read drops it |
| `SerialTransport.SerialTransport.ReadAvailable` | src/watlowlib/transport/serial.py:241-284 | reads until an idle gap or a positive cap, and keeps what exceeds the cap |
| `SerialTransport.SerialTransport.DrainInput` | src/watlowlib/transport/serial.py:286-292 | discards the pushback and what the port has buffered |
| `SerialTransport.ReadExactConserves` | src/watlowlib/transport/serial.py:193-239 | bytes returned, then held back, then still to come are the bytes there were, unless the port was lost or a deadline around the read passed |
| `SerialTransport.ReadAvailableConserves` | src/watlowlib/transport/serial.py:241-284 | the same for reads of whatever is available |
| `SerialTransport.RunConserves` | src/watlowlib/transport/serial.py:193-284 | the same over every run of reads of both kinds |
| `SerialTransport.ReadExactFlat` | src/watlowlib/transport/serial.py:193-239 | on a steady line a read depends only on the flat byte sequence, which is lost if a deadline around the read passes |
| `SerialTransport.ReadAvailableFlat` | src/watlowlib/transport/serial.py:241-284 | on a steady line a read of whatever is available returns all bytes there are, or as many as a positive cap allows, and leaves the others |
| `SerialTransport.ChunksDoNotMatter` | src/watlowlib/transport/serial.py:193-284 | ports that carry the same bytes in different chunks, with different pushback, answer every run of reads of both kinds alike |
| `StdBusClient.StdBusClient.ReadFrame` | src/watlowlib/protocol/stdbus/client.py:229-284 | the scanning reader over chunks and pushback refines the scan of the flat byte sequence; a deadline that passes loses what had come |
| `StdBusClient.Resynchronises` | src/watlowlib/protocol/stdbus/client.py:240-284 | for every frame the encoder builds and any garbage before it: the frame is returned exactly, and exactly its tail left, if and only if the garbage is whole tokens of the scan, at most 256 bytes, and the payload at most 512 |
| `StdBusClient.LongFramesAreRefused` | src/watlowlib/protocol/stdbus/client.py:262-284 | behind whole-token garbage an encoded frame with a payload of 513 to 65535 bytes is refused with its length, and its body left on the line |
| `StdBusClient.ScanSound` | src/watlowlib/protocol/stdbus/client.py:240-284 | whatever frame the scan returns stood in the stream behind whole tokens within the limit |
| `StdBusClient.ScanGivesUp` | src/watlowlib/protocol/stdbus/client.py:251-261 | when the scan gives up it has taken 257 or 258 bytes, all of them whole tokens, and left the others |
| `StdBusClient.ScanGivesUpIff` | src/watlowlib/protocol/stdbus/client.py:240-261 | the scan gives up if and only if the stream begins with more than 256 bytes of whole tokens |
| `StdBusClient.TokensPastTheLimit` | src/watlowlib/protocol/stdbus/client.py:240-261 | whole tokens past the limit end the scan whatever follows them |
| `StdBusClient.StrayByteLosesFrame` | src/watlowlib/protocol/stdbus/client.py:243-250 | one stray 55 before a frame makes the scan miss it |
| `StdBusClient.StdBusClient.Execute` | src/watlowlib/protocol/stdbus/client.py:108-227 | one exchange under one deadline: the errors before any write, and exactly when a frame is written; that frame is 55 FF 05, the device's MAC (15 more than its address), 00, the length, and the request behind the header CRC; the reply is that of the flat byte sequence, and a timeout loses an incomplete one |
| `StdBusClient.AddressesAndMacs` | src/watlowlib/protocol/stdbus/tables.py:53-76 | addresses 1 to 16 and the controllers' MACs correspond one to one |
| `StdBusClient.RequestArrives` | src/watlowlib/protocol/stdbus/client.py:155-165 | the addressed device decodes from the wire a frame of type 5 from MAC 0 to its own, with the write request that was built: selector, tag and value |
| `StdBusClient.ReadRequestArrives` | src/watlowlib/protocol/stdbus/client.py:155-165 | likewise for a read request |
| `StdBusClient.RequestOnTheWire` | src/watlowlib/protocol/stdbus/client.py:155-165 | the bytes of every request frame, and what they decode to |
| `StdBusClient.AnswerRecovered` | src/watlowlib/protocol/stdbus/client.py:190-227 | a read reply behind whole-token garbage is recovered with its selector and value |
| `StdBusClient.DenialRecovered` | src/watlowlib/protocol/stdbus/client.py:190-227 | a device's refusal behind whole-token garbage is recovered with its code |
| `StdBusClient.DamagedReplyRefused` | src/watlowlib/protocol/stdbus/client.py:186-206 | a reply with one to three bits damaged behind its header is read to its end, refused at its data CRC and never becomes an answer |
| `Exchange.AnsweredInTurn` | src/watlowlib/protocol/stdbus/client.py:166-227 | the k-th exchange on a line is answered by the k-th frame on it, whoever it was meant for |
| `Exchange.OneReplyBehind` | src/watlowlib/protocol/stdbus/client.py:166-227 | a reply left over from a call that timed out puts every later call one reply behind |
| `Exchange.OwnRepliesIffNothingIsStale` | src/watlowlib/protocol/stdbus/client.py:166-227 | exchanges on a line that holds left-over replies and then their own get their own if and only if nothing is left over |
| `Exchange.AnyReplyAnswers` | src/watlowlib/commands/parameters.py:116-149 | the session returns the value of whatever read reply comes next, if it knows the parameter named there, and marks the parameter it asked for as supported |
| `Exchange.RightAnswerIff` | src/watlowlib/commands/parameters.py:112-149 | an answer carries the selector of the request on the wire if and only if parameter and instance are the same |
| `Recorder.DecisionOnGrid` | src/watlowlib/streaming/recorder.py:450-458 | the slot decided on is due at most one period ago; after an overrun it is the latest one already due |
| `Recorder.PastTheEnd` | src/watlowlib/streaming/recorder.py:449-458 | the slot decided on lies past the end of the run if and only if the decision overran and came after the end was due |
| `Recorder.PollPastTheEnd` | src/watlowlib/streaming/recorder.py:449-501 | a run of one tick whose only poll is of a later slot |
| `Recorder.SlotsIncrease` | src/watlowlib/streaming/recorder.py:449-501 | the slots of a run strictly increase and its polls do not overlap |
| `Recorder.NeverEarlyNeverDrifting` | src/watlowlib/streaming/recorder.py:450-462 | no poll starts before its grid point, and none is decided more than a period after it, whatever came before |
| `Recorder.BoundedRun` | src/watlowlib/streaming/recorder.py:449-501 | a bounded run makes at most as many polls as it has ticks, and only the last can lie past the end |
| `Recorder.WaitsGrow` | src/watlowlib/streaming/recorder.py:66-69 | the reconnect waits are 0.5, 1, 2, 5, 10 and then 30 seconds, and never get shorter |
| `Recorder.GapsGrow` | src/watlowlib/streaming/recorder.py:466-494 | over any run a lost connection waits half a second after a batch or a rebuilt source, and otherwise no less than the one before it |
| `Recorder.WorstIsLargest` | src/watlowlib/streaming/recorder.py:497-498 | the reported drift is the largest lateness of a sampled poll, at least zero |
| `Recorder.OfferedBalanced` | src/watlowlib/streaming/recorder.py:507-556 | each overflow policy keeps the accounts: capacity, order, what is lost and what is counted |
| `Recorder.TakenBalanced` | src/watlowlib/streaming/recorder.py:515-528 | a consumer taking batches at any time keeps the accounts |
| `Recorder.Recorder.Publish` | src/watlowlib/streaming/recorder.py:507-556 | the three policies, with the eviction loop, do what the specification says, and the loop ends |
| `Recorder.Recorder.Decide` | src/watlowlib/streaming/recorder.py:450-458 | choosing a slot counts exactly the skipped ones as late |
| `Recorder.Recorder.Recover` | src/watlowlib/streaming/recorder.py:469-492 | a lost connection costs one slot and the next wait of the backoff schedule |
| `Recorder.Recorder.Tick` | src/watlowlib/streaming/recorder.py:449-501 | one pass keeps the schedule, the accounts, the drift and the backoff; the accounts balance and the poll keeps the schedule also when the pass ends in an error or a blocked send |
| `Recorder.Recorder.RunProducer` | src/watlowlib/streaming/recorder.py:444-501 | over every run what was polled is what the poller returned in the turns used up, and the accounts and the schedule hold however it ends; a run with a tick limit ends |
| `Sinks.Pipe` | src/watlowlib/sinks/base.py:214-251 | the async driver validates its arguments, makes the specified writes and counts every sample |
| `Sinks.SyncPipe` | src/watlowlib/sync/recording.py:162-208 | the sync driver likewise |
| `Sinks.WritesConserve` | src/watlowlib/sinks/base.py:232-239 | all writes together are all batches together, in order |
| `Sinks.BufferStaysSmall` | src/watlowlib/sinks/base.py:233-237 | after every batch the buffer is shorter than the batch size, and empty once the interval has passed |
| `Sinks.WritesWhenFirstDue` | src/watlowlib/sync/recording.py:176-208 | each write is exactly the stretch of batches from one flush to the moment when enough samples or enough time have come since, and no earlier |
| `Sinks.SameWritesButEmpty` | src/watlowlib/sync/recording.py:189-201 | the two drivers make the same writes up to empty ones |
| `Sinks.PollToSink` | src/watlowlib/sinks/base.py:232-239 | with a blocking recorder, what reaches the sink and what is still queued is all that was polled |
| `Sinks.SelectionToSink` | src/watlowlib/sinks/base.py:232-239 | under every policy what reaches the sink, and then what is queued, are whole polled batches in order and none twice |
| `Poll.PollController` | src/watlowlib/streaming/_poll.py:62-114 | the samples are those of the answered reads, parameter by parameter and instance by instance |
| `Poll.NoneFailed` | src/watlowlib/streaming/_poll.py:85-112 | there is a sample for each read, in order, if and only if no read failed |
| `Poll.SampleOfEach` | src/watlowlib/streaming/_poll.py:85-112 | every answered read has its sample, in order, and a failed one leaves out no other |
| `Poll.ReadsWhatItLabels` | src/watlowlib/streaming/_poll.py:64-89 | a poll by id reads the row it labels if and only if that row keeps its own name in the index |
| `Poll.MislabelledRead` | src/watlowlib/streaming/_poll.py:89-99 | with two rows of one name, a poll of the first by its id reads the second |
| `Locking.CallUnder` | src/watlowlib/streaming/_poll.py:62-89 | a call enters its port first, makes exactly its transactions in order, leaves and only then collects |
| `Locking.CollectsAfterwards` | src/watlowlib/manager.py:506-530 | the batch of a port is followed by collecting its samples under the lock of the result, once the port has been left; single calls collect nothing |
| `Locking.StepKeeps` | src/watlowlib/_lock.py:36-50 | every step of every task keeps the locks, queues, frames and wires coherent |
| `Locking.MutualExclusion` | src/watlowlib/devices/session.py:317-324 | a task that transmits on a port owns its lock, and no other task is transmitting there |
| `Locking.NoWaitCycle` | src/watlowlib/_lock.py:45-50 | a waiting task holds nothing and waits for another one that can move, so there is no self-deadlock and no cycle |
| `Locking.NoDeadlock` | src/watlowlib/_lock.py:36-50 | as long as a call is unfinished some task can move |
| `Locking.StepWorks` | src/watlowlib/_lock.py:36-50 | every step uses up work |
| `Locking.RunsEnd` | src/watlowlib/_lock.py:36-50 | a run takes at most as many steps as there was work |
| `Locking.MovesUp` | src/watlowlib/_lock.py:49-50 | a waiter moves up by one exactly when the lock is released, and gets it from the front |
| `Locking.ServedInTurn` | src/watlowlib/_lock.py:49-50 | over any run the k-th waiter owns the lock after k+1 releases; nobody overtakes |
| `Locking.WireIsSerial` | src/watlowlib/manager.py:506-526 | the wire of a port is whole calls one after the other and a beginning of its owner's, none twice |
| `Locking.BatchesAreContiguous` | src/watlowlib/streaming/_poll.py:62-112 | between two transactions of one call or batch nothing else is on that port's wire |
| `Locking.AllServed` | src/watlowlib/manager.py:506-530 | when all tasks are done each call has been carried out whole and once on its port |
| `Manager.WatlowManager.Add` | src/watlowlib/manager.py:332-373 | why and when adding fails, in order; a failed add leaves both tables as they were and outside them exactly what `Leftover` lists; a successful one adds one device and one reference |
| `Manager.WatlowManager.ResolveSource` | src/watlowlib/manager.py:605-659 | an existing port is reused, a new one is entered and taken back if no controller can be built on it; the whole table afterwards, either way |
| `Manager.RefusedLeavesLeftover` | src/watlowlib/manager.py:631-659 | what a refused call opened on the way is closed again if the manager made it, and recorded as stuck exactly if that close fails; it stays open if a caller or a port in use owns it |
| `Manager.WatlowManager.OpenController` | src/watlowlib/manager.py:700-751 | protocol lock, opening, the client made once per port |
| `Manager.WatlowManager.TeardownPort` | src/watlowlib/manager.py:773-793 | the client is disposed, an owned open transport closed, the port forgotten |
| `Manager.WatlowManager.TeardownDevice` | src/watlowlib/manager.py:753-771 | a reference goes, and the port with the last one |
| `Manager.WatlowManager.Remove` | src/watlowlib/manager.py:375-391 | a named device leaves; unknown names and a closed manager are refused |
| `Manager.WatlowManager.Close` | src/watlowlib/manager.py:414-433 | both tables end empty; exactly the owned open transports are closed, each once, the one first used last, and none of them stays open; exactly those whose close fails are recorded as stuck; it never raises, which is what its documentation promises if and only if no Modbus one among them fails |
| `Manager.CloseHidesAFailure` | src/watlowlib/manager.py:402-433 | after one Modbus device is added, a close whose only transport fails to close returns without an error |
| `Manager.LastCloses` | src/watlowlib/manager.py:414-433 | taking down the latest device closes what comes next in the order of closing, the reverse of the order in which ports were first used |
| `Manager.SharedPortIff` | src/watlowlib/manager.py:605-659 | two sources share a port if and only if they are paths of one canonical name or one transport object |
| `Manager.WithdrawnCloses` | src/watlowlib/manager.py:753-793 | removing a device closes owned transports only, each once; a failed close is recorded as stuck and nothing else comes of it |
| `Manager.WatlowManager.ResolveNames` | src/watlowlib/manager.py:585-594 | the names asked for, or all in insertion order, or an error for an unknown one |
| `Manager.WatlowManager.GroupByPort` | src/watlowlib/manager.py:596-603 | two of the names lie in one group if and only if they are the same or their devices are on one port of the manager; each lies in exactly one, and a group is the names in it, in their order and as often as given |
| `Manager.EnteredKeeps` | src/watlowlib/manager.py:631-641 | a new port keeps the table coherent |
| `Manager.ConnectedKeeps` | src/watlowlib/manager.py:736-741 | making a port's client keeps the table coherent |
| `Manager.EnrolledKeeps` | src/watlowlib/manager.py:358-364 | a device on a usable port restores the whole invariant: references exact and nonempty, client and protocol shared, handles closed properly |
| `Manager.TornDownKeeps` | src/watlowlib/manager.py:773-793 | closing a port without references restores the whole invariant |
| `Manager.WithdrawnKeeps` | src/watlowlib/manager.py:388-390 | removing a device keeps the invariant |
| `Manager.ClosedWithLastReference` | src/watlowlib/manager.py:753-793 | a transport is closed exactly with the last reference to a port the manager owns; every other port is untouched |
| `Manager.GroupSharesClient` | src/watlowlib/manager.py:508-513 | devices on one port of the manager share one client, and so one lock, and one transport |
| `Manager.GroupsAreApart` | src/watlowlib/manager.py:605-659 | devices on different ports have different clients and transports |
| `Registry.LoadParameters` | src/watlowlib/registry/parameters.py:396-413 | the loader keeps exactly the first loadable row of each id |
| `Registry.DeduplicatedIds` | src/watlowlib/registry/parameters.py:401-412 | no id is lost and none is left twice |
| `Registry.DeduplicatedKeepsFirsts` | src/watlowlib/registry/parameters.py:401-412 | the rows kept are exactly the first ones of their ids |
| `Registry.ParameterRegistry.constructor` | src/watlowlib/registry/parameters.py:455-518 | rebinding and both index loops give the specified index, coherent when ids are unique |
| `Registry.IndexIsScan` | src/watlowlib/registry/parameters.py:498-518 | the name index finds a row exactly when a scan does, and the same row: the last that may carry the name, else the first with that alias |
| `Registry.IdFinds` | src/watlowlib/registry/parameters.py:500-505 | the id index finds a row of that id if there is one |
| `Registry.ResolvingTwice` | src/watlowlib/registry/parameters.py:526-545 | resolving the id of what a name resolves to gives the same row |
| `Registry.OverrideWins` | src/watlowlib/registry/parameters.py:498-512 | a name given away by an override resolves to the override's row, whatever other rows are called |
| `Registry.OverrideNamesResolve` | src/watlowlib/registry/parameters.py:470-518 | in a registry built from any rows with unique ids, every override name resolves to its id |
| `Registry.AliasesResolve` | src/watlowlib/registry/parameters.py:468-517 | a row is found by every alias of its public name and by the name it had before an override, unless some row is called that or an earlier one has that alias |
| `Registry.NameUnlessOverridden` | src/watlowlib/registry/parameters.py:468-472 | a row without a nonempty override keeps its name |
| `Registry.ParameterRegistry.WithDecimalPlaces` | src/watlowlib/registry/parameters.py:547-583 | negative places are refused; else exactly the rows bound to the register get a scale that is 1 after as many multiplications by ten, and the three tables are rescaled together and stay coherent |
| `Registry.ScaleSteps` | src/watlowlib/registry/parameters.py:566-568 | no places scale by 1, and each further place by a tenth of that |
| `Registry.RescalingIsRebuilding` | src/watlowlib/registry/parameters.py:568-583 | rescaling the index gives the index that would be built from rescaled rows |
| `Registry.RescalingKeepsMeaning` | src/watlowlib/registry/parameters.py:568-583 | every name, alias and id resolves as before, to a row that differs at most in scale, and only if bound to the register |
| `Registry.LastRescalingWins` | src/watlowlib/registry/parameters.py:568-583 | the last rescaling of a register wins |
| `Registry.RescalingsCommute` | src/watlowlib/registry/parameters.py:568-583 | rescalings of different registers commute |
| `ModbusCodec.WriteReadInt` | src/watlowlib/protocol/modbus/codec.py:109-173 | an integer written and read comes back if it fits; unsigned 8 and 16 bit types wrap, the others refuse |
| `ModbusCodec.RegistersMean` | src/watlowlib/protocol/modbus/codec.py:60-106 | how many registers each type takes and which number they stand for: low byte, register or two of them in the row's word order, signed types from minus half their range |
| `ModbusCodec.WritableIff` | src/watlowlib/protocol/modbus/codec.py:109-173 | which numbers each type takes, counted in the row's scale |
| `ModbusCodec.FloatWrittenAndRead` | src/watlowlib/commands/parameters.py:254-320 | a float row returns the single-precision image of what was written, rounded to a whole count first if it has a scale |
| `ModbusCodec.RoundsHalvesToEven` | src/watlowlib/commands/parameters.py:300-303 | a count halfway between two is rounded to the even one |
| `ModbusCodec.ReadWriteInt` | src/watlowlib/protocol/modbus/codec.py:60-106 | registers read and written back are the same, but for the high byte of an 8 bit row |
| `ModbusCodec.ReadThenWrite` | src/watlowlib/commands/parameters.py:254-320 | writing back the value read from a scaled row restores its registers if and only if an 8 bit row had no high byte |
| `ModbusCodec.WrittenValue` | src/watlowlib/commands/parameters.py:296-320 | what is read back after a write, and when the write is refused |
| `ModbusCodec.WriteThenRead` | src/watlowlib/commands/parameters.py:254-320 | a written value comes back within half a scale step if and only if its count fits and, on an unscaled row, its fraction is at most a half |
| `ModbusCodec.UnscaledWritesTruncate` | src/watlowlib/commands/parameters.py:311-320 | an unscaled row cuts 2.75 down to 2 |
| `ModbusCodec.OnePlaceReads` | src/watlowlib/registry/parameters.py:547-583 | with one decimal place in register 606 a raw 755 of a row bound to it reads as 75.5 |
| `Session.Session.Execute` | src/watlowlib/devices/session.py:222-395 | one call: the checks before the wire in their order, the transaction, and what its outcome does to availability and last error |
| `Session.Session.BindRegistry` | src/watlowlib/devices/session.py:179-191 | later calls resolve against the new registry; nothing else changes |
| `Session.UnsupportedSticks` | src/watlowlib/devices/session.py:266-271 | over any run of calls an unsupported key stays so and its transactions stay off the wire |
| `Session.RejectionIsFinal` | src/watlowlib/devices/session.py:325-379 | after a rejection no call of that command reaches the wire for that parameter through any name, alias or id |
| `Session.OnlyDenialsReject` | src/watlowlib/commands/parameters.py:116-205 | of all payloads a device can answer with, exactly those that deny the object or the attribute make the parameter unsupported |
| `Session.RepliesDecode` | src/watlowlib/commands/parameters.py:116-205 | a call returns a value if and only if the payload is the reply of its command for a known parameter, and then that of the payload |
| `Session.OnlyRejectionsAndAnswersMove` | src/watlowlib/devices/session.py:325-387 | a key becomes unsupported by a rejection alone and stops being so by an answer alone; no other key moves |
| `Session.KeysArePerParameter` | src/watlowlib/devices/session.py:512-532 | calls share a key if and only if they are one command on one parameter |
| `Session.WireIsSafe` | src/watlowlib/devices/session.py:273-278 | every write on the wire was confirmed, targets a row that is not read-only and lies in its range, and every request passed its instance check |
| `Session.StartsAreSafe` | src/watlowlib/commands/parameters.py:68-78 | the same for a single call; the instance checked is the row's default in place of 0 |
| `Session.ChecksInOrder` | src/watlowlib/devices/session.py:239-305 | the refusals before the wire in their order, and that a request past them goes out if and only if its protocol can carry it: selector bytes and value range on Standard Bus; default instance, address, register count and value range on Modbus |
| `Session.PayloadNamesTheParameter` | src/watlowlib/commands/parameters.py:112-176 | a Standard Bus request on the wire names the parameter asked for, and the instance as it was given |
| `Session.PayloadCarriesTheValue` | src/watlowlib/commands/parameters.py:155-176 | a Standard Bus write on the wire decodes to the value asked for, under the tag number of its row's type; a signed 16 bit row has none |
| `Session.RegistersOfTheRow` | src/watlowlib/commands/parameters.py:229-327 | a Modbus request is about exactly the registers of its row: its address, which exists, and its own count or that of its type, at most 125 to read and 123 to write |
| `Session.WordsCarryTheValue` | src/watlowlib/commands/parameters.py:282-327 | the words of a Modbus write read back from that row as the number written, counted in its scale, or its single-precision image |
| `Session.InstanceOnTheWire` | src/watlowlib/commands/parameters.py:68-118 | the instance a Standard Bus request carries exists if and only if it was not given as 0 |
| `Session.ZeroIsSentAsZero` | src/watlowlib/commands/parameters.py:68-118 | a read of instance 0 passes the check of the row's default, and 0 goes on the wire |
| `Session.ModbusNeedsTheDefault` | src/watlowlib/commands/parameters.py:208-223 | on Modbus a request is of its row's default instance, which exists |
| `Session.ExecuteIsBeginFinish` | src/watlowlib/devices/session.py:222-395 | a call that does not overlap is its two halves at once |
| `Session.StickyIffNothingInFlight` | src/watlowlib/devices/session.py:266-387 | with overlapping calls an unsupported key stays so under every continuation if and only if no call for it is in flight |
| `Session.OverlapUnsticks` | src/watlowlib/devices/session.py:266-387 | two overlapping calls, the first rejected and the second answered, leave the key supported |
| `Discovery.Scan.FindDevices` | src/watlowlib/devices/discovery.py:230-289 | the nested loops make exactly the specified opens and probes and return exactly the specified rows, or say why they refuse to; each probe has the row that tells its answer, and every other row is explained by an open; an error escapes if and only if one of an open or a probe does; no port is opened again after a failed connection, and nothing is left open |
| `Discovery.ScanShape` | src/watlowlib/devices/discovery.py:230-289 | a scan that no open and no probe fails has the rows of the product of what it sweeps, in order, minus what is pruned, each consistent, whatever opens end in an error of the library |
| `Discovery.FinishesIff` | src/watlowlib/devices/discovery.py:361-450 | a scan returns its rows if and only if none of the opens it makes escapes and none of its probes does |
| `Discovery.SafeIffNoRiskyStop` | src/watlowlib/devices/discovery.py:376-420 | with devices that answer or keep silent, a scan returns its rows for every condition of the ports if and only if no transport it reaches is Modbus, or of an Auto plan with an address to probe |
| `Discovery.MissingModbusPortRaises` | src/watlowlib/protocol/modbus/transport.py:88-104 | a scan of one Modbus plan over a missing port raises, without a row and without marking the port dead |
| `Discovery.ScansAreConsiderate` | src/watlowlib/devices/discovery.py:230-289 | over every run a port is not opened again after a failed connection, and exactly the ports whose connection failed are marked dead |
| `Discovery.Scan.ProbeAll` | src/watlowlib/devices/discovery.py:422-438 | one probe for each address in turn; an error that escapes ends it |
| `Discovery.Scan.ProbeCombo` | src/watlowlib/devices/discovery.py:361-450 | what one open gives: failed rows for every address, or the rows probed, or an error that escapes from the open, a probe or the close, and whether the port is dead; the open is on record and its transport closed |
| `Discovery.ProductOrder` | src/watlowlib/devices/discovery.py:236-289 | each combination of the product stands at its place: port, baud rate, plan, address |
| `Discovery.ProbesAreConsistent` | src/watlowlib/devices/discovery.py:453-577 | a row is good if and only if its address is in 1 to 16, or 1 to 247 on Modbus, and the answer named a part number or a hardware id, and then has that device information; otherwise its error says what came instead; there is none if and only if the probe escapes |
| `Discovery.ScansAreTruthful` | src/watlowlib/devices/discovery.py:361-577 | over every run opens end as their ports were met, probes are answered by the world, the probed rows tell exactly those answers in order, and rows of failed opens name an open that failed so |
| `Discovery.KeptAddresses` | src/watlowlib/devices/discovery.py:239-244 | pruning keeps or drops the addresses of a plan together |
| `Discovery.KeptIff` | src/watlowlib/devices/discovery.py:239-244 | pruning drops exactly the combinations whose profile names its baud rates and not this one |

## Left out

- Locking.StepKeeps: cancellation of a task that holds or waits for a lock is not modelled; failed transactions are, as the frames are left the same way.
- Locking.MovesUp: the lock is modelled as a FIFO queue with direct hand-over, which is what anyio documents; anyio itself is not part of this model.
- Manager.WatlowManager.Add: ports are held by value in the table rather than as shared mutable entries, calls are atomic (the source runs them under one lock), and cancellation in the middle of teardown is not modelled; the canonical port name is an arbitrary function.
- Recorder.Recorder.Tick: clock readings are real numbers that never go back, so rounding of floats is not modelled; a run that stops because the consumer closed its stream is not modelled.
- Recorder: the tick duration percentiles, the wall-clock fields of the summary and the cancellation of the producer on exit are left out; they would add a sort and two interpolations.
- Tlv.DecodeEncode: packing to IEEE-754 single precision is an arbitrary pair of functions; the round trip returns what unpacking gives for what was packed.
- Tlv.EncodeDecode: assumes single-precision packing to be exact on unpacked values.
- Registry.IndexIsScan: case folding is an arbitrary function; parsing of the JSON rows, of ranges and of names is left out.
- Registry.ParameterRegistry.WithDecimalPlaces: scales are real numbers, so the float nearest to a power of ten is not modelled; ids are taken to be unique, as the loader makes them.
- ModbusCodec.WriteThenRead: text and float registers have no such bound and are left out of it; text encoding is an arbitrary function in `Session`.
- Session.Session.Execute: the outcome of a transaction is an input; which Standard Bus reply is which outcome is `OutcomeOf`, and the classification of Modbus exceptions is left out.
- Discovery.Scan.FindDevices: port enumeration, serial settings and elapsed times are left out; what becomes of an open, of its close and of a probe is an input, and errors a Standard Bus transport does not turn into the library's own (a cancelled call, a missing driver) are not modelled.
- Sinks.Pipe: a sink that fails to write ends the source's driver with its error and is not modelled.
- The command line tools, formatting, logging, the file and database sinks, maintenance and protocol detection are left out: plumbing and input or output.
