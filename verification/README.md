# libdvbrecorder, modelled and proved in Dafny

libdvbrecorder receives a DVB-S transport stream, cuts it into packets, sorts
the packets by PID, hands them to listener threads together with rewritten
PAT/PMT tables, and starts and stops recordings from a schedule. This project
models that behaviour and proves what it keeps.

Check everything with `dafny verify dfyconfig.toml`.

## How it is built

Every part comes in two layers. A *value layer* says what an operation does, as
functions on datatypes (`ReadTs.Push`, `ListenerState.PushPacket`,
`TimedEvents.Tick`, `Scheduled.SetBooking`, `RecorderState.RecordStart`). The
theorems are about these functions: over all inputs, all chunkings, all runs, all
interleavings. An *object layer* has the classes and loops of the C code
(`TsReader`, `ReaderListener`, `DVBReader`, `DVBRecorder`, `EPGEvent`, the
packetiser, the write loops, the control-code rewriter, the scan merge), updates
fields, arrays and lists in place, and is proved to do exactly what the value
layer says: each method ties its whole new state to a function of the old one.

| file | covers |
|---|---|
| `Bytes`, `TsFormat` | bytes, joined sequences, the 188-byte packet |
| `ReadTs`, `Resync` | framing with carry-over and resynchronisation (`read-ts.c`) |
| `Packetiser` | a PSI section cut into packets, and the way back |
| `PidTable` | active PIDs, filters, stream kinds |
| `ListenerState`, `DvbListener` | one listener: values, then the object |
| `DvbReader` | the reader object: PID table, broadcasts, registration, table callbacks |
| `ReaderSystem`, `ReaderSafety`, `ReaderRuns` | all threads as interleaved steps; the invariant; theorems about runs |
| `PmtHistory` | exactly when a listener gets the PMT |
| `RecordedStream` | from registrations and packets to the bytes of the record file |
| `WriteLoops`, `WriteOutcomes` | writing to a listener's descriptor and to the record file, and exactly how that ends |
| `TimedEvents`, `Punctuality` | the sorted list, the single slot, and when events run |
| `Scheduled` | bookings and the list as their index |
| `RecorderState`, `RecordingPlan`, `DvbRecorder` | the recorder, from bookings to recordings, and the object |
| `CloseBookings`, `AnyBookings` | bookings that follow each other closely; any bookings at all |
| `ScheduleRuns` | bookings set, changed and removed, and the schedule switched off and on, while the queue runs |
| `Dates`, `Descriptors`, `Epg` | MJD/BCD time, descriptor decoding, event reassembly |
| `ControlCodes`, `Utf8` | the two-pass rewriting of control bytes, and UTF-8 as an encoding of code points |
| `ScanMerge` | merging scanned channels into the stored ones |

In `ReaderSystem` one step is one region under a mutex, or one unlocked write:
`*packets` and `*packet_count` are two steps, and callers that register
listeners can come in between.

## Where the code does less than it seems to

The model follows the code. Where an intended property fails, the exact condition
under which it holds is proved, and the failure is shown on a concrete input or,
where that is no harder, on a whole family of inputs.

- Resynchronisation looks at the first byte of the chunk for every candidate, so
  garbage in front of an intact stream makes it drop everything
  (`SyncDropsGarbledHead`, `SyncMeetsIntentIff`).
- The packetiser counts packets in eight bits: a section is complete exactly up
  to 46919 bytes (`CompleteIff`). A table of more than 21 packets is cut inside a
  packet when it is sent (`TableWholeIff`).
- A retune clears the queues, but neither the batch buffers nor the message a
  worker holds: a listener is handed a held message and up to 20 batched packets
  of the old stream first, and only the new stream exactly when there were neither
  (`RetuneCarriesOver`, `OldPacketCarriedOver`, `HeldBatchHandedOver`).
- Registering again does not recall the data message a worker already holds; it is
  handed over under the new registration (`EndToEnd`, `HeldBatchHandedOver`).
- Registering again does not recall a CONTINUE that the worker already holds; it
  opens the gate afterwards (`HeldContinueOpensGate`, `RegistrationShutsIff`).
- When the first rewritten PAT comes to nothing, the PMT can be taken up before any
  PAT is out, and listeners registered by then never get it (`PmtMissed`). A
  listener gets the PMT exactly when a PAT was out at its registration, or no PMT
  was taken up before a PAT since the last reset (`PmtDeliveredIff`).
- "No PCR" is tested against 0x1ff where ISO/IEC 13818-1 has 0x1FFF
  (`PcrStandardIff`).
- A write that accepts no byte ends the message with success (`RestLost`,
  `SuccessIsWhole`); a descriptor has all data up to its first error exactly when
  that never happened (`TakenIffNoZeroWrite`).
- After a write error the record listener's worker stops the recording and waits
  for itself: the listener is off the list, but the recorder stays RECORDING with
  its file open, and refuses to start again until someone stops it or changes the
  channel (`AgreeIff`, `ErrorDisagrees`).
- The tune-in of the next booking, a minute ahead, ends the recording before it
  when it falls into that and goes to another channel (`CloseBookingsRecorded`,
  `AnyBookingRecordedIff`).
- The time comparator cuts a 64-bit difference to 32 bits; the list can come out
  unsorted (`TruncationUnsorts`, `InsertSortedIff`).
- Removing any booking rebuilds the list and forgets the stop of a booking that is
  running; its recording goes on until another booking ends it, or for ever
  (`StopSurvivesIff`, `LostStopHappens`, `NextBookingEndsIt`, `MoveKeepsIff`).
- Switching the schedule off and on again loses the events of bookings that have
  begun by then (`OffAndOnIff`).
- Changing a booking id that is not stored puts events into the list without a
  row (`UnknownBookingListed`, `SetKeepsIndexIff`).
- Changing a booking does not recall its event in flight, which then runs at its
  old time (`StaleTuneIn`, `InFlightSurvivesIff`, `MoveKeepsIff`).
- Bookings shorter than half a minute can be recorded late even when they are
  more than a minute apart; a recording has its booked times exactly when a tick
  of the half-minute timer falls into it (`ShortBookingsRunLate`,
  `ScheduleRecords`, `HalfMinuteIff`).
- Where plain `char` is signed, no string is ever rewritten, and one with a lone
  control byte is refused (`SignedCharNeverRewrites`). The rewritten string's last
  byte is never written (`ConvertControlCodes`).

## Model

| member | source | states |
|---|---|---|
| ReadTs.LeastFourMeans | read-ts.c:33-62 | the search stops at the least offset followed by four packet starts inside the chunk, and finds nothing only when there is none |
| ReadTs.LeastFiveMeans | read-ts.c:33-62 | the reference search: the least offset at which five packet starts in a row are sync bytes |
| ReadTs.SyncMeetsIntentIff | read-ts.c:33-62 | the code resumes where the five-start search would, exactly when the chunk's first byte is a sync byte and no earlier non-sync offset is followed by four starts, or that byte is none and there is nothing to find |
| ReadTs.SyncDropsGarbledHead | read-ts.c:40 | an input on which the intended search finds the stream and the code drops all of it |
| ReadTs.WindowSafety | read-ts.c:64-127 | for any bytes, chunking, resyncs and handler: delivered packets are disjoint 188-byte windows of the input in stream order, each headed by a sync byte, and the handler accepted all but perhaps the last |
| ReadTs.FreshWindowSafety | read-ts.c:91-127 | the same from a new reader on, over the joined chunks |
| ReadTs.NothingAfterFailure | read-ts.c:64-74 | once the handler refused a packet, no further chunk delivers or changes anything |
| ReadTs.DrainAligned | read-ts.c:76-89 | on an aligned stream one chunk extends the delivered packets to exactly the frames seen so far, and the carry to exactly the unfinished tail |
| ReadTs.ChunkingIndependent | read-ts.c:114-127 | for an aligned stream, every way of cutting it into chunks delivers exactly its 188-byte packets and keeps exactly its tail |
| Resync.AfterBadPacket | read-ts.c:64-89 | after good packets and one without a sync byte: when the rest of the chunk starts with 0x47, n is its least offset with sync bytes at n+188, n+376, n+564 and n+752, and it is aligned from n, exactly its frames from n on follow; when there is no such n, or its head is another byte, nothing of it does |
| Resync.AfterBadCarry | read-ts.c:76-89 | the same when the packet under way turns out to be the bad one |
| Resync.AtEntry | read-ts.c:121-122 | a chunk that starts a packet is read from its head when that is a sync byte, and not at all otherwise |
| Resync.GoesOnLikeNew | read-ts.c:33-62 | for any rest, with any more bad packets: resumed at a sync byte, the reader goes on exactly as a new one would from there |
| Resync.ResumesAtOnce | read-ts.c:33-62 | a good packet, a bad one, five or more good ones in one chunk: all good ones are delivered |
| ReadTs.TsReader.constructor | read-ts.c:91-107 | a new reader carries nothing and has delivered nothing |
| ReadTs.TsReader.AdvanceBuffer | read-ts.c:27-31 | the chunk pointer moves forward by exactly what the remaining count loses |
| ReadTs.TsReader.ProbeStarts | read-ts.c:41-50 | the inner loop finds out whether the four following starts are sync bytes, or that one lies beyond the chunk |
| ReadTs.TsReader.TryOffset | read-ts.c:39-58 | one candidate offset: resume here, give up because the chunk ends, or rule it out |
| ReadTs.TsReader.SyncStream | read-ts.c:33-62 | the loops leave the chunk at the specified synchronisation point, or empty it; no read leaves the chunk |
| ReadTs.TsReader.ProcessPacket | read-ts.c:64-74 | a complete packet is delivered with its place in the input, or the rest of the chunk is resynchronised |
| ReadTs.TsReader.Fill | read-ts.c:78-84 | the next bytes of the chunk stand behind the carried ones and those are kept |
| ReadTs.TsReader.CompletePacket | read-ts.c:82-88 | carried bytes and the head of the chunk make up one packet, which is then handled |
| ReadTs.TsReader.ReadPacketPartial | read-ts.c:76-89 | one turn strictly shortens the chunk, keeps fewer than 188 bytes and does what the value-level turn does |
| ReadTs.TsReader.EnterChunk | read-ts.c:114-122 | a chunk that does not continue a packet and does not start with a sync byte is searched before reading |
| ReadTs.TsReader.ReadAll | read-ts.c:123-126 | the loop ends with the chunk used up or the handler's error, in the specified state |
| ReadTs.TsReader.PushBuffer | read-ts.c:114-127 | one call does to the reader what the value-level push does, so all theorems about pushes hold of the object |
| Packetiser.WriteHeader | dvbreader.c:1196-1208 | the header bytes set field by field are the packet's header, and nothing before them changes |
| Packetiser.CopyPayload | dvbreader.c:1210-1236 | the copied section bytes are the packet's payload at that place |
| Packetiser.SectionToTsPackets | dvbreader.c:1170-1251 | every byte of the buffer is written and is the byte the packet specification gives; a missing section gives no buffer and count 0 |
| Packetiser.TableLength | dvbreader.c:1245-1250 | data and count belong together: exactly count * 188 bytes |
| Packetiser.PacketFields | dvbreader.c:1196-1206 | sync byte, PID, unit start on the first packet only, payload flag and counter i mod 16 are read back from packet i |
| Packetiser.BytesAreFrames | dvbreader.c:1184-1243 | the buffer is aligned and its frames are exactly the packets |
| Packetiser.JoinedPackets | dvbreader.c:1184-1243 | the joined payloads are pointer byte, section and 0xff stuffing |
| Packetiser.CompleteIff | dvbreader.c:1180-1184 | the packets carry the whole section, and ceil((n+1)/184) of them, exactly when it has at most 46919 bytes |
| Packetiser.RoundTrip | dvbreader.c:1170-1251 | a packetised section fed to the packet reader in any chunks comes back: right packets, right headers, payload = pointer, section, stuffing |
| PidTable.LookupMeaning | dvbreader.c:354-391 | after any history of registrations lookup gives the union of all kinds registered for the PID, or OTHER |
| PidTable.PidsUnique | dvbreader.c:354-380 | no PID is repeated and each went to the tuner exactly once, in order of first registration |
| PidTable.LookupAfterAdd | dvbreader.c:354-380 | adding one PID widens that PID's kinds and no other's |
| PidTable.PcrStandardIff | dvbreader.c:1051-1052 | the PIDs taken up from a PMT are those of the standard exactly when the PCR PID is neither 0x1ff nor 0x1fff |
| PidTable.StreamsRegister | dvbreader.c:1026-1052 | what a PMT registers for a PID: video, audio and private streams by their stream types, other streams as OTHER, the PCR on its PID, and nothing else |
| ListenerState.TableMessagesCarry | dvbreader.c:1512-1574 | the messages a table is cut into carry exactly its bytes, in order |
| ListenerState.TableMessagesSized | dvbreader.c:1512-1574 | every one is non-empty and fits the message buffer |
| ListenerState.TableWholeIff | dvbreader.c:1512-1574 | each holds whole packets exactly when the table has at most 21 packets |
| ListenerState.ControlNotStuck | dvbreader.c:1320-1338 | a waiting CONTINUE or QUIT can always be taken, whatever the gate |
| ListenerState.RegisterMeans | dvbreader.c:432-466 | a registered listener has forgotten errors, end of stream and termination, does not run, and holds nothing but the tables that are out |
| ListenerState.WithoutDataMeans | dvbreader.c:1340-1358 | dropping goes message by message and keeps the order |
| ListenerState.WithoutDataOne | dvbreader.c:1347-1352 | exactly the DATA messages are dropped |
| ReaderSafety.SendPatKeeps | dvbreader.c:1512-1542 | sending the PAT adds its bytes once and leaves the stream data and the queue's shape |
| ReaderSafety.SendPmtKeeps | dvbreader.c:1544-1574 | sending the PMT adds its bytes once, and only after the PAT |
| ReaderSafety.PushPacketKeeps | dvbreader.c:1362-1374 | batching a packet keeps stream conservation, batch size and queue shape |
| ReaderSafety.RegistrationKeeps | dvbreader.c:413-470 | a registration starts with an empty history and hands over exactly the tables that are out |
| ReaderSafety.FieldsKeep | dvbreader.c:973-1064 | at every step of the callbacks, unlocked writes included, a published count comes with count * 188 bytes |
| ReaderSafety.PatBroadcastKeeps | dvbreader.c:1004-1012 | the PAT broadcast gives it to every listener that lacks it |
| ReaderSafety.PmtBroadcastKeeps | dvbreader.c:1056-1063 | the PMT broadcast gives it to every listener that has the PAT and lacks it |
| ReaderSafety.ResetKeeps | dvbreader.c:242-309 | a reset clears queues and table flags and keeps the batch buffer as the start of the next epoch |
| ReaderSafety.StepKeeps | dvbreader.c:1286-1648 | every step of every thread keeps the whole invariant |
| ReaderSafety.EveryRun | dvbreader.c:1286-1648 | so it holds after every interleaving of any length |
| ReaderRuns.StreamConserved | dvbreader.c:1362-1374 | in every reachable state taken, queued and batched stream data are, without loss or repeat, the wanted packets of the epoch; batches are 21 packets, the buffer at most 20 |
| ReaderRuns.StaysInEpoch | dvbreader.c:1612-1625 | within an epoch a listener on the list is offered exactly the packets that arrive |
| ReaderRuns.EpochConserved | dvbreader.c:1362-1374 | the same between any two states of an epoch, with the packets that arrived in between |
| ReaderRuns.HandedInEpoch | dvbreader.c:1428-1499 | what a worker hands over in an epoch is first the message it held as the epoch began, then those it took since, in order, up to the one it holds now |
| ReaderRuns.EpochHandedOver | dvbreader.c:1362-1374 | handed over, in hand, queued and batched stream bytes are, in order and without loss or repeat, those held and those batched as the epoch began, and the wanted packets |
| ReaderRuns.EpochTablesHandedOver | dvbreader.c:1512-1574 | the table bytes handed over and waiting are those held as the epoch began, then the PAT and the PMT, each at most once |
| ReaderRuns.EndToEnd | dvbreader.c:1612-1648 | from bytes in any chunks, through framing, classification and any interleaving, to one listener: it is handed, up to what remains, the stream data its worker held at the registration and then exactly the packets since, whose kinds at arrival meet its filter; only the latter exactly when none was held |
| ReaderRuns.RegistrationHandedOver | dvbreader.c:432-450 | the same for a registration in any state |
| ReaderRuns.RetuneCarriesOver | dvbreader.c:294-302 | after a reset a listener is first handed what its worker held and what its batch buffer held, and only the new stream exactly when both were without stream data |
| ReaderRuns.OldPacketCarriedOver | dvbreader.c:294-302 | a run in which a packet of the old stream is still batched after the reset |
| ReaderRuns.HeldBatchHandedOver | dvbreader.c:495-503 | a run in which 21 old packets are handed over after a reset, or after a new registration, with an empty batch buffer |
| ReaderRuns.ResetStartsEpoch | dvbreader.c:294-302 | a reset leaves the listener registered and running as it was, with an empty queue, its batch buffer and the message its worker holds |
| ReaderRuns.ShutUntilRun | dvbreader.c:1320-1338 | while nobody asks a shut listener to run, its worker takes nothing but QUIT, through any interleaving and re-registration |
| ReaderRuns.RegistrationShutsIff | dvbreader.c:432-450 | registering shuts the gate exactly when the worker does not hold a CONTINUE |
| ReaderRuns.HeldContinueOpensGate | dvbreader.c:1462-1467 | a run in which a CONTINUE taken before a re-registration opens the gate after it |
| ReaderRuns.QueueGate | dvbreader.c:1286-1338 | in every reachable state control messages come first and a waiting one can be taken; a message can be taken exactly when the listener runs or the head is CONTINUE or QUIT |
| ReaderRuns.QuitIsFinal | dvbreader.c:1468-1477 | after QUIT no step of any thread changes that listener |
| ReaderRuns.HandledMeans | dvbreader.c:1434-1494 | what a handled message changes: QUIT ends the listener for good, end of stream and a failed write are remembered, CONTINUE opens the gate, nothing else does any of it |
| ReaderRuns.TablesDelivered | dvbreader.c:1512-1574 | in every reachable state a listener was given PAT then PMT, each at most once and byte for byte; outside a callback it has the PAT exactly when there is one (for the PMT see PmtHistory.PmtDeliveredIff) |
| ReaderRuns.PatComesFirst | dvbreader.c:973-1014 | the PMT is never taken up before the PAT is out, if every PAT listing the program could be rewritten |
| ReaderRuns.BothTablesDelivered | dvbreader.c:413-470 | in particular, when every PAT listing the program could be rewritten, every listener, registered before, during or after the callbacks, has both tables once they are out |
| ReaderRuns.PmtMissed | dvbreader.c:1544-1549 | a run in which a listener that was there all along ends up without the PMT that is out |
| PmtHistory.EarlyMeans | dvbreader.c:1016-1064 | the model's flag for an early PMT says exactly that, since the last reset, a PMT was taken up while no PAT was out |
| PmtHistory.EpochPmtIff | dvbreader.c:1544-1549 | within an epoch, whenever a PMT is out and no callback runs, a listener has it exactly when a PAT was out as the epoch began or the PMT did not come early |
| PmtHistory.PmtDeliveredIff | dvbreader.c:1544-1549 | over any run: a registered listener gets the PMT exactly when a PAT was out at its registration, or no PMT was taken up before a PAT since the last reset |
| PmtHistory.PmtAfterResetIff | dvbreader.c:242-309 | a listener that was there at the reset gets the PMT exactly when none was taken up before a PAT |
| PmtHistory.PatIsItsSection | dvbreader.c:1253-1269 | in every reachable state a PAT that is out is, packet by packet, a PAT section of the run on PID 0, and carries all of it when that fits |
| PmtHistory.PmtIsItsSection | dvbreader.c:1271-1284 | and a PMT a PMT section, on the PID that a PAT of the run gave |
| RecordedStream.PacketTaken | dvbreader.c:1362-1374 | a packet is queued or batched exactly when some kind other than PAT and PMT is in the filter and among its kinds |
| RecordedStream.RawTableNotTaken | dvbreader.c:1364 | a packet whose kinds are within PAT and PMT changes nothing, whatever the filter |
| RecordedStream.PidsAreRegistered | dvbreader.c:354-380 | after any run the PID table is what the registrations since the last reset make it |
| RecordedStream.StreamIsWanted | dvbreader.c:1612-1625 | the packets a listener is offered and wants are those whose registered kinds, at arrival, meet its filter |
| RecordedStream.NextEventOut | dvbreader.c:1612-1625 | in any run: what a listener is handed and what remains grows by the next event exactly when that is a packet and some kind other than PAT and PMT is both in the filter and among what was registered for its PID |
| RecordedStream.RawTablesNeverOut | dvbreader.c:1364 | raw PAT and PMT packets never reach a listener, and so not the record file |
| RecordedStream.FileIsData | dvbrecorder.c:244-267 | the record file holds exactly the data of the messages given to the callback; after a write error, exactly when one happened, their first bytes, and the recorder is left RECORDING without a listener |
| RecordedStream.RecordFile | dvbrecorder.c:378-434 | the whole way, through any interleaving, for the new listener of a recording: the file is the data that was handed over; its stream part is, up to what remains, the wanted packets since the registration, the rest a beginning of PAT and PMT |
| RecordedStream.DescriptorStream | dvbreader.c:1438-1450 | the whole way to the descriptor of a new listener: without errors it has taken exactly what was handed over if and only if no write accepted nothing, and that is, up to what remains, the wanted packets since the registration |
| RecordedStream.ClosedStream | dvbreader.c:505-557 | and once the listener is off the list, whatever happens: the stream bytes handed over and those lost in hand, queue and batch buffer are exactly the wanted packets up to the removal |
| DvbListener.ReaderListener.constructor | dvbreader.c:452-461 | a new listener is in the registration state |
| DvbListener.ReaderListener.Renew | dvbreader.c:432-448 | a found listener is put back into exactly the same state |
| DvbListener.ReaderListener.SendMessage | dvbreader.c:1286-1306 | the message goes to the head or the tail, and nothing else changes |
| DvbListener.ReaderListener.PopMessage | dvbreader.c:1320-1338 | the head is taken exactly when it is a control message or the listener runs; otherwise nothing changes |
| DvbListener.ReaderListener.DropDataMessages | dvbreader.c:1340-1358 | the loop leaves exactly the other messages, in order |
| DvbListener.ReaderListener.PushPacket | dvbreader.c:1362-1374 | the array, its fill count and the queue end up as the batching function says, within the buffer |
| DvbListener.ReaderListener.SendTable | dvbreader.c:1522-1538 | the cutting loop appends exactly the table's messages |
| DvbListener.ReaderListener.SendPat | dvbreader.c:1512-1542 | once, and only when there is a PAT |
| DvbListener.ReaderListener.SendPmt | dvbreader.c:1544-1574 | once, only after the PAT, and only when there is a PMT |
| DvbListener.ReaderListener.Reset | dvbreader.c:294-302 | the queue and both flags are cleared, the batch buffer is not |
| DvbListener.ReaderListener.Pause | dvbreader.c:488-492 | the gate shuts at once, nothing else changes |
| DvbListener.ReaderListener.HandOut | dvbreader.c:1438-1457 | the descriptor gets what the write loop wrote, unless a write failed before; the callback gets all of it |
| DvbListener.ReaderListener.HandleMessage | dvbreader.c:1428-1499 | each message type does its own change; what descriptor and callback have received grows by DATA only; only QUIT ends the worker |
| DvbReader.DVBReader.constructor | dvbreader.c:200-229 | a new reader has no listeners, PIDs, tables or decoders |
| DvbReader.ProgramPidIff | dvbreader.c:984-998 | the PID is that of the first entry with the wanted number; there is none exactly when no entry has it |
| DvbReader.DataPidsMean | dvbreader.c:790-804 | the PIDs of PAT, SDT, EIT and RST have their kinds, any other is OTHER |
| DvbReader.DataDecoders | dvbreader.c:272-276 | and are the PIDs of those tables' decoders |
| DvbReader.DVBReader.FindPid | dvbreader.c:347-352 | the first entry with the PID |
| DvbReader.DVBReader.AddActivePid | dvbreader.c:354-380 | the kinds are joined in place, or a new entry goes to the head and its PID to the tuner |
| DvbReader.DVBReader.AddActivePids | dvbreader.c:1028-1052 | a list of registrations is taken up in order |
| DvbReader.DVBReader.StartData | dvbreader.c:790-804 | all tables but the PMT get decoders, and their PIDs are registered in order |
| DvbReader.DVBReader.Tune | dvbreader.c:559-586 | the request goes to the end of the event queue |
| DvbReader.DVBReader.GetActivePidType | dvbreader.c:382-391 | the registered kinds, or OTHER |
| DvbReader.DVBReader.PushTo | dvbreader.c:1612-1625 | one listener takes the packet and no other one changes |
| DvbReader.DVBReader.WritePacket | dvbreader.c:1612-1625 | every listener is offered the packet under its PID's kinds, exactly once |
| DvbReader.DVBReader.SendPatToAll | dvbreader.c:1007-1012 | every listener gets the PAT if it has none |
| DvbReader.DVBReader.SendPmtToAll | dvbreader.c:1058-1063 | every listener gets the PMT if it may |
| DvbReader.DVBReader.BroadcastMessage | dvbreader.c:1308-1318 | every listener gets the message exactly once |
| DvbReader.DVBReader.ResetListeners | dvbreader.c:294-302 | every listener loses queue and table flags and keeps its batch buffer |
| DvbReader.DVBReader.ForgetTables | dvbreader.c:273-292 | no table is out, no decoder attached, the table PIDs are the fixed ones |
| DvbReader.DVBReader.Reset | dvbreader.c:242-309 | tables, PIDs and decoders are forgotten, the table PIDs are the fixed ones |
| DvbReader.DVBReader.FindListener | dvbreader.c:393-430 | the first listener with the descriptor, or with the callback when there is no descriptor |
| DvbReader.DVBReader.FindOrCreate | dvbreader.c:425-461 | the found listener renewed, or a new one at the head; all others untouched |
| DvbReader.DVBReader.SetListener | dvbreader.c:413-470 | the listener is as registered anew and has the tables that are out; all others untouched |
| DvbReader.DVBReader.SetRunning | dvbreader.c:472-493 | CONTINUE at the head or the gate shut at once, for that listener only |
| DvbReader.DVBReader.RemoveListener | dvbreader.c:505-557 | the first match leaves the list and gets QUIT at the head unless it is over already; all others untouched |
| DvbReader.DVBReader.FindProgram | dvbreader.c:984-998 | the PMT PID of the first entry for the wanted program, by ProgramPidIff |
| DvbReader.DVBReader.AddStreams | dvbreader.c:1026-1052 | streams by type and then the PCR are registered |
| DvbReader.DVBReader.TakeUpProgram | dvbreader.c:988-992 | the PMT gets its decoder, its PID and its kind |
| DvbReader.DVBReader.RewritePat | dvbreader.c:1253-1269 | PAT data and count are what the packetiser makes of the generated section |
| DvbReader.DVBReader.RewritePmt | dvbreader.c:1271-1284 | the same for the PMT, on the program's PID |
| DvbReader.DVBReader.PatCallback | dvbreader.c:973-1014 | nothing once there is a PAT or when no entry has the wanted number; otherwise the first such entry is taken up, and table, PID and broadcast follow |
| DvbReader.DVBReader.TakeUpPmt | dvbreader.c:1024-1054 | table, streams and PCR are taken up before any listener is told |
| DvbReader.DVBReader.PmtCallback | dvbreader.c:1016-1064 | nothing once there is a PMT; otherwise table, PIDs and broadcast |
| DvbReader.DVBReader.FindDecoder | dvbreader.c:1632-1644 | the decoder of the first table on the PID; the shortcut for high PIDs changes nothing |
| DvbReader.DVBReader.PushToDecoder | dvbreader.c:1640-1641 | the decoder gets the packet; a table it completes sets off its callback, with all that does |
| DvbReader.DVBReader.HandlePacket | dvbreader.c:1627-1648 | the decoder gets the packet first, with the callback it sets off; then every listener is offered it once, under the kinds its PID has by then |
| WriteLoops.WriteDataFull | dvbreader.c:1376-1426 | for every sequence of poll and write answers the descriptor got exactly the message's first bytes, up to the reported offset |
| WriteLoops.SuccessIsWhole | dvbreader.c:1407-1419 | success means the whole message exactly when the call did not end in a write of no byte |
| WriteLoops.RestLost | dvbreader.c:1415-1418 | answers on which a byte is lost and success is reported |
| WriteLoops.TimeoutsBounded | dvbreader.c:1387-1396 | timeouts in one call are bounded from any number of hiccups on |
| WriteLoops.ElevenTimeouts | dvbreader.c:1387-1396 | eleven timeouts at most, ten when the call did not fail |
| WriteOutcomes.FailsIff | dvbreader.c:1376-1426 | a call fails if and only if some answer met with bytes left, and no zero write before it, is a poll error, a write error, or a timeout that is terminating or has ten timeouts or EAGAINs before it |
| WriteOutcomes.DoneIff | dvbreader.c:1385-1425 | a call that does not fail is done if and only if enough is accepted or some write accepts nothing |
| WriteOutcomes.OffsetIsAccepted | dvbreader.c:1385 | what is accepted is the sum of what the writes accept, as far as there is data |
| WriteOutcomes.TenTimeoutsAreTolerated | dvbreader.c:1387-1394 | up to ten timeouts and then a full write give the whole message |
| WriteLoops.TakenIffNoZeroWrite | dvbreader.c:1438-1450 | over any sequence of messages: a descriptor has taken exactly the data up to its first write error if and only if no call before that ended in a zero-byte write |
| WriteLoops.WriteRecord | dvbrecorder.c:244-267 | the record file got exactly the data's first bytes, up to the reported offset |
| WriteOutcomes.RecordEndsIff | dvbrecorder.c:248-267 | the record file's loop fails if and only if an error is met with bytes left, is done if and only if enough is written, and tries a zero write again |
| RecorderState.AlwaysConsistent | dvbrecorder.c:181-267 | after any calls and failures: the file is open exactly while RECORDING, the record listener is there exactly while RECORDING and no write failed, and until then the reported size is what was written since the start |
| RecorderState.AgreeIff | dvbrecorder.c:265-266 | status, open file and record listener agree exactly when no write error is pending; otherwise the recorder is RECORDING with an open file and no listener, and refuses to start |
| RecorderState.ErrorDisagrees | dvbrecorder.c:265-266 | a start and one failing write that lead there |
| RecorderState.RecordingIff | dvbrecorder.c:378-454 | after any calls the recorder is RECORDING if and only if one asked for it with stream, name and file there, and no stop and no change to another known channel came since |
| RecorderState.ChannelIsLastTuned | dvbrecorder.c:181-224 | the channel is the last known one asked for |
| RecorderState.StartAndStopMean | dvbrecorder.c:410-448 | a recording starts with nothing written, at that time, and only with stream, name and file; one that stops is closed at that time |
| DvbRecorder.DVBRecorder.constructor | dvbrecorder.c:66-93 | a new recorder records nothing, has no events and no listener in the reader |
| DvbRecorder.DVBRecorder.SetChannel | dvbrecorder.c:181-224 | the same or an unknown channel changes nothing; another one ends a recording first and is handed to the reader to tune |
| DvbRecorder.DVBRecorder.RecordStart | dvbrecorder.c:378-434 | a recording starts exactly when none runs and stream, name and file are there; then the reader has the record listener |
| DvbRecorder.DVBRecorder.Listen | dvbrecorder.c:421-423 | the reader has a listener for the record callback, once |
| DvbRecorder.DVBRecorder.Unlisten | dvbrecorder.c:441 | the record callback is not on the reader's list any more |
| DvbRecorder.DVBRecorder.RecordStop | dvbrecorder.c:436-454 | the listener leaves the reader's list, file and status are closed |
| DvbRecorder.DVBRecorder.RecordCallback | dvbrecorder.c:244-267 | whole data is counted; after a write error what was written is kept and the listener leaves the list, which is as far as its worker gets |
| TimedEvents.CompareSignIff | timed-events.c:7-10 | the comparator has the sign of the time difference exactly when its low 32 bits keep it; within 2^31 s always |
| TimedEvents.InsertAdds | timed-events.c:23-34 | inserting adds exactly that event |
| TimedEvents.Place | timed-events.c:23-34 | the first event that does not compare as earlier |
| TimedEvents.InsertedAtPlace | timed-events.c:23-34 | inserting puts the event in front of the first one that does not compare as earlier and moves nothing else |
| TimedEvents.InsertSortedIff | timed-events.c:7-34 | for any times, a sorted list stays sorted exactly when the neighbours at that place are in order with the event |
| TimedEvents.InsertKeepsSorted | timed-events.c:23-34 | in particular, within a window of 2^31 s inserting keeps the list sorted |
| TimedEvents.TruncationUnsorts | timed-events.c:7-10 | a sorted list and an event that come out unsorted |
| TimedEvents.RemoveGroupFilters | timed-events.c:118-125 | the group is gone and every other group's events are kept, in order |
| TimedEvents.RemoveGroupMembers | utils.c:164-179 | as a multiset, exactly the group's events are removed |
| TimedEvents.RemoveGroupKeepsSorted | utils.c:164-179 | removing keeps the list sorted |
| DvbRecorder.DVBRecorder.AddTimedEvent | timed-events.c:23-34 | the event goes in front of the first one that does not compare as earlier |
| DvbRecorder.DVBRecorder.RunTimedEvent | timed-events.c:36-60 | tune, start or stop as the event says |
| DvbRecorder.DVBRecorder.CheckTimedEvent | timed-events.c:62-76 | the event in flight runs exactly when due, and then the slot is free |
| DvbRecorder.DVBRecorder.ScheduleTimedEvent | timed-events.c:78-91 | the head moves into the slot, or nothing happens when the slot is taken |
| DvbRecorder.DVBRecorder.CheckTimedEvents | timed-events.c:93-104 | the half-minute check picks up a head that is due within 30 s |
| DvbRecorder.DVBRecorder.TimedEventsClear | timed-events.c:106-116 | list and slot are emptied |
| DvbRecorder.DVBRecorder.TimedEventsRemoveGroup | timed-events.c:118-125 | the unlinking loop removes exactly the group from the list and leaves the slot |
| Punctuality.RunsOnSchedule | timed-events.c:62-104 | for any list and any phase of the ticks, second by second: what has run did so in list order and exactly at its run time, and nothing is lost |
| Punctuality.RunByThen | timed-events.c:62-104 | an event has run as soon as its run time has come |
| Punctuality.Punctual | timed-events.c:62-104 | t_k <= R_k <= max(t_k, R_{k-1} + 30), and on time exactly when a tick after R_{k-1} comes by t_k |
| Punctuality.OnTimeWhenApart | timed-events.c:93-104 | times at least 30 s apart all run on time |
| Punctuality.RunsFrom | timed-events.c:62-104 | from any queue, with or without an event in flight: the pending events run in order, each exactly at its run time, and have run exactly when that has come |
| Punctuality.InFlightSoon | timed-events.c:93-104 | an event is in flight at most 30 s ahead of its time |
| Scheduled.TranslateAdds | scheduled.c:260-276 | a booking adds exactly its tune, start and stop events |
| Scheduled.TranslateIndexed | scheduled.c:260-276 | translating a new booking extends an exact index of a table to the extended table |
| Scheduled.RemoveIndexed | scheduled.c:113-116 | removing a booking's group gives the index of the table without it |
| Scheduled.RebuildIndexed | scheduled.c:278-308 | a rebuild gives exactly the events of the rows it is given |
| Scheduled.RebuildKeepsUpcoming | scheduled.c:127-148 | after a removal the list is exactly the index of the bookings that start later, and nothing is in flight |
| Scheduled.StopSurvivesIff | scheduled.c:127-148 | whatever was in the list: after a removal another booking's stop is listed exactly when that booking starts later |
| Scheduled.RebuildAgreesIff | scheduled.c:278-308 | for any list: a rebuild gives its events back exactly when it holds those of the bookings that start later, and no others |
| Scheduled.SetKeepsIndexIff | scheduled.c:61-125 | for any list and table: setting a booking leaves other groups alone, and of its own group what the table has for it exactly when it is stored and not over, or neither |
| Scheduled.SetKeepsWholeIndexIff | scheduled.c:61-125 | hence a complete index stays one under the same condition |
| Scheduled.UnknownBookingListed | scheduled.c:74-88 | a change of an unknown id that lists three events without a row |
| Scheduled.InFlightSurvivesIff | timed-events.c:118-125 | whatever is in list and slot: after a change only the booking's new events are left to run exactly when the slot holds no other one of its group |
| Scheduled.RefusedIff | scheduled.c:70-71 | a booking is refused exactly when it does not end after its start |
| Scheduled.RebuildSorted | scheduled.c:278-308 | a rebuilt list is sorted |
| Scheduled.OpKeepsIndex | scheduled.c:61-148 | each operation on bookings that lie ahead keeps a sorted, exact index with nothing in flight |
| Scheduled.HistoryKeepsIndex | scheduled.c:61-148 | so does any history of them |
| ScheduleRuns.PassKeeps | timed-events.c:62-104 | in any state with the account in order, a second runs only an event of a booking as it is stored then, that has not run yet, never early; and nothing while the schedule is off |
| ScheduleRuns.MoveKeepsIff | scheduled.c:61-148 | bookings set, changed, removed or rebuilt, the schedule switched off and on, at any time between ticks: every event of every stored booking is settled or open exactly once, and nothing else is open, while the schedule is on, and nothing is in flight while it is off, after the move exactly when no event of a changed booking is in flight, no unknown one is listed, and a rebuild or switching on finds all begun bookings settled |
| ScheduleRuns.OffAndOnIff | scheduled.c:310-329 | switching off and on again keeps that exactly when all events of the bookings that have begun by then were settled before |
| ScheduleRuns.FirstSwitchOn | scheduled.c:310-329 | a new recorder has its schedule off; switching it on gives an empty schedule in order |
| ScheduleRuns.HistoryKeepsAccount | scheduled.c:61-148 | so over any history of such moves |
| ScheduleRuns.NothingForgotten | scheduled.c:61-148 | after any such history that ends with the schedule on, once the queue is empty, every event of every stored booking has run since it was set, or was over by then |
| ScheduleRuns.NothingStale | timed-events.c:62-76 | and what runs next belongs to a booking as it is stored |
| ScheduleRuns.HistoryKeepsOrder | timed-events.c:23-34 | any history of moves, safe or not, keeps the list sorted while all times lie within 2^31 s |
| ScheduleRuns.OpenEventsRun | timed-events.c:62-104 | after any safe history of moves, whatever is in flight and waiting runs in order, each exactly at its run time |
| ScheduleRuns.AllRunInTheEnd | timed-events.c:62-104 | and once the last run time has come, the queue is empty and every event of every stored booking has run since it was set, or was over by then |
| ScheduleRuns.StaleTuneIn | timed-events.c:118-125 | for any booking: set, picked up, moved; the old tune-in is still in flight and runs at its old time |
| ScheduleRuns.LostStop | scheduled.c:127-148 | after a removal, no event of a booking that has begun runs any more |
| ScheduleRuns.NextBookingEndsIt | dvbrecorder.c:181-198 | otherwise the next booking ends the recording: at its tune-in when that is to another channel, else not before its stop |
| ScheduleRuns.LostStopHappens | scheduled.c:127-148 | for any booking: started, then another one booked and removed; however long the queue runs on, the recording is never stopped |
| DvbRecorder.DVBRecorder.TranslateScheduledEvent | scheduled.c:260-276 | three sorted inserts: a minute before the start, at the start, at the end |
| DvbRecorder.DVBRecorder.ScheduledEventSet | scheduled.c:61-125 | table, list and returned id are as specified, the refused and the unknown booking included |
| DvbRecorder.DVBRecorder.FindUpcomingScheduledEvents | scheduled.c:278-308 | the loop adds the events of the rows, one row after the other, to whatever is listed |
| DvbRecorder.DVBRecorder.EnableScheduledEvents | scheduled.c:310-329 | list and slot are cleared, the list is rebuilt when switched on, the timer runs exactly when enabled |
| DvbRecorder.DVBRecorder.ScheduledEventRemove | scheduled.c:127-148 | the row is gone and the list is rebuilt, unless the id is 0 |
| RecordingPlan.PlanShape | scheduled.c:260-276 | the plan of bookings in start order is their triples one after the other |
| RecordingPlan.PlanIncreasing | scheduled.c:260-276 | for bookings more than a minute apart all its times increase strictly |
| RecordingPlan.SortedIsUnique | timed-events.c:23-34 | a sorted list with the same events as a strictly increasing one is that one |
| RecordingPlan.ListIsPlan | scheduled.c:61-125 | in whatever order spaced bookings were set, the list is their plan |
| RecordingPlan.PlanRecords | timed-events.c:36-60 | running a plan records one segment per booking, on its channel, in order |
| RecordingPlan.StartsAndStopsOnTime | timed-events.c:62-104 | with a tick in every booking every start and stop runs on the second |
| RecordingPlan.AllOnTimeIff | timed-events.c:62-104 | all do exactly when the list was ready early enough and a tick falls into every booking |
| RecordingPlan.HalfMinuteIff | timed-events.c:93-104 | both conditions hold at every phase of the ticks exactly for bookings of 30 s or more, the first at least a minute ahead |
| RecordingPlan.PlanRuns | timed-events.c:62-104 | once the last run time has come the queue is empty and everything ran at its run time |
| RecordingPlan.ScheduleRecords | scheduled.c:318-324 | from bookings to recordings: exactly one per booking, on its channel, in order; at the booked times exactly under those two conditions |
| RecordingPlan.ScheduleRecordsExactly | scheduled.c:318-324 | bookings of 30 s or more, over a minute apart and a minute ahead, are recorded exactly as booked by the end of the last |
| RecordingPlan.ShortBookingsRunLate | timed-events.c:93-104 | one-second bookings over a minute apart of which the second starts late |
| CloseBookings.ListIsClosePlan | scheduled.c:260-276 | in whatever order bookings that start over a minute apart were set, the list is their plan, tune-ins inside recordings included |
| CloseBookings.ClosePlanRecords | dvbrecorder.c:181-198 | running that plan records one segment per booking, on its channel, in order, ended by its stop or by a tune-in to another channel |
| CloseBookings.RecordedWholeIff | dvbrecorder.c:195-198 | a booking is recorded up to the run of its own stop exactly when the next one does not tune into it, or is on the same channel |
| CloseBookings.CloseBookingsRecorded | scheduled.c:318-324 | the chain from bookings to recordings for such bookings, with that condition for each |
| AnyBookings.FollowsAnyLog | timed-events.c:36-60 | for any log of events, overlapping bookings included: the recorder records exactly when a start came since the last stop or tune-in elsewhere, on the channel last tuned to, since the first such start |
| AnyBookings.SegmentsOfAnyLog | timed-events.c:36-60 | an event adds one recording, from its start to now, when it ends one, and none otherwise |
| AnyBookings.RecordedIff | timed-events.c:36-60 | the recording from one event to another is made exactly when none runs at the first and nothing in between ends it |
| AnyBookings.AnyBookingRecordedIff | scheduled.c:318-324 | for any bookings, the queue run until it is empty: a booking is recorded from the run of its start to the run of its stop exactly when no recording runs at its start, and no stop and no tune-in elsewhere runs in between |
| Dates.BcdDigits | utils.c:110-125 | six BCD digits give the seconds of the day |
| Dates.DatetimeIsExact | utils.c:127-136 | for every 64-bit value the result is (MJD - 40587) * 86400 plus the time of day, also before 1970 where the subtraction wraps |
| Dates.DecodesBroadcastDate | utils.c:110-136 | decoding a broadcast day, hour, minute and second gives their Unix time |
| Dates.OrderAsBroadcast | epg.c:178-189 | events compare as their day, hour, minute and second do |
| Descriptors.ReadString | descriptors.c:27-34 | a length-prefixed string and where it ends; an empty one gives no text |
| Descriptors.DecodeService | descriptors.c:21-36 | type, provider and name stand where the two length bytes put them |
| Descriptors.DecodeShortEvent | descriptors.c:48-67 | language, description and text stand where the two length bytes put them |
| Descriptors.ReadItems | descriptors.c:92-104 | the item loop reads exactly the items up to 5 + their length |
| Descriptors.DecodeExtendedEvent | descriptors.c:79-113 | numbers, language, the item list and the text behind it are read from where the item length puts them |
| Descriptors.ServiceRoundTrip | descriptors.c:21-36 | every encodable service descriptor is read back |
| Descriptors.ShortRoundTrip | descriptors.c:48-67 | every encodable short-event descriptor is read back |
| Descriptors.ItemsRead | descriptors.c:92-104 | on well-formed data the loop reads back every item and stops exactly behind the last |
| Descriptors.ExtendedRoundTrip | descriptors.c:79-113 | every encodable extended-event descriptor is read back |
| Epg.CollectAll | epg.c:64-117 | fragments of any list of events, one after the other, give back the events |
| Epg.OthersDoNotMatter | epg.c:44-128 | descriptors of other kinds never change what is collected |
| Epg.ReassemblyRoundTrip | epg.c:39-128 | with other descriptors anywhere in between, original texts and items come back in order |
| Epg.BroadcastRoundTrip | epg.c:39-128 | the same from the broadcast bytes, through the descriptor decoders |
| Epg.ShortsRoundTrip | epg.c:52-62 | from the broadcast bytes, language, description and text of every short event come back, each in its place, in order |
| Epg.ShortsAppend | epg.c:52-62 | short events are read in order |
| Epg.NoShorts | epg.c:120-122 | descriptors of other kinds add no short event |
| Epg.JoinedMeans | epg.c:90-106 | an event put together has all items and texts of its fragments, in order |
| Epg.StartDropsOpen | epg.c:73-83 | an event under collection is dropped when a new one starts |
| Epg.NotStartedIgnored | epg.c:85-88 | fragments before the first number 0 are ignored |
| Epg.NextDescriptor | epg.c:64-117 | for any numbering: a descriptor adds an event exactly when it is a last fragment and an event is under collection or starts with it; then what the last number 0 started, with all since |
| Epg.EPGEvent.TakeShort | epg.c:52-62 | one more short event |
| Epg.EPGEvent.TakeExtended | epg.c:64-117 | one fragment starts, extends, completes or is ignored, with items kept newest first and reversed on completion |
| Epg.EPGEvent.ReadDescriptors | epg.c:39-128 | for arbitrary numbering the two lists are what the recursive specification gives, in order |
| Epg.ReadTable | epg.c:143-167 | one new event per entry with converted times and read descriptors |
| ControlCodes.RewrittenLength | utils.c:46 | the result has one more byte per lone control byte, which is what was allocated |
| ControlCodes.AcceptedIff | utils.c:10-40 | a string is accepted exactly when it is made of characters and lone control bytes, and the result is those pieces with 0xC2 in front of each lone one |
| ControlCodes.ResultValid | utils.c:46-73 | the result is structurally valid UTF-8 |
| ControlCodes.SecondCallChangesNothing | utils.c:4-76 | rewriting the result changes nothing |
| ControlCodes.SignedCharNeverRewrites | utils.c:32-35 | with signed char a string is accepted exactly when the unsigned code would leave it alone |
| ControlCodes.NothingToRewrite | utils.c:42-43 | an accepted string without lone control bytes is its own result |
| ControlCodes.StepAt | utils.c:11-38 | the first pass cuts as specified and reads nothing behind the terminator |
| ControlCodes.Count | utils.c:9-40 | it accepts exactly what the specification accepts and counts the lone control bytes |
| ControlCodes.CopyAt | utils.c:49-69 | the second pass, by lead byte alone, cuts at the same place and writes the fixed piece |
| ControlCodes.SecondPass | utils.c:46-70 | the buffer holds the whole result, and its last byte is untouched |
| ControlCodes.ConvertControlCodes | utils.c:4-76 | a null pointer is accepted, refused or unchanged strings stay; otherwise a new buffer of exactly the right length holds the result, without a written terminator |
| Utf8.RepairsText | utils.c:4-76 | for every text of code points with lone bytes 0x80 to 0x9F anywhere between: accepted, the lone bytes counted, and exactly those led by 0xC2 |
| Utf8.EncodedTextUnchanged | utils.c:11-31 | the encoding of every sequence of code points, by arithmetic, is accepted, has no lone control bytes and comes back unchanged |
| Utf8.BrokenTextRefused | utils.c:14-38 | a text that breaks off in an incomplete character, or at a byte that leads nothing, is refused |
| Utf8.CharIff | utils.c:11-31 | what passes for a character, by its lead and continuation bits |
| ScanMerge.CompareKeys | dvb-scanner.c:50-63 | equal exactly for the same network and service id |
| ScanMerge.MergeMeaning | dvb-scanner.c:96-144 | a stored channel keeps id and key; the first of a scanned key has the last scanned payload and is clean; every other one keeps its payload and is dirty exactly when it was or its satellite was scanned |
| ScanMerge.LastScannedIff | dvb-scanner.c:118-133 | the payload comes from the last scanned entry with the key, if there is any |
| ScanMerge.ScannedIff | dvb-scanner.c:65-94 | the five satellites of the table, one by one |
| ScanMerge.NewOnesExact | dvb-scanner.c:118-133 | new rows are exactly the scanned channels without a stored key |
| ScanMerge.IsScannedSatellite | dvb-scanner.c:65-94 | the channel's satellite is among the scanned ones, by the translation table |
| ScanMerge.FindKey | dvb-scanner.c:118-122 | the first entry of the key |
| ScanMerge.MarkDirty | dvb-scanner.c:110-116 | exactly the channels on scanned satellites become dirty |
| ScanMerge.MergedSnoc | channels.c:21-35 | one more scanned channel changes at most the first stored one of its key |
| ScanMerge.MergeScanned | dvb-scanner.c:118-133 | updating in place, entry after entry, gives the key-based merge |
| ScanMerge.UpdateChannels | dvb-scanner.c:96-144 | what is written back: the merged channels, then the new ones; nothing without satellites |

## Left out

- Tuner and device handling (`dvb-tuner.c`): adding a PID to the tuner is appending to a list.
- SQLite (`channel-db.c`, statements in `scheduled.c`): tables are maps, query answers and row ids are parameters; failed statements are not modelled.
- libdvbpsi: a generated section is an arbitrary byte sequence or none, decoded tables are parameters of the callbacks; what a decoder makes of a packet is a parameter.
- Character set conversion (`g_convert`): a parameter; empty strings give no text, as in the code.
- Thread creation, joining and shutdown, memory ownership, `free`: a removed listener stays an object that nobody offers packets to.
- Unlocked list walks (`dvb_reader_listener_set_running`, `dvb_reader_reset`) racing with registration: each is one step here, and so are the walks under the mutex.
- Time-outs of the message condition variable and fairness: safety only, nothing says that a worker is ever scheduled.
- Filters are sets of named bits; bits outside the named ones never meet a filter and are dropped.
- The origin of a DATA message (stream or table) exists in the model only, to state what each carries.
- The DROP message is handled, but no caller sends it; the runs of the reader system have none.
- Events to the application, logging, stream information, running program names (`events.c`, `logging.c`, `streaminfo.c`).
- The EIT table cache, SDT and RST callbacks: freshness is not decided by the code.
- Record file names, patterns and capture directories: whether a name could be made is a parameter.
- Reads beyond a malformed descriptor's data: the code does not check lengths and goes on reading whatever memory follows.
- Child process, object system and VDR line parsing (`dvb-scanner.c`, `channels.c` except the merge).
- The calls of the recorder are atomic; its listener's callback does not overlap with them.
- Conflict checks, recurring bookings and enumeration (`scheduled.c:150-258`).
- Reset: stream status, service information, event tables and the stop of the tuner are not in the state.
- ReadString: no result where a length points beyond the data.
- DecodeService: no result where a length points beyond the data.
- DecodeShortEvent: no result where a length points beyond the data.
- ReadItems: no result where a length points beyond the data.
- DecodeExtendedEvent: no result where a length points beyond the data.
- RecordCallback: whether waiting for itself blocks the worker for ever or ends the program is not modelled; the state is that in which it begins to wait.
- PushBuffer: with nothing carried over the chunk must have a first byte even when its length is 0, because the code looks at it.
- ReadTable: appends to its result where the code prepends and reverses at the end.
