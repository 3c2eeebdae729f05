# Sounder and IrisUtils: a verified model

RENEWLab drives a many-antenna base station and its clients.  Its C++ program, the Sounder, receives slots of
samples from many radios at once, records them, transmits generated data on time, keeps clients aligned to the base
station's beacon, finds that beacon with vectorised correlators, and generates the frame schedules that keep all
transmitters apart.  Its Python utilities hold a few algorithms of their own.  This project models those parts and
proves what they promise, for every input, every run and every interleaving.

| file | what it models |
|---|---|
| `ReceiveRing`, `ReceiveRingInvariant`, `ReceiveRingSafety` | the concurrent receive path as a step system: receive threads, scheduler, recorders |
| `ReceiveRingPackets`, `ReceiveRingOrder`, `ReceiveRingProgress`, `ReceiveRingLoss` | what its packets hold, in what order it works, what its steps achieve, and how slots are lost |
| `InUseBits`, `InUseSteps` | the in-use marks as they are stored, four to an atomic int, and the path's steps on them |
| `TransmitFile`, `TransmitRing`, `TransmitPipeline` | generated file, cyclic reader, packet ring, and the two threads that share it without a lock |
| `TransmitTiming`, `ClientTiming` | the 64-bit times of a client's transmissions, from one start and over a whole run |
| `ClientTurns`, `ClientFacts`, `ClientSync` | what the client's synchronisation loops do, as functions, and the loops themselves |
| `ClientAlignment`, `ClientStream`, `ClientExecutions` | the client's alignment over whole runs, where that puts it in the stream of samples, and which runs really happen |
| `Simd`, `ComplexVectors`, `Correlators`, `BeaconDetector`, `BeaconHeard` | the single-precision vector code and the beacon detector, over the reals |
| `ComplexInt16` | the 16-bit vector code, exactly |
| `Slots`, `FullMatrix`, `StarCalibration`, `ClientSchedules` | frame schedules, their generators, and the receiver's renumbering |
| `DatasetGrowth` | the recorder's growing datasets |
| `WorkSplitting` | radios to threads, global radio numbers to cells |
| `GainControl`, `DetectPeaks`, `PeakDet`, `FindArrays` | the Python algorithms |
| `Arithmetic`, `Common` | facts about quotients and remainders, small shared definitions |

Code that changes state is modelled by classes and methods with loops, proved against specification functions; the
concurrent receive path is a function from state and action to state, and a run is any sequence of actions.  The
transmit pipeline is a class whose methods are single steps of its two threads, so that what holds of every valid
object holds in every interleaving.

## Where the code does less than it says

Each of these is a lemma with the exact condition, or with a run that shows it.

- Without internal measurement a recorded packet of slot 0 is taken for a frame announcement and its ring slot stays
  marked for good.  In every configuration that records any antenna such packets can use up a whole ring, so that
  the next reservation ends the program though nothing is on its way
  (`ReceiveRingSafety.DrainedRingIsFreeIff`, `ReceiveRingLoss.SlotZeroUsesUpTheRing`, `AlwaysDrainsCleanIff`).
- The reader and the transmitter share the packet ring without a lock; `pkt_buf_inuse` is cleared and never tested.  A
  block sent is its packet's own if and only if the reader is at most a ring past it at that moment.  A ring full of
  frames completely read can be overtaken by the frame being read after all headers were looked at and found right
  (`TransmitPipeline.SentBlockIsGeneratedIff`, `Overtaken`).
- The transmit buffer is sized by slots and not by channels: its 80 frames fit with two channels if and only if at
  most half of the slots are uplink slots (`TransmitPipeline.EightyFramesFitIff`, `BufferHoldsFrames`).
- With frames above 98039 samples a client that keeps resynchronising can find the beacon in two frames in a row and
  correct the same error twice; some answers of radio and detector make it do so if and only if resynchronisation goes
  on, its period is at most 101 frames and the run is long enough for it to fall due
  (`ClientAlignment.PeriodLongEnoughIff`, `ClientExecutions.NeverRepeatsIff`, `OverCorrectionHappens`).
- After an early beacon the transmit time is corrected for that frame alone, while the samples are dropped in the
  next: everything drained in the next frame is sent late by the offset
  (`ClientTiming.BaseAfterResync`, `OnTimeIff`).
- A comment calls the initial alignment positive by definition; it is negative, and the code throws, exactly when the
  detection comes too early for the window, and that can happen exactly when the window leaves less of the frame than
  prefix and beacon take (`ClientSync.Client.InitialSync`, `ClientExecutions.InitialSyncCanThrowIff`).
- The real correlator stays in its buffers only for lengths that are 7 modulo 8, the complex one for 0 or 1 modulo 4;
  the detector's padding gives both (`Correlators.RealLoadsFitIff`, `ComplexLoadsFitIff`).
- The 16-bit vector product differs from its scalar tail exactly when the second factor's imaginary part is -32768
  and the component it multiplies is neither 0 nor -32768 (`ComplexInt16.LaneMatchesScalarIff`).
- Star calibration without client antennas stores both directions of an exchange in one row
  (`StarCalibration.RemapInjectiveIff`).
- The default client generator reads past the pilot list exactly when there are too few pilots, with one exception
  (`ClientSchedules.LookupsFitIff`).
- A dataset that is written seldom ends the program even if no frame is missing: its extent is left behind, the write
  throws, and nothing catches it (`DatasetGrowth.SeldomWrittenDatasetMisses`, `RunGoesOnIff`).
- A frame whose sixteenth reading is saturated and is the third or sixth saturated one ends before the machine is back
  in idle, and the control then sits out the whole next frame.  A comment says the machine stays enabled after its
  reset; the reset disables it (`GainControl.ReturnPendingIff`, `NextFrameLostIff`, `LateSaturationLosesNextFrame`).

## Model

| member | source | states |
|---|---|---|
| ReceiveRingInvariant.StepKeeps | CC/Sounder/receiver.cc:471-604 | Any one step of any thread keeps the path's invariant: bits match owners, jobs still find their packets, cursors stay on reservation boundaries |
| ReceiveRingSafety.InUseMeansOneOwner | CC/Sounder/receiver.cc:471-482 | In every reachable state a slot's bit is set exactly when one receive thread holds it or exactly one job names it, never both |
| ReceiveRingSafety.OnlyFaultIsBufferFull | CC/Sounder/receiver.cc:534-547 | Of the modelled faults only a full buffer can happen in any run: no double free, no bad address, no missing recorder, no antenna out of range |
| ReceiveRingSafety.WritesOnlyHeld | CC/Sounder/receiver.cc:484-518 | A receive thread writes to no slot it does not hold |
| ReceiveRingSafety.NeverRewrittenBeforeFreed | CC/Sounder/receiver.cc:592-603 | No step of any run changes a slot that an undelivered job names |
| ReceiveRingSafety.PostedPacketsAreConserved | CC/Sounder/scheduler.cc:226-251 | The packets posted are those recorded plus those on their way or misrouted, with multiplicity |
| ReceiveRingSafety.RecordedAtMostOnce | CC/Sounder/recorder_thread.cc:138-147 | Each posted packet is recorded at most as often as it was posted |
| ReceiveRingPackets.PostsWhatWasReceived | CC/Sounder/receiver.cc:484-604 | In every run a posted packet carries the header its thread wrote last, and the samples of the channel that is as many packets after the thread's last reception |
| ReceiveRingPackets.EveryPostedPacketWasReceived | CC/Sounder/receiver.cc:596-604 | Each posted packet of a run was received and stamped so by some thread at some point of it |
| ReceiveRingPackets.EveryRecordedPacketWasReceived | CC/Sounder/recorder_thread.cc:138-147 | And so was each recorded packet |
| ReceiveRingOrder.RecorderKeepsOrder | CC/Sounder/recorder_thread.cc:104-147 | In every run a recorder writes its packets in the order the scheduler handed them over, leaving none out |
| ReceiveRingOrder.BatchIsBounded | CC/Sounder/scheduler.cc:213-223 | The scheduler never holds more than five events it has not dispatched |
| ReceiveRingProgress.TakeRecordFree | CC/Sounder/recorder_thread.cc:138-152 | Three steps of an idle recorder write the packet of its first task and free that slot, and change nothing else |
| ReceiveRingProgress.DiscardUndoesReservation | CC/Sounder/receiver.cc:471-546 | A reservation whose samples are thrown away leaves the path exactly as it was |
| ReceiveRingProgress.FailureHalts | CC/Sounder/receiver.cc:510-513 | After the radio has failed its thread never acts again |
| ReceiveRingProgress.AnnouncementsAreKept | CC/Sounder/scheduler.cc:228-240 | Each announcement of a frame waits or has been handed to a reader, as often as it was made |
| ReceiveRingProgress.RefusesStrayPackets | CC/Sounder/recorder_worker.cc:295-300 | A recorder stops the program exactly for an antenna outside its range |
| ReceiveRingProgress.RefusesStrayJobs | CC/Sounder/scheduler.cc:241-251 | Dispatching fails exactly for an antenna no recorder serves |
| ReceiveRingInvariant.RecordWrites | CC/Sounder/recorder_thread.cc:138-147 | A record task decodes to an existing slot that still holds the packet posted for it, and that packet is written |
| ReceiveRingInvariant.AddressDecodes | CC/Sounder/recorder_thread.cc:138-139 | Dividing the posted offset by the buffer size recovers buffer and slot |
| ReceiveRingInvariant.BlocksCover | CC/Sounder/scheduler.cc:177-201 | The recorder index of every recorded antenna is that of an existing recorder whose range contains the antenna |
| ReceiveRingOrder.BlocksAreSmallest | CC/Sounder/scheduler.cc:177-183 | A recorder gets the fewest antennas for which all recorders together serve all |
| ReceiveRingSafety.MisroutedSlotIsLost | CC/Sounder/scheduler.cc:228-240 | A slot whose packet was taken for a frame announcement stays marked in every continuation |
| ReceiveRingSafety.DrainedRingIsFreeIff | CC/Sounder/scheduler.cc:228-251 | Once drained, all slots are free if and only if internal measurement is on or no posted packet was of slot 0 |
| ReceiveRingLoss.SlotZeroUsesUpTheRing | CC/Sounder/scheduler.cc:228-240 | Whenever slot 0 can be posted outside internal measurement there is a run that drains with every slot of ring 0 marked, after which the next reservation ends the program |
| ReceiveRingLoss.AlwaysDrainsCleanIff | CC/Sounder/scheduler.cc:228-251 | All slots are free in every drained state of every run if and only if the configuration measures internally, records no antenna or has no receive thread |
| ReceiveRingSafety.SizedRingIsWhole | CC/Sounder/scheduler.cc:30-37 | The scheduler's ring size is a whole number of one- or two-channel reservations |
| ReceiveRingSafety.RingStaysInBoundsIff | CC/Sounder/receiver.cc:471-487 | No run addresses a slot outside a ring if and only if every ring is a whole number of its thread's reservations |
| InUseBits.SampleBuffer.FetchOr | CC/Sounder/receiver.cc:472-480 | Setting a slot's bit reports its old mark and changes no other slot's mark |
| InUseBits.SampleBuffer.FetchAnd | CC/Sounder/recorder_thread.cc:149-152 | Clearing a slot's bit changes no other slot's mark |
| InUseSteps.NewBuffers | CC/Sounder/scheduler.cc:48-58 | The zeroed words of new buffers hold the marks of the first state |
| InUseSteps.FetchOrStep | CC/Sounder/receiver.cc:472-482 | Done on the stored words, a reservation leaves the marks of the state after the step, and the old bit tells whether it ends the program |
| InUseSteps.FetchAndStep | CC/Sounder/receiver.cc:534-545 | The same for giving a slot back unused |
| InUseSteps.FreeStep | CC/Sounder/recorder_thread.cc:149-152 | The same for the recorder that frees the slot of its task, in every state that keeps the invariant |
| TransmitFile.GenerateData | CC/Sounder/data_generator.cc:54-110 | The nested loops lay the file out frame by frame, slot by slot, channel by channel |
| TransmitFile.FileSlice | CC/Sounder/data_generator.cc:54-110 | The blocks of any generated frame are the slice of the file at its number |
| TransmitFile.CursorAtFrame | CC/Sounder/hdf5_reader.cc:108-110 | Seeking back at multiples of the frame count leaves the file cursor at the frame to be read |
| TransmitRing.Latest | CC/Sounder/hdf5_reader.cc:113-115 | Of the items written to a ring in order, the one last in a cell: the item itself exactly while at most ring-size items follow |
| TransmitRing.HoldsOn | CC/Sounder/hdf5_reader.cc:113-118 | Writing the next item keeps each of the last ring-size items in its cell |
| TransmitPipeline.TxRadio.BeginFrame | CC/Sounder/hdf5_reader.cc:107-110 | Step: the reader begins the next frame with its file cursor at that frame, and everything stays valid |
| TransmitPipeline.TxRadio.LoadBlock | CC/Sounder/hdf5_reader.cc:113-118 | Step: one block goes from the file to the next cell, whatever the transmitter is doing |
| TransmitPipeline.TxRadio.StampHeader | CC/Sounder/hdf5_reader.cc:123-125 | Step: the block just read gets the header of its frame, slot and antenna |
| TransmitPipeline.TxRadio.FinishFrame | CC/Sounder/hdf5_reader.cc:128-134 | Step: the completion event names the frame and the cell of its first packet |
| TransmitPipeline.TxRadio.ReadFrame | CC/Sounder/hdf5_reader.cc:88-135 | The reader's loops are these steps, and queue one event for the next frame |
| TransmitPipeline.TxRadio.TakeEvent | CC/Sounder/receiver.cc:767-773 | Step: the transmitter takes the front event, or finds none |
| TransmitPipeline.TxRadio.LookAtHeader | CC/Sounder/receiver.cc:778-786 | Step: the header of the next channel's packet is looked at, as it is at that moment |
| TransmitPipeline.TxRadio.Transmit | CC/Sounder/receiver.cc:787-797 | Step: the radio reads the slot's blocks where they are at that moment |
| TransmitPipeline.TxRadio.SendFrame | CC/Sounder/receiver.cc:761-807 | The transmitter's loops are these steps, one event from the queue's front |
| TransmitPipeline.SentBlockIsGeneratedIff | CC/Sounder/receiver.cc:776-797 | In every interleaving the block sent for (f, s, h) is that very packet's, generated for (f mod frames, s, h), if and only if the blocks read by then are at most a ring past it; otherwise it is the last one put in its place, of a later frame if a frame fits the ring |
| TransmitPipeline.SentBlockIsCopyIff | CC/Sounder/receiver.cc:776-797 | With all generated blocks different, what is sent is right if and only if the block in place is a copy of the one meant |
| TransmitPipeline.HeaderIsMeantIff | CC/Sounder/receiver.cc:781-783 | The header looked at is the one meant if and only if the packet was still there, and the code's assertions then hold |
| TransmitPipeline.AssertsHoldIff | CC/Sounder/receiver.cc:782-783 | The code's assertions hold if and only if the packet in place has the same position in its frame; one overwritten once passes exactly when the ring is a whole number of frames |
| TransmitPipeline.FramesBegunFit | CC/Sounder/hdf5_reader.cc:106-127 | The block sent is the one meant if the frames from its own to the one being read, that one included, fit the ring |
| TransmitPipeline.Overtaken | CC/Sounder/hdf5_reader.cc:111-127 | Counting only frames completely read is not enough: a run in which they fit exactly, all headers are right and the next frame's block is sent |
| TransmitPipeline.BufferHoldsFrames | CC/Sounder/scheduler.cc:64-79 | The transmit buffer always holds one frame, and 80 or 40 by the number of channels |
| TransmitPipeline.EightyFramesFitIff | CC/Sounder/scheduler.cc:64-79 | It holds 80 frames if and only if a frame has no more packets than slots, with two channels no more than half of its slots for uplink |
| TransmitTiming.TimeDoesNotDependOnDrain | CC/Sounder/receiver.cc:772-797 | As long as bases are whole frames after one start, the time of a queued slot is its meant time whichever frame drains the queue, unsigned wrap of the frame difference included |
| TransmitTiming.ClientTxTimes | CC/Sounder/receiver.cc:729-797 | A pilot for each channel and then every uplink slot is sent, each at its frames and slots after the start less the advance, or the lookup of a missing pilot fails |
| TransmitTiming.SentSlotsDistinct | CC/Sounder/receiver.cc:736-751 | A client's pilot and uplink slots of a frame are pairwise different slots of the frame |
| TransmitTiming.DifferentSlotsDisjoint | CC/Sounder/receiver.cc:788-790 | Transmissions in different slots counted from one start occupy disjoint sample intervals |
| TransmitTiming.ClientTransmissionsDisjoint | CC/Sounder/receiver.cc:729-797 | No two transmissions of a client counted from one start overlap |
| TransmitTiming.MovedBeaconDisjointIff | CC/Sounder/receiver.cc:1019-1020 | After a correction of at most a slot two transmissions are disjoint if and only if the move leaves the slots between them |
| ClientTiming.DrainTimeIsComputed | CC/Sounder/receiver.cc:772-790 | The time counted from a frame's own base is what the 64-bit arithmetic gives, as long as it fits |
| ClientTiming.BasesMove | CC/Sounder/receiver.cc:1019-1043 | Over a run, the bases of two frames differ by whole frames plus the offsets found between them and the change of the pending correction |
| ClientTiming.BaseAfterResync | CC/Sounder/receiver.cc:1016-1043 | Until the next beacon found, a base is whole frames after the start the beacon gave, plus the correction pending in that frame |
| ClientTiming.DrainDoesNotMatterIff | CC/Sounder/receiver.cc:772-790 | A slot's time is the same from two draining frames if and only if the base has not moved between them |
| ClientTiming.OnTimeIff | CC/Sounder/receiver.cc:1019-1038 | Until the next beacon found, a slot is sent at the time the beacon gives it if and only if it is not drained in the frame after an early find |
| ClientTiming.RunTransmissionsDisjointIff | CC/Sounder/receiver.cc:772-797 | With the run's own bases two transmissions are disjoint if and only if the move between their draining frames stays inside the gap or overtakes it |
| ClientTiming.SteadyTransmissionsDisjoint | CC/Sounder/receiver.cc:729-797 | With a steady beacon no two transmissions of a whole run overlap, from the first beacon found, late frames after early finds included |
| ClientSync.Client.AdjustRx | CC/Sounder/receiver.cc:1175-1210 | Exactly the samples asked are discarded if still running, never more |
| ClientSync.Client.SyncBeacon | CC/Sounder/receiver.cc:1133-1172 | A found index belongs to a fully read window that ends at the cursor; without one the client has stopped |
| ClientSync.Client.InitialSync | CC/Sounder/receiver.cc:927-960 | Success means two synchronisations, the cursor then exactly one frame after the start of the frame found last; it throws exactly when that would go back |
| ClientSync.Client.Resync | CC/Sounder/receiver.cc:1011-1058 | Late offsets are discarded at once, early ones deferred to the next request, retries counted up to the stop |
| ClientSync.Client.RestOfFrame | CC/Sounder/receiver.cc:1071-1127 | Every further slot of the frame is read once, a slot's samples each, unless the radio fails |
| ClientSync.Client.Frame | CC/Sounder/receiver.cc:985-1128 | One frame is a turn that follows the loop's rules, with the transmit base at the start the beacon gives |
| ClientFacts.AdjustedFacts | CC/Sounder/receiver.cc:1175-1210 | Whatever the radio answers, never more than asked is discarded, and exactly that if the client still runs |
| ClientFacts.BeaconSyncedFacts | CC/Sounder/receiver.cc:1133-1172 | Whatever the radio and the detector answer, a found index is one reported for a full window that ends at the cursor |
| ClientFacts.InitiallySyncedFacts | CC/Sounder/receiver.cc:927-960 | Every initial synchronisation that neither throws nor stops ends a frame after its second find, and it throws exactly when that would go back |
| ClientFacts.RunsFacts | CC/Sounder/receiver.cc:962-1129 | Every execution of the main loop is a run of turns that follow its rules and ends only for one of its reasons |
| ClientFacts.AdjustedSurvivesErrors | CC/Sounder/receiver.cc:1188-1209 | An error of the radio does not end the discarding of samples |
| ClientFacts.BeaconSyncedSurvivesErrors | CC/Sounder/receiver.cc:1147-1170 | Neither an error nor a short window ends the search for a beacon |
| ClientFacts.RestedStopsAtError | CC/Sounder/receiver.cc:1071-1127 | A failed slot of the rest of a frame ends the client at that slot |
| ClientFacts.PlayedStopsAtError | CC/Sounder/receiver.cc:990-999 | A frame makes no turn exactly when its slot 0 fails, and that ends the client |
| ClientSync.Client.MainLoop | CC/Sounder/receiver.cc:962-1129 | The loop computes exactly the turns and final state of its specification, and the transmit bases of those turns |
| ClientAlignment.RequestInRange | CC/Sounder/receiver.cc:990-994 | Slot 0 asks for at least the postfix and at most a slot, since the beacon fits its slot |
| ClientAlignment.ResyncAligns | CC/Sounder/receiver.cc:1036-1043 | A late offset ends slot 0 where it should at once, an early one in the next frame, short of a pending correction |
| ClientAlignment.PendingIff | CC/Sounder/receiver.cc:1037-1038 | A correction is pending if and only if the frame before found its beacon early |
| ClientAlignment.CursorFollowsLastResync | CC/Sounder/receiver.cc:985-1129 | Between beacons found, the cursor is whole frames after the start of the frame last found, up to the pending correction |
| ClientAlignment.NoConsecutiveFinds | CC/Sounder/receiver.cc:1006-1010 | If resynchronisation is off, its period exceeds the retries by more than one, or the run is too short, no two frames in a row find the beacon |
| ClientAlignment.AlignedAfterResync | CC/Sounder/receiver.cc:1006-1058 | Then the cursor is exactly on the frames from every resynchronisation to the next |
| ClientAlignment.LooksOnlyOnce | CC/Sounder/receiver.cc:1006-1010 | Without resynchronisation the beacon is found at most once, in a frame of the first period |
| ClientStream.InitialSyncEndsAtFrame | CC/Sounder/receiver.cc:934-953 | If the detector reports where beacons of the stream end, a successful initial synchronisation leaves the client where a frame of the stream begins |
| ClientStream.FramesBeginAtFrames | CC/Sounder/receiver.cc:985-1129 | From the first beacon found, every frame read begins where one of the stream does, up to the samples left out after an early find |
| ClientStream.BaseIsAtFrame | CC/Sounder/receiver.cc:1016-1020 | The transmissions of a frame with a beacon found are counted from where a frame of the stream begins |
| ClientStream.LateFindEndsSlot0 | CC/Sounder/receiver.cc:1039-1042 | A late beacon ends slot 0 where the second slot of a frame of the stream begins |
| ClientStream.EarliestBeaconAsksLeast | CC/Sounder/receiver.cc:991 | After the earliest beacon the next slot 0 asks for the postfix and what the beacon leaves of its slot |
| ClientAlignment.PeriodLongEnoughIff | CC/Sounder/receiver.cc:972-974 | The computed period is long enough if and only if a frame has at most 98039 samples |
| ClientAlignment.OverCorrects | CC/Sounder/receiver.cc:1036-1043 | Otherwise there is a run without drift that ends slot 0 a sample early |
| ClientExecutions.FullRunsHappen | CC/Sounder/receiver.cc:962-1129 | Every run of full turns that does not use up the retries is what the loop does on some answers of radio and detector |
| ClientExecutions.NeverRepeatsIff | CC/Sounder/receiver.cc:1006-1058 | No execution finds the beacon in two frames in a row if and only if one of those three conditions holds |
| ClientExecutions.OverCorrectionHappens | CC/Sounder/receiver.cc:1036-1043 | The over-correction is what the loop does on some answers |
| ClientExecutions.InitialSyncCanThrowIff | CC/Sounder/receiver.cc:937-951 | Some answers make the initial synchronisation throw if and only if the window leaves less of the frame than prefix and beacon take |
| ComplexVectors.Cf32MultLanes | CC/Sounder/comms-lib-avx.cc:207-234 | Each lane of the register product is the complex product, or the product with the conjugate |
| ComplexVectors.ComplexMultAvx | CC/Sounder/comms-lib-avx.cc:236-265 | For every length, tail included, the result is the element-wise product |
| ComplexVectors.AutoCorrMultAvx | CC/Sounder/comms-lib-avx.cc:267-298 | The result is the vector times its delayed copy, zero for the delay |
| ComplexVectors.Abs2Avx | CC/Sounder/comms-lib-avx.cc:309-343 | For every length, tail included, the result is the element-wise squared magnitude |
| Correlators.CorrelateAvx | CC/Sounder/comms-lib-avx.cc:407-447 | The outputs are the conjugate correlation sums of the window, zero after it, with every load and store in bounds |
| Correlators.ComplexLoadsFitIff | CC/Sounder/comms-lib-avx.cc:437-442 | The complex correlator's loads fit if and only if the window is 0 or 1 modulo 4; for multiples of 4 the last ends on the last float |
| Correlators.CorrelateAvxS | CC/Sounder/comms-lib-avx.cc:486-537 | The outputs are the weighted sums of the values before each position, with every load and store in bounds |
| Correlators.RealLoadsFitIff | CC/Sounder/comms-lib-avx.cc:521-530 | The real correlator's loads fit if and only if the length is 7 modulo 8; the last then ends on the last float |
| BeaconDetector.OutputLength | CC/Sounder/comms-lib-avx.cc:41-43 | A window padded to 64 and a sequence of a multiple of 8 meet both conditions |
| BeaconDetector.WindowIsEnergy | CC/Sounder/comms-lib-avx.cc:89-95 | The threshold at a position is the correlation energy of the last sequence length |
| BeaconDetector.ConjugateDoesNotMatter | CC/Sounder/comms-lib-avx.cc:79-82 | Conjugating the delayed copy does not change the squared magnitude |
| BeaconDetector.PeakIsInside | CC/Sounder/comms-lib-avx.cc:104-108 | A position that passes the comparison lies in the window, at least a sequence length in |
| BeaconDetector.FindBeaconAvx | CC/Sounder/comms-lib-avx.cc:58-142 | The pipeline returns the first peak of the direct definition, or -1 if there is none anywhere |
| BeaconDetector.FirstPeakIsInside | CC/Sounder/comms-lib-avx.cc:138-141 | A result other than -1 is between the sequence length and the window |
| BeaconDetector.FindBeaconRaw | CC/Sounder/comms-lib-avx.cc:36-56 | For any window length the result is the first peak of the samples as fractions of 32767, I real and Q imaginary, followed by silence up to a multiple of 64 |
| BeaconHeard.BeaconEndIsPeakIff | CC/Sounder/comms-lib-avx.cc:58-142 | Where two copies of the sequence end there is a peak if and only if the scaled fourth power of its energy exceeds the energy's square and the side lobes |
| BeaconHeard.BeaconIsHeard | CC/Sounder/comms-lib-avx.cc:138-142 | Such a beacon is never missed: the result is no later than its end |
| ComplexInt16.NegateWord | CC/Sounder/comms-lib-avx.cc:146-151 | Exclusive-or and add negates every 16-bit value but -32768, which it keeps |
| ComplexInt16.WrapUnseen | CC/Sounder/comms-lib-avx.cc:156-163 | A 32-bit wrap of the multiply-add is not seen after shift and mask |
| ComplexInt16.ShiftedRoundsDown | CC/Sounder/comms-lib-avx.cc:156-163 | The word left is the fixed-point product rounded down, if it fits |
| ComplexInt16.LaneMatchesScalarIff | CC/Sounder/comms-lib-avx.cc:144-203 | A vector lane equals the scalar tail bit for bit if and only if the stated component condition holds |
| ComplexInt16.LaneMatchesScalar | CC/Sounder/comms-lib-avx.cc:144-203 | In particular when no component is -32768 |
| ComplexInt16.ComplexMultAvx | CC/Sounder/comms-lib-avx.cc:169-205 | Every element of every length is the lane's or the tail's product, and equals the scalar one exactly as stated |
| ComplexInt16.LaneAbs2Iff | CC/Sounder/comms-lib-avx.cc:354-357 | The lane's multiply-add is the squared magnitude unless both components are -32768 |
| ComplexInt16.Abs2Avx | CC/Sounder/comms-lib-avx.cc:345-366 | For every length, tail included, the squared magnitude, exact but for that one sample |
| Slots.LoadSlots | CC/Sounder/utils.cc:118-136 | The list of a frame holds exactly the positions of the character, in increasing order |
| Slots.SlotsUnique | CC/Sounder/utils.cc:118-136 | That determines the list |
| Slots.SlotIndex | CC/Sounder/config.cc:971-980 | The row of a slot is its place in the list, -1 exactly if it is not listed |
| FullMatrix.GenSchedule | CC/Sounder/config.cc:521-545 | The nested loops give each radio its role in each slot |
| FullMatrix.OneSenderOrSilence | CC/Sounder/config.cc:532-541 | In every slot all are silent, or one radio sends and all others listen |
| FullMatrix.EveryPairMeets | CC/Sounder/config.cc:529-543 | Every ordered pair of radios meets exactly once on each channel of the sender |
| FullMatrix.CompressIsBijection | CC/Sounder/receiver.cc:568-572 | The receiver's slot renumbering is a bijection from the used slots onto the rows |
| FullMatrix.CellsAreDistinct | CC/Sounder/recorder_worker.cc:345-349 | Every packet of a frame has a dataset cell of its own, in bounds |
| StarCalibration.GenSchedule | CC/Sounder/config.cc:489-520 | The star schedule gives each radio its role in each slot |
| StarCalibration.GenClientSchedule | CC/Sounder/config.cc:616-642 | Clients receive in the radios' slots and send pilots in their own |
| StarCalibration.OnePilotSender | CC/Sounder/config.cc:489-520 | No slot has two pilot senders across base station and clients |
| StarCalibration.PilotsAreHeard | CC/Sounder/config.cc:489-520 | A radio's pilot is received by the reference and all clients, the reference's by all other radios |
| StarCalibration.ClientPilotsAreHeard | CC/Sounder/config.cc:514-516 | Each client antenna has a pilot slot, and all radios but the reference receive in it |
| StarCalibration.ClientsHearOnlyPilots | CC/Sounder/config.cc:624-632 | A client receives only while a radio sends its pilot |
| StarCalibration.RemapRows | CC/Sounder/receiver.cc:560-567 | Pilots to the reference go to row 0, the reference's to row 1, client antenna p's to row 2+p, in bounds |
| StarCalibration.RemapInjectiveIff | CC/Sounder/receiver.cc:560-567 | The renumbering keeps packets apart if and only if there are client antennas or a single radio |
| ClientSchedules.GenBsSounding | CC/Sounder/config.cc:546-590 | Beacon, uplink pilots and each radio's downlink pilots are at their slots |
| ClientSchedules.SoundingLayout | CC/Sounder/config.cc:556-586 | Beacon, two silent slots, a pilot slot for each client antenna, two silent slots, a sounding slot for each antenna, two silent slots |
| ClientSchedules.GenClientSounding | CC/Sounder/config.cc:650-688 | Each client sends its own pilots, the uplink slots, and receives in all downlink slots |
| ClientSchedules.ClientsFollowLists | CC/Sounder/config.cc:653-682 | In uplink slots clients send, their own pilots before all else; the remaining downlink slots they receive |
| ClientSchedules.GenSounding | CC/Sounder/config.cc:546-688 | Both generators with the slot lists between them |
| ClientSchedules.DownlinkPilotsAreHeard | CC/Sounder/config.cc:578-586 | Each downlink pilot slot belongs to one radio, and every client receives in it |
| ClientSchedules.ClientsListenOnlyToPilots | CC/Sounder/config.cc:653-659 | A client receives only in slots that some radio sounds |
| ClientSchedules.SoundingIsCollisionFree | CC/Sounder/config.cc:666-688 | Each uplink pilot slot has exactly one sending client, each client a slot for each channel |
| ClientSchedules.EachPilotSentOnceIff | CC/Sounder/config.cc:666-704 | Every base station pilot slot is sent by exactly one client if and only if the pilots are at most clients times channels |
| ClientSchedules.EveryClientServedIff | CC/Sounder/config.cc:671-682 | Every client has its pilots if and only if the pilots are at least clients times channels |
| ClientSchedules.GenClientDefault | CC/Sounder/config.cc:689-711 | The default frames, or a lookup out of range exactly when there are too few pilots |
| ClientSchedules.LookupsFitIff | CC/Sounder/config.cc:699-703 | All pilot lookups are in range if and only if there are not too few pilots |
| ClientSchedules.DefaultKeepsPilotsApart | CC/Sounder/config.cc:689-711 | Default frames send only own pilots, agree with the base station in data slots, and are silent during the beacon |
| DatasetGrowth.Hdf5Lib.ExtendDataset | CC/Sounder/hdf5_lib.cc:160-178 | One extension step, bounded by the limit |
| DatasetGrowth.Hdf5Lib.CloseDataset | CC/Sounder/hdf5_lib.cc:135-158 | Closing extends every dataset to the target |
| DatasetGrowth.Hdf5Lib.RecordPacket | CC/Sounder/recorder_worker.cc:314-373 | A record's new state, and whether its write reaches an open dataset inside its extent, passes the limit, or throws |
| DatasetGrowth.HitsIff | CC/Sounder/recorder_worker.cc:319-349 | A write hits if and only if its frame is inside the limit and less than a step past the extent after any reopening |
| DatasetGrowth.RunGoesOnIff | CC/Sounder/hdf5_lib.cc:197-230 | The program survives a run of records if and only if every write hits, but for a last record past the limit |
| DatasetGrowth.EveryWriteHitsAndStays | CC/Sounder/recorder_worker.cc:314-373 | If each record is in reach, in any order, every write hits, the recorder goes on, and no extend or close ever loses a frame |
| DatasetGrowth.SmallGapsAreWithinReach | CC/Sounder/recorder_worker.cc:314-373 | In a new file, records at most a step past the highest of their dataset are all in reach |
| DatasetGrowth.ExtentsStayInLimit | CC/Sounder/hdf5_lib.cc:163-170 | In a file with a limit no dataset grows past one frame more than the limit, or its first size |
| DatasetGrowth.FarFirstFrameMisses | CC/Sounder/hdf5_lib.cc:163-168 | A first frame 2799 is recorded, a first frame 2800 ends the program |
| DatasetGrowth.SeldomWrittenDatasetMisses | CC/Sounder/recorder_worker.cc:323-331 | Frames 0 to 4500 in order to one dataset are recorded, and frame 4500 to another then ends the program |
| WorkSplitting.RadiosOfThread | CC/Sounder/receiver.cc:362-375 | A thread's list holds exactly the radios it serves, in order; in reference calibration thread 0 has the reference alone |
| WorkSplitting.StartsGrow | CC/Sounder/receiver.cc:370-373 | The ranges run from 0 to all radios, and their lengths differ by at most one |
| WorkSplitting.OneThreadServes | CC/Sounder/receiver.cc:362-375 | Every radio is served by exactly one thread |
| WorkSplitting.PrefixSums | CC/Sounder/config.cc:446-451 | The aggregate holds the sums of the cell sizes |
| WorkSplitting.FindCell | CC/Sounder/receiver.cc:454-462 | The search finds the one cell that contains a global radio number, empty cells included |
| WorkSplitting.DecodeUnique | CC/Sounder/receiver.cc:454-462 | Cell and local number determine the global number and the other way round |
| GainControl.AutomaticGainControl.TriggerNewSample | PYTHON/IrisUtils/agc_fsm_iris.py:67-120 | One sample's transition with its actions, or the exception |
| GainControl.AutomaticGainControl.Frame | PYTHON/DEMOS/AGC_SIM_DEMO.py:167-201 | A frame of samples is the run of the machine's steps |
| GainControl.SampleKeeps | PYTHON/IrisUtils/agc_fsm_iris.py:67-120 | The wait state is never left standing and the counters fit the state; a sample raises exactly for a fine adjustment of a non-negative reading |
| GainControl.DropIsValid | PYTHON/IrisUtils/agc_fsm_iris.py:140-178 | A saturation drop is one of the three valid ones and its gain in range |
| GainControl.TuneIsInRange | PYTHON/IrisUtils/agc_fsm_iris.py:185-220 | A fine adjustment moves the gain towards the target and keeps it in range |
| GainControl.TuneMovesBy | PYTHON/IrisUtils/agc_fsm_iris.py:185-220 | It takes off the gain the whole units the reading is above -15, or adds those it is below, within 0 to 64 |
| GainControl.ConstantFrameGain | PYTHON/DEMOS/AGC_SIM_DEMO.py:164-201 | A frame of equal unsaturated readings moves the gain by one, two and three such steps from its maximum |
| GainControl.FiveTooLoud | PYTHON/IrisUtils/agc_fsm_iris.py:185-220 | Readings of -10 take the gain to 59, 54 and 49 |
| GainControl.IdleToIdle | PYTHON/IrisUtils/agc_fsm_iris.py:67-120 | From idle to idle there are at most three drops and exactly three fine adjustments |
| GainControl.IdleFrameCompletes | PYTHON/DEMOS/AGC_SIM_DEMO.py:181-201 | A frame of 20 negative readings started in idle makes all three fine adjustments |
| GainControl.FrameAdjustsIff | PYTHON/DEMOS/AGC_SIM_DEMO.py:164-201 | A frame makes its three fine adjustments if it starts in idle, otherwise neither drop nor adjustment |
| GainControl.ReturnPendingIff | PYTHON/DEMOS/AGC_SIM_DEMO.py:189-201 | A frame ends before its return to idle if and only if reading 15 is saturated and the saturated ones among readings 0 to 15 number 3 or 6 |
| GainControl.NextFrameLostIff | PYTHON/DEMOS/AGC_SIM_DEMO.py:164-201 | By that condition on one frame's readings the next makes no adjustment and no drop, or all three adjustments |
| GainControl.LateSaturationLosesNextFrame | PYTHON/IrisUtils/agc_fsm_iris.py:283-294 | Readings saturated at samples 13 to 15 make the next frame adjust nothing, whatever its readings |
| DetectPeaks.Candidates | PYTHON/IrisUtils/detect_peaks.py:102-133 | The candidates are exactly the interior local maxima by edge, height and threshold, in increasing order |
| DetectPeaks.FlatTop | PYTHON/IrisUtils/detect_peaks.py:110-117 | A flat top is detected at its first sample, its last, both, or only if it is a single sample, by the edge asked for |
| DetectPeaks.FiltersOnlyRemove | PYTHON/IrisUtils/detect_peaks.py:126-133 | Height and threshold remove exactly the candidates too low or not far enough above both neighbours |
| DetectPeaks.ValleysAreLow | PYTHON/IrisUtils/detect_peaks.py:100-101 | With valleys asked for, what is found is nowhere above its neighbours |
| DetectPeaks.Suppress | PYTHON/IrisUtils/detect_peaks.py:134-143 | The mask deletes exactly the candidates that a kept higher one suppresses, whatever the order of ties |
| DetectPeaks.KeptDoNotSuppress | PYTHON/IrisUtils/detect_peaks.py:138-143 | No kept peak is removed by another kept one, earlier or later |
| DetectPeaks.Detect | PYTHON/IrisUtils/detect_peaks.py:97-145 | Peaks are increasing candidates further apart than the distance, and every removed one has a peak near that is at least as high |
| PeakDet.Detect | PYTHON/IrisUtils/peakdet.py:43-87 | The tables hold the alternating extremes of the segments, each ended by the first sample more than delta away |
| PeakDet.ExtremesAlternate | PYTHON/IrisUtils/peakdet.py:60-87 | Neighbouring extremes differ by more than delta, with the switch between them |
| PeakDet.ExtremeIsLargest | PYTHON/IrisUtils/peakdet.py:60-87 | A recorded maximum is the largest sample from the minimum before it to the minimum after it, and the other way round |
| PeakDet.TablesAlternate | PYTHON/IrisUtils/peakdet.py:60-87 | Maxima and minima alternate in position starting with a maximum, and their counts differ by at most one |
| PeakDet.SegmentsUnique | PYTHON/IrisUtils/peakdet.py:60-87 | The signal determines the segments, so nothing is missed and nothing added |
| FindArrays.MarkHeads | PYTHON/IrisUtils/FindArrays.py:69-76 | A board stays marked if and only if no other board triggers it |
| FindArrays.MarkedAreHeads | PYTHON/IrisUtils/FindArrays.py:69-76 | The marked boards are exactly the heads of the chains |
| FindArrays.NearerTriggersMore | PYTHON/IrisUtils/FindArrays.py:85-86 | A board nearer the head triggers strictly more boards |
| FindArrays.OrderChains | PYTHON/IrisUtils/FindArrays.py:82-89 | For each head its triggered boards sorted, for the others nothing |
| FindArrays.LineIsSorted | PYTHON/IrisUtils/FindArrays.py:85-87 | In a line boards that trigger more come first, then those with larger numbers |
| FindArrays.SortedIsOrdered | PYTHON/IrisUtils/FindArrays.py:84-88 | Sorting by trigger count lists the whole chain from head to tail |
| FindArrays.EveryBoardOnce | PYTHON/IrisUtils/FindArrays.py:82-89 | Every board is printed exactly once, in the line of its chain |

## Left out

- What a reader does with an announced frame: the receive path ends where the read task is handed over; `TransmitPipeline` has the rest.
- The message queue is a bag from which any entry may leave next; the queues inside moodycamel are not modelled.
- The receive path as an update in place: the step system works on values, with the atomic updates of the in-use words modelled on an array by `InUseBits`.
- The antenna a receive thread computes is taken to be one of the recorded antennas; which frame and slot numbers the radio reports is arbitrary.
- Memory ordering of the atomics: each fetch-or, fetch-and, header write and queue operation is one atomic step.
- Races inside a step of the transmit pipeline: writing one block, writing one header, looking at one header, and the radio's reading of one slot's blocks are each one step.
- Read tasks of one radio are taken to come in consecutive frame order from frame 0, and its completion events to reach the transmitter in the order they were queued.
- Floating-point rounding in the single-precision vector code, and NaN in `detect_peaks`: both use reals.
- 16-bit sums whose C++ value would overflow 32 bits are taken to wrap.
- What the radio delivers and what the detector reports are arbitrary inputs of `ClientSync`; a radio that reports more samples than asked delivers none.
- ClientAlignment.ResyncAligns: says nothing for an early offset when the next frame finds the beacon too, because that frame starts a correction of its own; `NoConsecutiveFinds` rules it out, and `OverCorrects` shows it otherwise.
- What the client transmits and records inside its main loop: modelled apart, by `TransmitPipeline`, `ClientTiming` and `ReceiveRing`.
- Alignment and transmit times over frames with short reads: these lemmas are about full turns; `ClientFacts` holds for all.
- The carrier offset estimate, resampling clocks and the growth of the detection threshold with retries.
- Generated sample values, modulation, FFT and file names: a block of the transmit file is an arbitrary function of frame, slot and channel.
- Short reads of the transmit file, which the code only reports.
- The base station's own transmit path, which repeats the client's.
- Schedules of several cells at once: each generator is modelled for one cell.
- Star calibration with two base station channels.
- Closing the recording file at the end of the program after a frame above the limit has closed it already.
- DatasetGrowth.Hdf5Lib.RecordPacket: the choice of dataset by slot type is an argument, since it does not affect growth.
- The gain table: one row for each integer gain in range is assumed, and the radio's gain stages are not modelled.
- The `transitions` library beyond the order of its conditions and callbacks.
- Device calls, register writes, JSON, HDF5 internals, console output, thread pinning, sleeps and signals.
- The 16-bit correlators `correlate_avx` and `correlate_avx_si`, which nothing in the beacon path calls.
- FFT, Zadoff-Chu, LTS and Gold sequence generation, windowing, CSI and detection numerics.
