# Timing models of the hardware-in-the-loop bench

This project models the deterministic timing code of the bench and proves what
it promises over whole runs and across cooperating components. `dafny verify
dfyconfig.toml` checks everything.

| file | what it models |
|---|---|
| `words.dfy` | 32-bit words with wrap-around and bit operators, timestamps, bit vectors, subsequences |
| `pwm_snapshot.dfy`, `pwm_reader.dfy`, `pwm_capture.dfy`, `pwm_system.dfy` | the shared PWM statistics and ring: writer, lock-free reader, every interleaving of word accesses, and both together |
| `pwm_offline.dfy` | the offline analysis of raw edges, its agreement with the streaming statistics, and the fault evidence |
| `stimulus.dfy`, `stimulus_proofs.dfy` | the PRU1 ABZ and Hall scheduler: its runs, and what each command means for them |
| `ssi_link.dfy` | SSI emulator and master |
| `event_ring.dfy`, `scenario_engine.dfy` | the ordered circular queue and the scenario engine |
| `axi_core.dfy`, `axi_events.dfy`, `axi_pipeline.dfy` | the path from `schedule_dio` through AXI4-Lite, FIFO, dispatcher and scheduler to the outputs |
| `dac_stream.dfy` | the serialiser for two AD3542R converters |
| `pwm_link.dfy`, `abz_link.dfy` | PWM generator with capture and monitor; ABZ emulator with decoder; each receiver also on arbitrary waveforms |
| `raw_capture.dfy` | the bounded raw edge capture and its command handler |
| `biss_crc.dfy`, `serial_emitter.dfy`, `serial_link.dfy` | BiSS CRC, frames, and the SSI/BiSS emitter |
| `plant.dfy` | inverter, Clarke, Park and sine table in Q16.16 |

How the sources appear:

- A C or Python object that updates its variables is a class whose methods take
  the same branches in the same order; a loop is a loop. Each method is proved
  equal to a specification function of its old state, and the theorems are about
  runs of that function.
- A Verilog module is a record of registers. The class method `Clock` mirrors the
  always block: it reads the registers before the edge and collects the
  non-blocking assignments. The specification gives each register's next value.
  Word-vector registers are bit sequences where bits matter. `sync_2ff` is an
  exact two-clock delay inside each receiver.
- Purely combinational modules are functions.
- Integers are unbounded, so every 32-bit wrap, truncation, signed division and
  saturation of the sources is written out.

Assumptions that the code depends on and the contracts state:

- Word accesses to shared memory are atomic and sequentially consistent. Snapshot
  theorems are for runs without CLEAR, which rewrites everything including the
  lock without taking it (`pwm_capture_core.c`, lines 107-118), and fewer than
  2^31 updates during one attempt.
- Scheduler theorems about wrapping time need passes less than 2^30 ticks apart,
  and no pass that misjudges an update overdue by 2^31 ticks. `RefinesExactly`
  shows that this is exact; only a HALL_STOP under a running ABZ output with a
  queued update leads there (`CleanStopsRefine`, `HallStopKeepsUpdate`).
- The SSI emulator sees a false falling edge just after reset (`sync_2ff.v`,
  lines 20-28; `ssi_encoder_emulator.v`, line 48) and is then in the middle of a
  frame. `Loopback` starts with both ends idle and settled; `ResetSettles` says
  when that is reached, and `Transaction`, `FirstStart` and `LateStartSettles`
  cover runs from the reset, with the exact condition. Widths are 2 to 65535, the
  range of the 16-bit bit counters.
- AXI delivery needs HIL enabled, while force-safe is off, on every clock on which
  an event is armed or at its arm pulse; `EnableDecides` shows that this is exact
  and what is lost otherwise. Reads by the host may return any value. Time order
  needs `OrderDecides`, also exact.
- The serial emitter uses tick 0 as "no edge yet": a falling edge inside a frame
  whose last rising edge was on tick 0 restarts it. `WholeExactly` and
  `TickZeroOnly` show that, besides real gaps, nothing else loses bits.
- The 64-bit timebase advances by one per clock and does not wrap during a run.
- The raw capture window runs until its limit; a run whose inputs stop changing
  ends inside the window.

## Model

| member | source | states |
|---|---|---|
| PwmCapture.Capture.constructor | boards/beaglebone_black/firmware/common/pwm_capture_core.c:68-85 | initialising a cleared struct starts a run with no updates, an even lock, an empty ring and the reset statistics |
| PwmCapture.Capture.BeginUpdate | boards/beaglebone_black/firmware/common/pwm_capture_core.c:3-6 | an update opens by raising the lock from even to odd, before anything else changes |
| PwmCapture.Capture.EndUpdate | boards/beaglebone_black/firmware/common/pwm_capture_core.c:8-11 | an update closes by raising the lock again; only one that brackets its writes and, for an edge, announced it before touching the ring joins the run |
| PwmCapture.Capture.Start | boards/beaglebone_black/firmware/common/pwm_capture_core.c:87-98 | exactly one more update on the run: running, inputs and time are set, every other statistic stays and no record is pushed |
| PwmCapture.Capture.Stop | boards/beaglebone_black/firmware/common/pwm_capture_core.c:100-105 | exactly one more update on the run, which clears running only |
| PwmCapture.Capture.SetMinDeadtime | boards/beaglebone_black/firmware/common/pwm_capture_core.c:120-127 | exactly one more update on the run, which changes the threshold only |
| PwmCapture.Capture.PushEdgeRecord | boards/beaglebone_black/firmware/common/pwm_capture_core.c:20-40 | the record goes to the slot `ring_head` names, head and count move on, no other slot is written |
| PwmCapture.Capture.RecordDeadtime | boards/beaglebone_black/firmware/common/pwm_capture_core.c:42-66 | one dead time updates its own direction, count, valid flag, and with a threshold the violation evidence of that pair only |
| PwmCapture.Capture.UpdateChannel | boards/beaglebone_black/firmware/common/pwm_capture_core.c:159-186 | word by word, one channel's rise or fall has the effect the statistics specification gives it and touches no other channel |
| PwmCapture.Capture.UpdatePair | boards/beaglebone_black/firmware/common/pwm_capture_core.c:188-231 | likewise for one pair: dead times of both directions, overlap and faults |
| PwmCapture.Capture.Process | boards/beaglebone_black/firmware/common/pwm_capture_core.c:129-235 | an edge extends the run by exactly one update, whose net effect on the summary is the specified statistics step and which appends exactly its record to the history; without a change or while stopped the run stays as it is |
| PwmShared.LockCounts | boards/beaglebone_black/firmware/common/pwm_capture_core.c:3-11 | at every instant of every run the lock is twice the finished updates, plus one inside an update, modulo 2^32 |
| PwmShared.RingAtBoundary | boards/beaglebone_black/firmware/common/pwm_capture_core.c:20-40 | between updates head, count, `event_seq` and the newest 128 slots are those of the history of all pushed records |
| PwmShared.EventSeqCounts | boards/beaglebone_black/firmware/common/pwm_capture_core.c:153-157 | even in the middle of an update `event_seq` counts the announced edges: it is raised before the record is written |
| PwmShared.RecordStays | boards/beaglebone_black/firmware/common/pwm_capture_core.c:157-233 | a finished record stays whole in its slot until 128 newer edges have been announced, at every instant |
| PwmShared.LockFreezes | boards/beaglebone_black/host/hil_pwm_shared.py:165-178 | an even lock reading the same twice, fewer than 2^31 updates apart, means no write happened in between |
| PwmShared.WindowIntact | boards/beaglebone_black/host/hil_pwm_shared.py:209-216 | if `event_seq` advanced by no more than 128 - emit, each of the emit newest frozen records could be read intact all along |
| PwmReader.Window.Read32 | boards/beaglebone_black/host/hil_pwm_shared.py:95-96 | one word read sees memory at one instant of the writer's run, while the writer may have moved arbitrarily far since the read before |
| PwmReader.CopyRingWindow | boards/beaglebone_black/host/hil_pwm_shared.py:128-151 | the one or two slices fill exactly the wrapped window of slots and leave the summary alone |
| PwmReader.SummaryIsOneState | boards/beaglebone_black/host/hil_pwm_shared.py:166-183 | words copied at different instants between two equal even lock readings are all words of one published state |
| PwmReader.CopySummary | boards/beaglebone_black/host/hil_pwm_shared.py:166-183 | it passes exactly if no update was open at the first lock reading and the writer had not moved by the last one; a summary that passes is, field for field, the state published at one update boundary |
| PwmReader.WindowIsHistory | boards/beaglebone_black/host/hil_pwm_shared.py:185-216 | a window that passes the re-check holds the last emit records of the frozen history, in order and untorn |
| PwmReader.Attempt | boards/beaglebone_black/host/hil_pwm_shared.py:166-220 | what one attempt answers, exactly: it repeats if and only if the lock was open or moved or more edges were announced than the ring has room for beside those asked for; it raises if and only if all 128 are asked for while running; otherwise it returns the published state with its ring window, for every interleaving |
| PwmReader.ReadConsistentSnapshot | boards/beaglebone_black/host/hil_pwm_shared.py:154-232 | over all retries: bad arguments are refused exactly when the code refuses them, the first attempt that does not fail decides, Unstable means that every one of the retries failed for its reason, and whatever is returned is one published state and its newest records in order; with an idle writer the answer is never Unstable |
| PwmReader.IdleAnswers | boards/beaglebone_black/host/hil_pwm_shared.py:154-220 | a writer between updates that makes no step lets the first attempt answer: the full-ring refusal or the snapshot of that boundary |
| PwmSystem.Perform | boards/beaglebone_black/firmware/common/pwm_capture_core.c:68-235 | any sequence of calls after initialisation leaves a run whose boundaries are exactly the states after the calls' prefixes, in order |
| PwmSystem.BoundaryIsPrefix | boards/beaglebone_black/firmware/common/pwm_capture_core.c:87-235 | each update boundary shows the statistics and the history after some prefix of the calls |
| PwmSystem.ReadDuring | boards/beaglebone_black/host/hil_pwm_shared.py:154-232 | writer and reader together: for every call sequence and every interleaving, a returned snapshot shows the statistics and the newest records of some prefix of the calls; after the last call it shows all of them, unless a full ring is asked for while running |
| RawAnalysis.RawToLogical | boards/beaglebone_black/host/hil_raw_shared.py:70-75 | the loop over masks computes the six logical bits of the raw word, and no others |
| RawAnalysis.AnalyzeRawCapture | boards/beaglebone_black/host/hil_raw_shared.py:237-335 | the loops over records, channels and pairs compute the fold of one specified step per edge |
| StreamVersusOffline.InitAndStart | boards/beaglebone_black/firmware/common/pwm_capture_core.c:68-98 | initialising and starting leaves the state the agreement theorems start from |
| StreamVersusOffline.ChannelsAgree | boards/beaglebone_black/host/hil_raw_shared.py:272-296 | at every point of every edge trace live period, high and low are the last elements of the offline lists, valid exactly when non-empty, and edge counts agree modulo 2^32 |
| StreamVersusOffline.PairsAgree | boards/beaglebone_black/host/hil_raw_shared.py:298-333 | live dead-time words are the last of the dead times recorded live, counts and overlap counts agree modulo 2^32 |
| StreamVersusOffline.DeadtimesAgree | boards/beaglebone_black/host/hil_raw_shared.py:298-328 | offline dead times are a subsequence of the live ones, and equal if and only if every turn-on of one side follows a turn-off of the other since its previous turn-on |
| FaultEvidence.EvidenceExact | boards/beaglebone_black/firmware/common/pwm_capture_core.c:56-65 | for every edge trace and minimum: the violation count is the number of recorded dead times below it modulo 2^32, and the violation and overlap latches and fault bits of a pair are up exactly if there was one |
| FaultEvidence.LastEdge | boards/beaglebone_black/firmware/common/pwm_capture_core.c:143-157 | the summary shows the last edge: its time, the inputs after it and exactly the inputs that changed |
| Stimulus.Firmware.HandleRequest | boards/beaglebone_black/firmware/pru1_b2/main.c:163-468 | every command with every refusal has the effect of the specification `Handle` at 32-bit ticks |
| Stimulus.Firmware.LoopPass | boards/beaglebone_black/firmware/pru1_b2/main.c:541-735 | one pass of the polling loop is one step of the specification: armed start, update, transition, or the waiting requests |
| Stimulus.Firmware.StartArmed | boards/beaglebone_black/firmware/pru1_b2/main.c:544-567 | an armed start sets the outputs from the initial phase, counts lateness and sets the first deadline |
| Stimulus.Firmware.TakeUpdate | boards/beaglebone_black/firmware/pru1_b2/main.c:570-586 | a queued update changes period and direction and restarts the deadline from now |
| Stimulus.Firmware.MoveAbz | boards/beaglebone_black/firmware/pru1_b2/main.c:588-622 | an ABZ transition moves phase, index and pins and keeps or resynchronises the deadline |
| Stimulus.Firmware.MoveHall | boards/beaglebone_black/firmware/pru1_b2/main.c:626-646 | a Hall transition moves the step and pins and keeps or resynchronises the deadline |
| Stimulus.Firmware.StartPending | boards/beaglebone_black/firmware/pru1_b2/main.c:700-732 | after the reply a pending ABZ or Hall start takes effect at a fresh tick |
| StimulusRuns.ReachableShape | boards/beaglebone_black/firmware/pru1_b2/main.c:233-447 | in every reachable state at most one of running, armed and start-pending holds, outputs are low unless running and otherwise follow phase, index or Hall step, and every stored period is in 100..2^31-1 |
| StimulusRuns.OneLineFlips | boards/beaglebone_black/firmware/pru1_b2/main.c:95-161 | each ABZ transition flips exactly one of A and B with Z following the index, each Hall transition exactly one line and never to 000 or 111, and a step back undoes either |
| StimulusRuns.WrappingRefines | boards/beaglebone_black/firmware/pru1_b2/main.c:61-70 | with passes less than 2^30 ticks apart the 32-bit scheduler takes the same start, update and transition steps and gives the same replies at the same passes as one in unbounded time, as long as no pass misjudges an update half the tick range overdue |
| StimulusRuns.RefinesExactly | boards/beaglebone_black/firmware/pru1_b2/main.c:541-647 | the two agree at every pass of a run if and only if no pass misjudges an update: a running ABZ output meets one overdue by at least 2^31 ticks whose wrapped age reads as negative or as less than a period |
| StimulusRuns.DecideExactly | boards/beaglebone_black/firmware/pru1_b2/main.c:61-64 | at any loop head both clocks decide alike if and only if the ABZ output is not facing an overdue update whose wrapped age reads as negative |
| StimulusRuns.StepExactly | boards/beaglebone_black/firmware/pru1_b2/main.c:541-735 | one pass has the same effect and replies with either clock if and only if it does not misjudge an update |
| StimulusRuns.CleanStopsRefine | boards/beaglebone_black/firmware/pru1_b2/main.c:438-447 | a HALL_STOP while a queued update's start is still armed, or while none is queued, breaks nothing: runs with only such stops agree at every pass |
| StimulusRuns.HandleAgrees | boards/beaglebone_black/firmware/pru1_b2/main.c:303-363 | each command, at any moment, is answered alike with either clock, ARM and SCHEDULE with their wrapping comparisons included |
| StimulusRuns.UpdateAfterStart | boards/beaglebone_black/firmware/pru1_b2/main.c:544-585 | with either clock and in every run, a pass that applies an update comes after the armed start taken with that same update queued, which has waited since with nothing armed; with clean stops it was due after that start and the ABZ output has run all along |
| StimulusRuns.OwnedExactly | boards/beaglebone_black/firmware/pru1_b2/main.c:321-447 | one request leaves a queued update without a running ABZ output or armed start if and only if it is HALL_STOP with an update queued and nothing armed |
| StimulusRuns.OwnedRun | boards/beaglebone_black/firmware/pru1_b2/main.c:321-447 | over a run, every queued update has its output or an armed start at every pass and after every request if and only if no HALL_STOP meets one with nothing armed |
| StimulusRuns.HallStopKeepsUpdate | boards/beaglebone_black/firmware/pru1_b2/main.c:438-447 | how HALL_STOP under a running ABZ output leads to a misjudged update: the update survives into the next ABZ start |
| StimulusRuns.SessionOrigins | boards/beaglebone_black/firmware/pru1_b2/main.c:700-732 | a start, armed or not and with or without a queued update, begins a session at that very tick with the configured phase; an applied update begins one with the new period and leaves the outputs where they were |
| StimulusRuns.NoDrift | boards/beaglebone_black/firmware/pru1_b2/main.c:588-646 | as long as no update has been applied the k-th transition never comes before start + k * T, and before start + (k + 1) * T while none was counted late; each late one is counted and resynchronises |
| StimulusRuns.FixedUntilDue | boards/beaglebone_black/firmware/pru1_b2/main.c:570-586 | the period is fixed until the queued update, if there is one, falls due, and none can be queued while running |
| StimulusRuns.RateAtTicks | boards/beaglebone_black/firmware/pru1_b2/main.c:588-646 | the rate holds for the transitions the 32-bit scheduler takes, whose counters and deadlines are the images of the unbounded ones |
| StimulusRuns.Rhythm | boards/beaglebone_black/firmware/pru1_b2/main.c:617-645 | the deadline after k transitions is at least start + (k + 1) * T, with equality while none was late; counters are the numbers of transitions modulo 2^32 |
| StimulusRuns.OutputsFollowSteps | boards/beaglebone_black/firmware/pru1_b2/main.c:595-638 | through any applied update, A/B are initial phase plus net steps modulo 4, the Hall step modulo 6, and the index position is the number of transitions modulo the index period |
| StimulusRuns.OutputsAtTicks | boards/beaglebone_black/firmware/pru1_b2/main.c:595-638 | the same of the 32-bit scheduler's own phase, index, step and pins |
| StimulusCommands.AnswersExactly | boards/beaglebone_black/firmware/pru1_b2/main.c:233-455 | each command answers Ok exactly under the stated condition on mode, arguments and how far ahead its moment lies; a refused one changes nothing |
| StimulusCommands.StopsEverything | boards/beaglebone_black/firmware/pru1_b2/main.c:233-240 | with either clock and from every state FORCE_SAFE and ABZ_STOP answer Ok and leave nothing running, armed, pending or queued, with all lines low; HALL_STOP stops what runs and leaves arming and update |
| StimulusCommands.InForce | boards/beaglebone_black/firmware/pru1_b2/main.c:233-447 | over every run, what an accepted command makes true in terms of its own fields holds until an accepted command or step ends it; after FORCE_SAFE or ABZ_STOP the lines stay low until a start or an arming is accepted |
| StimulusCommands.StartUses | boards/beaglebone_black/firmware/pru1_b2/main.c:544-562 | an immediate or armed ABZ start uses exactly the configured period, direction, index and phase, with the lines they call for and the first transition one period later |
| StimulusCommands.HallStartUses | boards/beaglebone_black/firmware/pru1_b2/main.c:719-731 | likewise for Hall |
| StimulusCommands.UpdateUses | boards/beaglebone_black/firmware/pru1_b2/main.c:569-586 | an applied update changes the period, the direction, both or neither, as scheduled, and no pin |
| StimulusCommands.StartsWhenDue | boards/beaglebone_black/firmware/pru1_b2/main.c:544-562 | an armed start is taken on the first pass at or after its moment |
| StimulusCommands.ActsWhenDue | boards/beaglebone_black/firmware/pru1_b2/main.c:569-640 | a running output applies a due update, else makes a due transition, else serves requests, each exactly when that is due |
| StimulusCommands.LateSchedules | boards/beaglebone_black/firmware/pru1_b2/main.c:544-586 | a start or update is counted late exactly if it comes a whole period late or more |
| StimulusCommands.PinsShow | boards/beaglebone_black/firmware/pru1_b2/main.c:595-638 | in a running session A and B are in quadrature by the net steps, Z is high for the first width of every period transitions, and the Hall lines are three-of-six codes two steps apart |
| SsiEmulator.Emulator.Clock | rtl/generator/ssi_encoder_emulator.v:38-98 | each clock of the always block is one step of the register specification |
| SsiMaster.Master.Clock | rtl/capture/ssi_encoder_master_capture.v:32-81 | likewise for the master |
| SsiLoopback.InvStep | rtl/generator/ssi_encoder_emulator.v:38-98 | what holds of both ends and the synchronisers between them, from the reset on and also while the emulator is in the middle of a frame, survives every clock, for every width, half period of at least 6, gap not below it, frame and fault mask |
| SsiLoopback.BusyFor | rtl/capture/ssi_encoder_master_capture.v:32-81 | an accepted start keeps the master busy for exactly two half periods per bit, then one done pulse |
| SsiLoopback.Transaction | rtl/capture/ssi_encoder_master_capture.v:32-81 | every transaction of every run, from the reset or from idle, ends in time with what the emulator had left over at the first falling edge, then the frame it selected; nothing is left over exactly if it was idle at that edge |
| SsiLoopback.Loopback | rtl/capture/ssi_encoder_master_capture.v:32-81 | in every run from idle, over any number of transactions, the word held at done is the frame the emulator selected for that transaction, at its first falling edge |
| SsiLoopback.ReadsTheFrame | rtl/generator/ssi_encoder_emulator.v:42-44 | in terms of the inputs alone: a settled start ends with the frame driven when its first falling edge arrives, with the masked bits flipped exactly if the fault is enabled then |
| SsiLoopback.EmulatorDone | rtl/generator/ssi_encoder_emulator.v:90-95 | on a settled link the emulator's own done pulse comes three clocks after the master's and at no other time |
| SsiLoopback.ResetStep | rtl/common/sync_2ff.v:20-28 | after reset the emulator sees a falling edge no master made and selects a frame |
| SsiLoopback.ResetSettles | rtl/generator/ssi_encoder_emulator.v:46-77 | left alone after the reset under a constant gap, both ends are idle and settled on a clock if and only if it is later than gap + 3 |
| SsiLoopback.FirstStart | rtl/generator/ssi_encoder_emulator.v:66-88 | the first start after the reset or after a misread transaction is read right if and only if the gap elapses before its first falling edge arrives; otherwise the word begins with the rest of an older frame |
| SsiLoopback.FirstStartAt | rtl/generator/ssi_encoder_emulator.v:66-88 | with a constant gap: if and only if clocks waited plus half period exceed the gap |
| SsiLoopback.LateStartSettles | rtl/generator/ssi_encoder_emulator.v:66-98 | after one late enough start every transaction of the run is read right |
| EventQueue.HilEventQueue.Clock | rtl/scenario/hil_event_queue.v:72-132 | memories, pointers, count and latches after a clock with push, pop and flush at once |
| EventRing.Refines | rtl/scenario/hil_event_queue.v:72-131 | for every depth the circular memory refines a sorted sequence: pop takes its head, an accepted push its end, and a push is taken exactly when there is room and order |
| EventQueue.RefusalLatched | rtl/scenario/hil_event_queue.v:85-101 | a push that is not taken raises the overflow or the order latch |
| ScenarioEngine.DioScenarioEngine.Clock | rtl/scenario/dio_scenario_engine.v:45-106 | due test, masked apply and evidence registers of one clock |
| ScenarioEngine.QueueOrdered | rtl/scenario/dio_scenario_engine.v:45-75 | in every run of pushes, clears and FORCE_SAFE the queue stays a nondecreasing sequence of timestamps |
| ScenarioEngine.Conserved | rtl/scenario/dio_scenario_engine.v:45-104 | accepted events are, in order, those applied or flushed followed by those still queued, and none is applied early |
| ScenarioEngine.AppliedInTime | rtl/scenario/dio_scenario_engine.v:92-104 | an unflushed event with i ahead is applied no earlier than its timestamp and no later than max(timestamp, now) + i, with late_ticks the exact difference |
| ScenarioEngine.EnqueuedInTime | rtl/scenario/dio_scenario_engine.v:45-104 | from its enqueue clock, unless flushed by then, the bound is max(timestamp, enqueue time + 1) plus the events that are ahead of it once it is visible |
| ScenarioEngine.OutputBit | rtl/scenario/dio_scenario_engine.v:92-104 | over every run, bit by bit: an output bit is that of the last event applied with it in its mask, or the safe value's if a force-safe clock came later, and otherwise what it was |
| ScenarioEngine.EvidenceOfLast | rtl/scenario/dio_scenario_engine.v:87-104 | the evidence registers belong to the last event applied, and the pulse is up exactly after the clock that applied it |
| ScenarioEngine.LatchesTell | rtl/scenario/dio_scenario_engine.v:89-103 | each of the late, overflow and order latches is up exactly if what it records has happened since the status was last cleared |
| UioTransport.ZynqUioTransport.ScheduleDio | host/hil/transports/uio.py:240-249 | refused, without a write, if and only if FULL is set in the status word it read; otherwise exactly the six register writes in order |
| UioTransport.ZynqUioTransport.StartAbz | host/hil/transports/uio.py:232-235 | writes back the control word it read with HIL and ABZ enabled and force-safe off |
| UioTransport.ZynqUioTransport.StopAbz | host/hil/transports/uio.py:237-238 | writes back the control word it read with ABZ disabled |
| UioTransport.ZynqUioTransport.ForceSafe | host/hil/transports/uio.py:165-171 | writes back the control word it read with force-safe set or cleared |
| UioTransport.ScheduleBlock | host/hil/transports/uio.py:244-249 | the six writes rebuild the 64-bit timestamp and the 16-bit fields exactly and push once |
| UioTransport.StrobedBytes | rtl/control/hil_axi_control_plane.v:157-168 | a bus write changes exactly the bytes whose strobe is set, and pushes exactly if it is to the push register with bit 0 set and strobed |
| UioTransport.ProgramPushes | host/hil/transports/uio.py:240-249 | for every sequence of calls the register program pushes the called events, in call order |
| UioTransport.Perform | host/hil/transports/uio.py:165-249 | for every sequence of transport commands and whatever is read, the methods write the program of their calls, which pushes exactly the events met with FULL clear, in order |
| UioTransport.EncoderCommands | host/hil/transports/uio.py:165-171 | starting and stopping the encoder change only their own switches, except that stopping latches an external force-safe input: it keeps the software bit if and only if that input is low or the bit was set |
| AxiControlPlane.ControlPlane.Clock | rtl/control/hil_axi_control_plane.v:195-306 | write channel, staging, push pulse and dispatcher of one clock |
| AxiControlPlane.ControlPlane.WriteChannel | rtl/control/hil_axi_control_plane.v:236-287 | address and data are held until both are there, then committed once |
| AxiHost.InvStep | rtl/control/hil_axi_control_plane.v:152-155 | for every master, also one that queues the next address or data while a response is untaken: what the channel holds is the write after the committed ones, and it is committed once and in order |
| AxiHost.PulsesFollowProgram | rtl/control/hil_axi_control_plane.v:236-287 | under every stall and overlap of the address, data and response channels the push port carries exactly the pushes of the committed writes |
| AxiHost.EventsInCallOrder | rtl/control/hil_axi_control_plane.v:236-287 | hence a prefix of the called events, in call order, and all of them once every response is taken |
| AxiEventFifo.EventFifo.Clock | rtl/control/hil_axi_event_fifo.v:67-119 | one clock of the ordered circular FIFO |
| DioEventScheduler.Scheduler.Clock | rtl/scenario/dio_event_scheduler.v:25-55 | one clock of the single armed event |
| AxiPipeline.DigitalCore.Clock | rtl/top/hil_axi_digital_core.v:79-115 | FIFO, dispatcher and scheduler wired together |
| AxiPipeline.WaitingStep | rtl/control/hil_axi_control_plane.v:289-304 | per clock the events on their way lose at most their first, which the scheduler applies, and gain at most the accepted one: nothing is armed twice or dropped |
| AxiPipeline.StageStep | rtl/control/hil_axi_control_plane.v:289-304 | without force-safe the dispatcher never stalls: the first waiting event gets one stage closer every clock |
| AxiPipeline.EnableDecides | rtl/top/hil_axi_digital_core.v:79-115 | without force-safe a clock keeps the events, but for the applied one, if and only if HIL is enabled or no event is armed or at its arm pulse; otherwise exactly that event is gone unapplied, and the dispatcher is wedged if and only if it was at its arm pulse |
| AxiPipeline.WedgedStays | rtl/control/hil_axi_control_plane.v:289-304 | a wedged dispatcher is freed by force-safe and by nothing else |
| AxiPipeline.Conserved | rtl/scenario/dio_event_scheduler.v:36-53 | accepted events are applied once each, in order and never early, or flushed by force-safe, or still waiting |
| AxiPipeline.AppliedInTime | rtl/scenario/dio_event_scheduler.v:36-53 | a waiting event is applied at most three clocks per event ahead after any time not before the timestamps up to its own |
| AxiPipeline.OrderDecides | rtl/control/hil_axi_event_fifo.v:67-69 | a clock keeps the waiting events in time order if and only if it does not accept an event due before an armed one that stays on with the FIFO empty |
| AxiPipeline.OrderedExactly | rtl/control/hil_axi_event_fifo.v:67-69 | over a run the events have always waited in time order if and only if every clock kept it |
| AxiPipeline.OwnDeadline | rtl/scenario/dio_event_scheduler.v:36-53 | while they wait in time order, each event meets its own max(timestamp, now) plus three clocks per event ahead |
| AxiPipeline.OutputBit | rtl/scenario/dio_event_scheduler.v:36-53 | over every run, HIL enabled or not: an output bit is that of the last event applied with it in its mask, or zero if a clock with force-safe on or HIL off came later |
| AxiPipeline.LatchesTell | rtl/control/hil_axi_event_fifo.v:71-122 | the FIFO's overflow and order latches are up exactly if an event was so refused since force-safe was last on |
| AxiPipeline.AnySwitchMakesSafe | rtl/top/hil_axi_digital_core.v:79-115 | software force-safe, the external input and a cleared HIL enable each put the outputs to zero and disarm on the next clock; force-safe also empties the FIFO |
| AxiPipeline.OrderCheckForgetsArmedEvent | rtl/control/hil_axi_event_fifo.v:67-69 | what breaks the time order: with the FIFO empty an event due before the armed one is accepted and waits behind it |
| AxiEndToEnd.Delivery | host/hil/transports/uio.py:240-249 | from the calls to the outputs, for every master, stall pattern and external force-safe input, as long as HIL is not switched off under an armed event |
| AxiEndToEnd.OrderedCalls | host/hil/transports/uio.py:240-249 | a host that schedules in time order always has its events waiting in time order |
| DacStream.QuadStream.Clock | rtl/dac/ad3542r_quad_stream.v:105-314 | one clock of the seven-state machine, every register |
| DacReceived.DevicesRead | rtl/dac/ad3542r_quad_stream.v:162-302 | for all inputs, the bits read on rising SCLK plus the unread rest of the current word are the three configuration words, the 0x2C instruction and the data words, on both lanes in lockstep |
| DacReceived.InitializedWhen | rtl/dac/ad3542r_quad_stream.v:151-216 | initialisation takes exactly the start-up delay and 102 clocks, whatever the inputs |
| DacReceived.AcceptedInOrder | rtl/dac/ad3542r_quad_stream.v:136-143 | with enable high and no FORCE_SAFE the data words are the accepted samples in acceptance order, each one or more times; at most two are still held |
| DacReceived.StretchedOwner | rtl/dac/ad3542r_quad_stream.v:283-302 | the same by position: which sample each data word shows, starting with the first, skipping none |
| DacReceived.BeginsAfterWait | rtl/dac/ad3542r_quad_stream.v:218-302 | an accepted sample begins after an exactly known wait of at most 80 clocks: one word time and the instruction |
| DacReceived.AcceptedExactly | rtl/dac/ad3542r_quad_stream.v:97-143 | in every run a sample is accepted on a clock exactly if it is valid, start-up is over, none is pending and FORCE_SAFE is low |
| DacReceived.PendingSince | rtl/dac/ad3542r_quad_stream.v:136-146 | a pending sample was accepted on some clock and has been pending since without FORCE_SAFE |
| DacReceived.AcceptedWithin | rtl/dac/ad3542r_quad_stream.v:136-302 | with enable high and no FORCE_SAFE a sample held valid after start-up is accepted within one word time and 17 clocks |
| DacReceived.DeviceBits | rtl/dac/ad3542r_quad_stream.v:74-95 | bit positions of everything each device reads: 56 bits of configuration and instruction, then per word channel 1 and 0 on lane A, 3 and 2 on lane B, most significant bit first |
| DacReceived.SwitchAndPulse | rtl/dac/ad3542r_quad_stream.v:99-103 | the analog switch is closed exactly while enable is high, FORCE_SAFE low and a sample has ever been pending; the update pulse marks exactly the words after the first |
| DacReceived.MutedSendsSafe | rtl/dac/ad3542r_quad_stream.v:276-302 | while FORCE_SAFE is high or enable low every word that begins is the safe code on all four channels and the analog switch is open |
| PwmGenerator.Generator.Clock | rtl/generator/pwm_complementary_generator.v:20-59 | counter and windows of one clock; the outputs are never both on |
| PwmGenerator.NeverBoth | rtl/generator/pwm_complementary_generator.v:41-57 | never both on from any state and for any parameters, so also when they change every clock |
| PwmGenerator.After | rtl/generator/pwm_complementary_generator.v:20-59 | in no state of any run, whatever the history of parameters, are both outputs on |
| PwmReceiver.Capture.Clock | rtl/capture/pwm_capture.v:44-100 | edge timestamps, saturating measurements and valid pulses of one clock |
| PwmMonitor.Monitor.Clock | rtl/capture/pwm_complementary_monitor.v:52-131 | dead-time measurement and latches of one clock |
| PwmLoopback.InvStep | rtl/capture/pwm_complementary_monitor.v:76-131 | positions in the period, both delay lines and all measurements survive every clock; the latch is set exactly by a measured dead time below the minimum |
| PwmLoopback.Measured | rtl/capture/pwm_capture.v:68-100 | for P >= 4, D < H, H + D < P the receivers hold period P, high H - D, low P - H + D and both dead times D from the first whole measurement on; shoot-through is never latched |
| PwmLoopback.NeverLatched | rtl/capture/pwm_complementary_monitor.v:104-130 | a minimum never above D never latches a violation |
| PwmLoopback.TooHighMinimumLatches | rtl/capture/pwm_complementary_monitor.v:104-130 | a minimum above D latches one at the next measurement, in either direction |
| PwmWaveforms.WindowsExact | rtl/generator/pwm_complementary_generator.v:20-59 | at any constant parameters the counter is the clock modulo the period and both outputs are on in exactly their windows |
| PwmWaveforms.OffAtOnce | rtl/generator/pwm_complementary_generator.v:32-35 | disabled, or with a period below 4, the generator is at its reset state one clock later |
| PwmWaveforms.ReceiverMeasures | rtl/capture/pwm_capture.v:60-104 | for any waveform and timestamps: period, high and low times are given exactly on the edges that end them, as the saturated time since the edge that began them |
| PwmWaveforms.MonitorExact | rtl/capture/pwm_complementary_monitor.v:70-134 | for any two waveforms: each dead time is given on the turn-on that ends it, and the two latches are up exactly if both lines were high together, or a dead time ended below its minimum, since the last clear |
| RawCapture.Firmware.RunCaptureWindow | boards/beaglebone_black/firmware/pru0_b1_raw/main.c:135-186 | the kernel writes the real changes of the samples into the ring, inside it, and returns exactly when the limit is reached, publishing header and count |
| RawCapture.Firmware.HandleRequest | boards/beaglebone_black/firmware/pru0_b1_raw/main.c:188-343 | every command with every refusal |
| RawCapture.Firmware.LoopPass | boards/beaglebone_black/firmware/pru0_b1_raw/main.c:389-456 | one pass: capture from a fresh baseline when a start is pending, otherwise the waiting requests |
| RawCapture.NeverDuringCapture | boards/beaglebone_black/firmware/pru0_b1_raw/main.c:188-343 | no request is handled while a capture runs |
| RawRuns.ChangesChain | boards/beaglebone_black/firmware/pru0_b1_raw/main.c:154-178 | the recorded changes form a chain of differing PWM inputs and miss nothing: the last one always shows the last sample |
| RawRuns.RecordsAreChanges | boards/beaglebone_black/firmware/pru0_b1_raw/main.c:389-456 | over every command sequence and waveform the limit stays in 1..1024 and equals the published one, and at every loop top the published records are a chain of real changes from initial_raw_inputs |
| RawRuns.StartUnlessCancelled | boards/beaglebone_black/firmware/pru0_b1_raw/main.c:235-324 | a drained START opens a window exactly when no STOP or FORCE_SAFE was drained after the last START |
| RawRuns.ConfigAnswers | boards/beaglebone_black/firmware/pru0_b1_raw/main.c:249-264 | a CONFIG is accepted exactly if its limit is in 1..1024 and nothing is pending or running, and then sets it |
| RawRuns.LimitSince | boards/beaglebone_black/firmware/pru0_b1_raw/main.c:249-264 | over every run the limit in force is that of the last accepted CONFIG, or 1024 |
| RawRuns.CommandAnswers | boards/beaglebone_black/firmware/pru0_b1_raw/main.c:235-324 | when START, CLEAR, STOP and FORCE_SAFE are answered Ok, and what they leave |
| RawRuns.WindowPublishes | boards/beaglebone_black/firmware/pru0_b1_raw/main.c:389-456 | a pending start opens the window on the next pass, which publishes exactly the first `limit` changes once there are that many |
| RawRuns.RawRecords | boards/beaglebone_black/host/hil_raw_shared.py:136-157 | refused exactly when validation refuses; otherwise lists every record with its change mask |
| RawRuns.NoEmptyChange | boards/beaglebone_black/host/hil_raw_shared.py:136-157 | no record of a chain has an empty change mask after the remapping |
| RawRuns.FrozenAgreesWithStreaming | boards/beaglebone_black/host/hil_raw_shared.py:237-335 | any frozen capture, analysed offline, agrees with a streaming capture of the same edges on every channel, on every pair's dead-time words and overlaps, and on the dead times themselves exactly when no turn-on is skipped |
| BissCrc.CrcIsRemainder | boards/beaglebone_black/firmware/pru1_b2_serial/main.c:96-113 | the shift-register loop computes the remainder of the message times x^6 modulo x^6 + x + 1, by division of polynomials |
| BissCrc.RemainderUnique | boards/beaglebone_black/B2_STIMULUS.md:109-110 | there is only one such remainder |
| BissCrc.Order63 | boards/beaglebone_black/B2_STIMULUS.md:109-110 | x has order 63 modulo the polynomial |
| BissCrc.AcceptsError | boards/beaglebone_black/host/hil_sensor.py:12-34 | a recomputing receiver accepts a word in error exactly when the error pattern is a multiple of the polynomial |
| BissCrc.ErrorsDetected | boards/beaglebone_black/host/hil_sensor.py:12-34 | it accepts what was sent and detects every single-bit error, every two-bit error and every burst of up to six bits in words of up to 63 bits |
| SerialFrame.Crc6Biss | boards/beaglebone_black/firmware/pru1_b2_serial/main.c:90-116 | the firmware's loops return the inverted remainder of position, ERR and WARN |
| SerialFrame.Crc6BissHost | boards/beaglebone_black/host/hil_sensor.py:12-34 | so do the host's, which refuse widths outside 1..32 and mask the position |
| SerialFrame.BuildFrame | boards/beaglebone_black/firmware/pru1_b2_serial/main.c:118-161 | the firmware's frame number spells ACK, START, CDS, effective position, ERR, WARN and CRC, or the bare value in SSI mode |
| SerialFrame.BuildBissFrame | boards/beaglebone_black/host/hil_sensor.py:37-53 | the host's frame number spells the same |
| SerialFrame.FramesEqual | boards/beaglebone_black/host/hil_sensor.py:37-53 | firmware and host frames are equal for all widths, values, masks and flags |
| SerialFrame.FrameBitIs | boards/beaglebone_black/firmware/pru1_b2_serial/main.c:163-167 | shifting the frame number yields the bits most significant first |
| SerialFrame.ParseFrame | boards/beaglebone_black/host/hil_sensor.py:37-53 | a receiver recovers position, status and a matching CRC from the frame's bits |
| SerialFrame.ParseRejects | boards/beaglebone_black/host/hil_sensor.py:37-53 | and rejects them after any one- or two-bit error or burst of up to six bits in position, status or CRC |
| SerialEmitter.Firmware.HandleRequest | boards/beaglebone_black/firmware/pru1_b2_serial/main.c:183-327 | every command with every refusal |
| SerialEmitter.Firmware.FallingEdge | boards/beaglebone_black/firmware/pru1_b2_serial/main.c:409-438 | a falling edge loads a frame or presents the next bit |
| SerialEmitter.Firmware.ClockStep | boards/beaglebone_black/firmware/pru1_b2_serial/main.c:404-457 | falling edge, completion on the rising edge, edge timing and timeout, in that order |
| SerialEmitter.Firmware.LoopPass | boards/beaglebone_black/firmware/pru1_b2_serial/main.c:393-572 | one pass: the clock edge, then the waiting requests with their start baselines |
| SerialSession.SessionBegins | boards/beaglebone_black/firmware/pru1_b2_serial/main.c:549-569 | an accepted START begins a session with DATA high |
| SerialSession.SpellingStep | boards/beaglebone_black/firmware/pru1_b2_serial/main.c:404-457 | what the emitter shows and what the master has heard agree after every pass, and no command but STOP and FORCE_SAFE disturbs a session |
| SerialSession.FramesSpelled | boards/beaglebone_black/firmware/pru1_b2_serial/main.c:404-457 | for every clock waveform DATA at the rising edges of each completed frame spells the frame, exactly all its bits, and frame_count rises once per frame |
| SerialSession.WholeExactly | boards/beaglebone_black/firmware/pru1_b2_serial/main.c:404-457 | for every pass of every waveform: what was read stays whole frames and one unfinished one if and only if the pass does not give up a frame, by timeout or by taking the time since the last edge for a gap |
| SerialSession.WholeRun | boards/beaglebone_black/firmware/pru1_b2_serial/main.c:404-457 | over a run, what was read has always been whole if and only if no pass gave up a frame |
| SerialSession.NothingLost | boards/beaglebone_black/firmware/pru1_b2_serial/main.c:404-457 | when no pass gives up a frame, all rising edges since the first falling one read the frame over and over, then a proper prefix |
| SerialSession.TickZeroOnly | boards/beaglebone_black/firmware/pru1_b2_serial/main.c:406-413 | with edges closer than the gap a frame is given up in exactly one case: a falling edge inside it after a rising edge on tick 0 |
| SerialSession.PunctualIsPatient | boards/beaglebone_black/firmware/pru1_b2_serial/main.c:404-457 | so edges closer than the gap and no such falling edge are all NothingLost needs |
| SerialSession.TickZeroRestarts | boards/beaglebone_black/firmware/pru1_b2_serial/main.c:406-413 | in that case the frame starts again and what was heard of it is lost |
| SerialSession.MasterReads | boards/beaglebone_black/firmware/pru1_b2_serial/main.c:404-457 | in BiSS mode every completed frame parses to the effective position and status |
| SerialCommands.AnswersExactly | boards/beaglebone_black/firmware/pru1_b2_serial/main.c:221-330 | each command answers Ok exactly under the stated condition; a refused one changes nothing |
| SerialCommands.InForce | boards/beaglebone_black/firmware/pru1_b2_serial/main.c:238-315 | over every run, what an accepted command makes true in terms of its own fields holds until an accepted command ends it; after FORCE_SAFE or STOP the emitter is disabled with DATA low until a START is accepted, however the clock moves |
| SerialCommands.StartUses | boards/beaglebone_black/firmware/pru1_b2_serial/main.c:549-569 | a START begins a session with exactly the configured mode, width and gap and the loaded value, mask and flags |
| SerialCommands.ShortestHalf | boards/beaglebone_black/firmware/pru1_b2_serial/main.c:404-457 | over a session `min_half_period` is the shortest time between two successive edges, as long as no two share a tick |
| AbzEmulator.Emulator.Clock | rtl/generator/abz_encoder_emulator.v:49-80 | one clock of the quadrature generator |
| AbzEmulator.Emulator.NextPhase | rtl/generator/abz_encoder_emulator.v:25-47 | the combinational next phase |
| AbzEmulator.TurnsBack | rtl/generator/abz_encoder_emulator.v:25-47 | forward and backward undo each other and each changes exactly one line |
| AbzDecoder.Decoder.Clock | rtl/capture/abz_encoder_capture.v:41-86 | one clock of the x4 decoder with its transition table |
| AbzLoopback.InvStep | rtl/capture/abz_encoder_capture.v:34-86 | the decoder lags the emulator by exactly three clocks, in position, direction, steps and index |
| AbzLoopback.Loopback | rtl/capture/abz_encoder_capture.v:34-86 | for every enable, direction and period history the decoder's position three clocks later is the emulator's modulo 2^32, with one step pulse per step, one index pulse per revolution and no illegal transition ever |
| AbzLoopback.PositionIsNet | rtl/generator/abz_encoder_emulator.v:62-68 | the position is forward minus backward steps modulo 2^32 |
| AbzLoopback.SteadyRate | rtl/generator/abz_encoder_emulator.v:29-85 | enabled at a constant period the emulator has made exactly n / max(1, period) steps after n clocks |
| AbzLoopback.DisabledHolds | rtl/generator/abz_encoder_emulator.v:60-62 | disabled it keeps lines, position and revolution, with Z low and the step timer at zero |
| AbzLoopback.DecoderExact | rtl/capture/abz_encoder_capture.v:37-89 | for any lines: the illegal latch is up exactly if both lines jumped together since the last clear, step and index pulses follow exactly the changes of one line and rises of Z, and the edge time is that of the last change |
| FixedPoint.QmulFloor | rtl/plant/clarke_abc_q16.v:12-20 | the Q16.16 product is the exact product rounded down, without overflow when one factor is at most one |
| Inverter.LegExact | rtl/plant/averaged_inverter_abc_q16.v:25-63 | a leg is the bus voltage times the clamped duty minus one half, rounded down, within 2^30 |
| Inverter.NoOverflow | rtl/plant/averaged_inverter_abc_q16.v:65-76 | for all bus voltages and duties nothing overflows, line voltages are the legs' differences exactly and the phase voltages sum to -2..2 |
| Clarke.InverseBalanced | rtl/plant/inverse_clarke_q16.v:13-32 | for components up to 2^29 the three outputs sum to the low bit of alpha: 0 or 1 |
| Clarke.ForwardUndoesInverse | rtl/plant/clarke_abc_q16.v:12-30 | Clarke after inverse Clarke returns alpha exactly and beta within |beta| / 2^18 + 3 |
| Clarke.NearestRoots | rtl/plant/clarke_abc_q16.v:12-30 | the two constants are the Q16.16 numbers nearest to 1 / sqrt(3) and sqrt(3) / 2 |
| SinCos.LookupNearOne | rtl/plant/sincos_lut_q16.v:14-100 | for every phase sine squared plus cosine squared is within 72974 / 2^32 of one |
| SinCos.WorstIsMet | rtl/plant/sincos_lut_q16.v:23-91 | and the table meets that bound |
| SinCos.QuarterTurn | rtl/plant/sincos_lut_q16.v:92-100 | a quarter turn rotates the pair exactly, in every quadrant and across the wrap |
| SinCos.TurnStarts | rtl/plant/sincos_lut_q16.v:23-98 | at the start of the turn sine is 0 and cosine 2^16 |
| SinCos.StepTurns | rtl/plant/sincos_lut_q16.v:14-100 | from every phase one table step on turns the pair counter-clockwise by a 63rd of a quarter turn within stated bounds, and not at all across the seam between quadrants |
| SinCos.FirstQuadrant | rtl/plant/sincos_lut_q16.v:14-100 | in the first quadrant sine never falls, cosine never rises and neither is negative |
| Park.RotateBounds | rtl/plant/park_alphabeta_q16.v:21-22 | the Park transform does not overflow up to 2^29 and is off by the rounding of its products |
| Park.UnrotateUndoesRotate | rtl/plant/inverse_park_q16.v:21-22 | inverse Park after Park returns each component within 72974 / 2^32 of its magnitude plus five, for every phase |

## Left out

- RPMsg, remoteproc, `/dev/mem`, UIO mapping, subprocesses and command lines: messages and register accesses are abstract steps.
- `hil_pwm_capture_clear`: it takes no lock; runs with a CLEAR in them are outside the snapshot theorems.
- Response arguments of the PRU firmwares, R30 bits outside the outputs, `config_flags` of the serial emitter, and the constant header fields of the raw capture struct.
- The serial emitter's SPI mode, chip select and MOSI (`pru1_b2_serial/main.c`, lines 458-511): in the model the clock loop does nothing in that mode.
- Floating-point summaries, microsecond and nanosecond conversions, and the offline violation counts, which compare floating-point nanoseconds.
- `final_raw_inputs` after a RAW_STATUS query, which overwrites it with a sample of the control loop: nothing is claimed about it.
- The AXI read path, the minimum-dead-time and ABZ step registers, PWM fault registers and `configure_abz`.
- The value of the status word `schedule_dio` reads: it may be anything, so that it may refuse at any time.
- The `enable` input of the SSI emulator, which is held high.
- The default branch of the DAC state machine, which no reachable state takes, and the 16-bit event counters, whose depths are unbounded here.
- Metastability of the synchronisers.
- The remaining plant models (motor, mechanics, closed loop), SPI encoder emulator, trigger engine, fault injector, CANopen, EtherCAT and microcontroller stimulus boards.
- SerialFrame.ParseFrame: the receiver is the one the frame layout calls for; the repository contains no decoder.
