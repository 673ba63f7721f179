# Verified model of the Adreno ringbuffer, preemption, firmware, crash-dump and touch code

This project models the parts of the Qualcomm graphics and fingerprint drivers in which several things have to agree: two
threads, a timer and a command processor (CP) that share one preemption protocol; streams of PM4 packets and the buffers
they are built in; firmware containers and the code that walks them; a crash-dump script and the readers of what it
captures; a touch pipeline; and two smaller pieces of state that are rolled back or wrapped around.

Verify with `dafny verify dfyconfig.toml` (Dafny 4.11).

## How it is laid out

* **Preemption.** `PreemptModel` is a step machine: every atomic access to the preemption state, every section under a
  ring's lock and every register access is a step of its own, and steps of the mutex thread, the interrupt thread, the
  timer and the CP interleave freely. `PreemptInv` and `PreemptSteps` are its invariant and the proof that every step keeps
  it; `PreemptTables` does the same for page tables; `PreemptTheorems` has the results over whole runs, `PreemptGaps` the
  exact condition under which they hold, `PreemptWitness` runs from start-up that show what happens outside it, and
  `PreemptDriver` the driver's functions as imperative code that refines the machine.
* **Streams.** `Parity` and `Pm4` are packet headers and their parser, `CpMachine` an interpreter for packets, `RingSpace`
  the circular buffer, `CommandWriting` filling a buffer in place. `A5xxPackets`, `A5xxSubmit` and `A5xxTables` say what
  the a5xx streams are and mean, `A5xxRingbuffer` builds them, and `A5xxJobs` follows runs of submissions by several contexts;
  `A3xxPackets`, `A3xxSubmit` and `A3xxRingbuffer` do the same
  for a3xx. `A5xxTables` also shows that the dword streams are the blocks of packets the preemption protocol works on.
* **Firmware.** `Firmware` (block headers and the register file walk), `GpmuLoader` (the chunked load stream) and
  `RegSequence` (the register sequence interpreter).
* **Crash dump.** `CrashDump`: compiler, dumper and readers.
* **Touch.** `TouchModel` (what a run does) and `QbtHandler` (the driver's functions).
* **Rollback and arithmetic.** `SecureBuffers` and `CounterDelta`.

Functions that update state in place are methods of classes here, or methods that fill arrays; each is proved equal to a
function of the old state, and the theorems are about that function.

## What does not hold, and exactly when it does

* The write pointer register is safe in every *orderly* run. `PreemptModel.Orderly` names three orderings that no lock or
  state check enforces: a submission's check of the state and its register write are not atomic against a trigger that
  never takes that ring's lock, and TRIGGERED is stored before the doorbell is written. `OrderlyExactly` shows that these
  three are needed and enough, and `PreemptWitness` that each can come up.
* A submission in the window after the trigger's scan is not noticed until the next trigger (`LostWakeup`, `Repair`). State
  NONE means an up-to-date register exactly if, since the register was last written, no submission published packets to the
  current ring and left it alone (`LagExactly`).
* The result of a context switch is ignored: the context becomes active also when nothing was emitted, which is so exactly
  without room or with a fault (`DrawctxtSwitch`, `FaultedSwitch`); and a switch to the default pagetable installs nothing
  (`SwitchIsBlock`). Over any run of submissions every context has its own pagetable in force exactly if each change of
  pagetable was emitted and was not to the default one (`AlwaysOwn`, `SubmitAll`).
* A malformed GPMU file is reported as success unless its block header is at fault, because the return value has been
  overwritten by then (`LoadGpmuFirmware`, `SilentFile`).
* The register file walk can release the file while lm_sequence points into it (`DanglingExactly`, `DanglingFile`).
* Register writes of a sequence lose the upper halves of 64-bit registers and values: what is done is what is asked for
  exactly if no upper half is in use (`WideWrites`, `WideSequence`).
* The shader reader finds its own window on all hardware for bank 0 and for no other bank (`BankStride`), although all banks
  are in the dump (`ShaderRoundTrip`).
* The INTR2 line can stay high with no finger down (`StuckLine`). A run ends with the line right exactly if it is not stuck,
  and the line was right already if the run has no change to bring it up to date (`LineExact`). A run is stuck if it leaves no
  finger down and changes some slot before it comes to a higher one that is still down: two fingers lifted together, or an
  empty lower slot reported up again in the run that lifts the last finger.
* Moves can be reported without a down after the configuration changes (`MoveAfterEnable`); never, whatever the touches,
  exactly if every finger in the area whose moves the radius filter may let pass is recorded down (`MovesExactly`).
* A failed hibernation leaves the memory of processes flagged (`HibernateOutcome`), and the flag can disagree with the real
  assignment exactly when an ignored call fails (`HibernateTruth`, `UntrueFlag`); restoring never makes it (`RestoreTruth`).

## Model

| member | source | states |
|---|---|---|
| `PreemptTheorems.RegisterSafety` | qcom/opensource/graphics-kernel/adreno_a5xx_preempt.c:18-300 | In every orderly run, of any length and with any number of rings, every CPU write of the write pointer register reaches the ring the CP runs; the register never points past what that ring was given, nor, outside a submission, past what is published; and cur_rb is swapped only once CONTEXT_SWITCH_CNTL reads 0 and the CP already runs next_rb |
| `PreemptTheorems.ReachableControl` | qcom/opensource/graphics-kernel/adreno_a5xx_preempt.c:18-317 | The whole invariant holds in every state that some orderly run from start-up reaches |
| `PreemptGaps.OrderlyExactly` | qcom/opensource/graphics-kernel/adreno_a5xx_preempt.c:168-300 | Which orderings the driver depends on, exactly: in every state an orderly run reaches, a step keeps to them if and only if no orderly continuation writes the register for a ring the CP does not run |
| `PreemptGaps.DisorderSlips` | qcom/opensource/graphics-kernel/adreno_a5xx_preempt.c:195-300 | Each of the three bad orderings (a switch completing inside a submission that has read NONE, the interrupt or the timer claiming a switch before its doorbell) can be continued to such a write, from every state of the invariant |
| `PreemptWitness.InterruptGapReached` | qcom/opensource/graphics-kernel/adreno_a5xx_preempt.c:241-263 | With the driver's four rings, an orderly run from start-up reaches the point between the mutex thread's store of TRIGGERED and its write of CONTEXT_SWITCH_CNTL, where the interrupt can claim the switch |
| `PreemptWitness.TimerGapReached` | qcom/opensource/graphics-kernel/adreno_a5xx_preempt.c:241-252 | ... and the same point in the interrupt thread, where the timer can |
| `PreemptWitness.WindowReached` | qcom/opensource/graphics-kernel/adreno_a5xx_ringbuffer.c:84-94 | A submission that has read NONE and not yet written the register can be overtaken by a switch to a ring of higher priority |
| `PreemptWitness.LostWakeup` | qcom/opensource/graphics-kernel/adreno_a5xx_preempt.c:172-200 | State NONE does not imply an up-to-date register: an orderly run ends with everything at rest and published work the CP was not told of |
| `PreemptTheorems.Repair` | qcom/opensource/graphics-kernel/adreno_a5xx_preempt.c:168-253 | From any reachable state NONE an uninterrupted trigger, step by step, either brings the register level with the current ring, or hands the CP the highest-priority ring with work, with its published write pointer and page table; if the register lagged, one of strictly higher priority |
| `PreemptTheorems.LagExactly` | qcom/opensource/graphics-kernel/adreno_a5xx_preempt.c:184-200 | In state NONE, between submissions, the register lags if and only if, since it was last written, a submission published packets to the current ring and left the register alone |
| `PreemptTheorems.SubmissionPublishes` | qcom/opensource/graphics-kernel/adreno_a5xx_ringbuffer.c:84-96 | In whatever state a submission takes its lock, and whatever the other thread, the timer and the CP do meanwhile: when it is through, everything its ring was given is published, and no other write pointer has moved |
| `PreemptTheorems.DirtyExactly` | qcom/opensource/graphics-kernel/adreno_a5xx_preempt.c:146-182 | What the exception in HighestPriority stands for: the rings published to since the state last became START |
| `PreemptTheorems.PageTableAgreement` | qcom/opensource/graphics-kernel/adreno_a5xx_ringbuffer.c:14-50 | The CP always walks the table its running ring last installed, and at every yield a ring's scratch slot holds the table that ring last installed, so the table a trigger hands over is the one the incoming ring was using |
| `PreemptTheorems.StoreOwnership` | qcom/opensource/graphics-kernel/adreno_a5xx_preempt.c:45-317 | Every unconditional store finds the state its writer left, no step leaves the state diagram, and while a switch is outstanding next_rb is set and differs from cur_rb |
| `PreemptTheorems.HighestPriority` | qcom/opensource/graphics-kernel/adreno_a5xx_preempt.c:146-166 | The ring a trigger settles on had work, and every ring of higher priority was empty or was published to since the trigger claimed START |
| `PreemptTheorems.OnlyHigherOvertakes` | qcom/opensource/graphics-kernel/adreno_a5xx_preempt.c:147-166 | Only a switch to a ring of strictly higher priority can be outstanding during a submission that has read NONE and not yet written the register |
| `PreemptTheorems.NoDeadlock` | qcom/opensource/graphics-kernel/adreno_a5xx_preempt.c:147-300 | A thread inside the protocol can always go on, or waits for a submission's lock whose holder can |
| `PreemptTheorems.AloneTriggers` | qcom/opensource/graphics-kernel/adreno_a5xx_preempt.c:168-253 | The fine-grained steps of an uninterrupted trigger come to one outcome, given in terms of the first busy ring |
| `PreemptTheorems.FirstBusy` | qcom/opensource/graphics-kernel/adreno_a5xx_preempt.c:146-166 | The lowest-numbered ring that is not empty, if any |
| `PreemptSteps.StepControl` | qcom/opensource/graphics-kernel/adreno_a5xx_preempt.c:18-317 | Every orderly step of every thread, the timer and the CP keeps the whole invariant of the protocol |
| `PreemptInv.InitControl` | qcom/opensource/graphics-kernel/adreno_a5xx_preempt.c:412-461 | The invariant holds after start-up |
| `PreemptTables.StepTables` | qcom/opensource/graphics-kernel/adreno_a5xx_preempt.c:206-230 | Every orderly step keeps scratch slots, smmu_info and the table in use in agreement with the rings' own streams |
| `PreemptTables.SwitchTables` | qcom/opensource/graphics-kernel/adreno_a5xx_preempt.c:206-230 | A switch of the CP installs the incoming ring's own table |
| `PreemptDriver.AdrenoDevice.MovePreemptState` | qcom/opensource/graphics-kernel/adreno.h:1709-1713 | Compare and exchange of the preemption state |
| `PreemptDriver.AdrenoDevice.UpdateWptr` | qcom/opensource/graphics-kernel/adreno_a5xx_preempt.c:18-43 | Brings the register up to the current ring's published pointer, and leaves it alone if it is there |
| `PreemptDriver.AdrenoDevice.NextRingbuffer` | qcom/opensource/graphics-kernel/adreno_a5xx_preempt.c:146-166 | Finds the lowest-numbered busy ring, or that there is none |
| `PreemptDriver.AdrenoDevice.ProgramSwitch` | qcom/opensource/graphics-kernel/adreno_a5xx_preempt.c:205-252 | Record, smmu_info, restore address, next_rb, state and doorbell for the chosen ring |
| `PreemptDriver.AdrenoDevice.PreemptionTrigger` | qcom/opensource/graphics-kernel/adreno_a5xx_preempt.c:168-253 | Refines the outcome that Repair speaks of |
| `PreemptDriver.AdrenoDevice.FinishSwitch` | qcom/opensource/graphics-kernel/adreno_a5xx_preempt.c:71-93 | The rings are swapped, the register brought up to date and the state cleared |
| `PreemptDriver.AdrenoDevice.PreemptCallback` | qcom/opensource/graphics-kernel/adreno_a5xx_preempt.c:255-300 | Refines the callback's outcome, which CallbackComes ties to the steps of the interrupt thread |
| `PreemptDriver.AdrenoDevice.PreemptionSchedule` | qcom/opensource/graphics-kernel/adreno_a5xx_preempt.c:302-317 | Refines the scheduler's outcome; faults exactly on a non-zero status in state COMPLETE |
| `PreemptDriver.AdrenoDevice.PreemptionWorker` | qcom/opensource/graphics-kernel/adreno_a5xx_preempt.c:96-144 | Completes a timed-out switch exactly if it has finished, else faults |
| `PreemptDriver.AdrenoDevice.PreemptionTimer` | qcom/opensource/graphics-kernel/adreno_ringbuffer.c:157-169 | Declares a fault, and queues the worker, exactly in state TRIGGERED |
| `PreemptDriver.AdrenoDevice.Submit` | qcom/opensource/graphics-kernel/adreno_a5xx_ringbuffer.c:84-96 | In every state publishes all the ring was given, writes it to the register exactly for the current ring in state NONE, and leaves the other rings and the protocol alone |
| `PreemptDriver.CallbackComes` | qcom/opensource/graphics-kernel/adreno_a5xx_preempt.c:255-300 | The interrupt thread's steps, undisturbed, come to the callback's outcome |
| `PreemptDriver.ScheduleComes` | qcom/opensource/graphics-kernel/adreno_a5xx_preempt.c:302-317 | The mutex thread's steps, undisturbed, come to the scheduler's outcome |
| `PreemptDriver.WorkerComes` | qcom/opensource/graphics-kernel/adreno_a5xx_preempt.c:129-144 | ... and to the fault worker's |
| `PreemptDriver.SubmitComes` | qcom/opensource/graphics-kernel/adreno_a5xx_ringbuffer.c:84-96 | ... and to a submission's |
| `Parity.ParityIsOdd` | qcom/opensource/graphics-kernel/adreno_pm4types.h:192-197 | The nibble fold and the table 0x9669 give every 32-bit word its odd parity bit |
| `Parity.TableValue` | qcom/opensource/graphics-kernel/adreno_pm4types.h:192-197 | The sixteen bits of the table are those of 0x9669 |
| `Pm4.HeaderDecodes` | qcom/opensource/graphics-kernel/adreno_pm4types.h:205-268 | Every header of types 0, 3, 4 and 7 has the bits it should have, and decodes, by the driver's own macros, to what it was made of |
| `Pm4.ParseEncoded` | qcom/opensource/graphics-kernel/adreno_pm4types.h:205-268 | Parsing an encoded list of packets gives the list: the headers tile the stream exactly |
| `Pm4.SplitValue` | qcom/opensource/graphics-kernel/adreno_pm4types.h:334-347 | A 64-bit value and its two dwords determine each other |
| `Pm4.ParseConcat` | qcom/opensource/graphics-kernel/adreno_pm4types.h:232-268 | Streams that each parse, parse in sequence |
| `CpMachine.ActsSeven` | qcom/opensource/graphics-kernel/adreno_pm4types.h:34-153 | What the theorems take each type 7 packet for, by opcode and payload |
| `CpMachine.ActsOther` | qcom/opensource/graphics-kernel/adreno_pm4types.h:34-153 | The same for types 0, 3 and 4 |
| `A5xxPackets.CommandMeaning` | qcom/opensource/graphics-kernel/adreno_a5xx_ringbuffer.c:414-492 | For all flags and lists that pass verification: the stream parses, fits 32 + 5 dwords for each IB, leaves the modes alone, and runs exactly the IBs not skipped, in order and in full length, between the two user samples |
| `A5xxPackets.CommandSteps` | qcom/opensource/graphics-kernel/adreno_a5xx_ringbuffer.c:414-492 | All that a user command has the CP do, in order: the kernel's counter sample to the started slot, the user's, the wanted IBs, the render mode and yield settings, and the samples to the retired slots |
| `A5xxPackets.WantedNext` | qcom/opensource/graphics-kernel/adreno_a5xx_ringbuffer.c:449-463 | An IB is wanted exactly if it is not marked to be skipped, and not a preamble unless preambles are asked for |
| `A5xxPackets.SkippedDwords` | qcom/opensource/graphics-kernel/adreno_a5xx_ringbuffer.c:449-463 | A skip is a NOP of four in front of the very dwords that would run the IB |
| `A5xxPackets.MaskLosesNothing` | qcom/opensource/graphics-kernel/adreno_a5xx_ringbuffer.c:462 | The length mask loses nothing exactly up to 0xFFFFF dwords |
| `A5xxPackets.EntryRuns` | qcom/opensource/graphics-kernel/adreno.c:3035-3057 | With a verified IB the entry runs it in full, or nothing if it is skipped |
| `A5xxSubmit.StreamMeaning` | qcom/opensource/graphics-kernel/adreno_a5xx_ringbuffer.c:138-287 | For every combination of flags and every payload that is a stream: headers tile the whole; start-of-pipe stores, then the payload in the modes asked for, then end-of-pipe stamps, then the yield; protected and not secure in the end |
| `A5xxSubmit.OpeningExactly` | qcom/opensource/graphics-kernel/adreno_a5xx_ringbuffer.c:165-205 | All that the CP does before the payload; fine-grain preemption is enabled exactly for contexts of that style that are not secure |
| `A5xxSubmit.ClosingExactly` | qcom/opensource/graphics-kernel/adreno_a5xx_ringbuffer.c:210-278 | All that it does after the payload, which stamp goes where and which interrupts, and in which modes |
| `A5xxSubmit.StreamFits` | qcom/opensource/graphics-kernel/adreno_a5xx_ringbuffer.c:136-147 | Whatever the payload, the stream takes at most A5XX_SUBMIT_MAX - 3 dwords more than it |
| `A5xxSubmit.SubmissionMeaning` | qcom/opensource/graphics-kernel/adreno_a5xx_ringbuffer.c:414-530 | A user command in its envelope, from the list of IBs to what the CP does: the opening, then the wanted IBs in order, all in the modes the flags ask for, then the closing |
| `A5xxSubmit.StreamStamps` | qcom/opensource/graphics-kernel/adreno_a5xx_ringbuffer.c:243-267 | A submission stamps its own number in the ring's end-of-pipe slot, once, whatever its flags |
| `A5xxSubmit.PreDoes` | qcom/opensource/graphics-kernel/adreno_a5xx_preempt.c:319-392 | Preemption setup lifts protection for the two save address writes and nothing else |
| `A5xxTables.ContextSwitchSeen` | qcom/opensource/graphics-kernel/adreno_a5xx_ringbuffer.c:14-50 | A context switch mirrors its table update in scratch memory before the next yield, and installs the new table exactly if the pagetables differ and the new one is not the default |
| `A5xxTables.SwitchSteps` | qcom/opensource/graphics-kernel/adreno_a5xx_ringbuffer.c:335-371 | All that a context switch has the CP do: the pagetable, exactly if it is an own one that differs, with CP_CNTL 1 around the scratch write; both notes of the context; the UCHE invalidation |
| `A5xxTables.ContextSwitchWithin` | qcom/opensource/graphics-kernel/adreno_a5xx_ringbuffer.c:335-371 | The context switch fits the 32 dwords on the stack |
| `A5xxTables.SubmissionIsBlock` | qcom/opensource/graphics-kernel/adreno_a5xx_preempt.c:394-410 | A submission is a block as the preemption protocol takes it: its only yield is its last packet, present exactly with preemption, and its tables are mirrored |
| `A5xxTables.UserSubmissionIsBlock` | qcom/opensource/graphics-kernel/adreno_a5xx_ringbuffer.c:414-530 | Every user submission is such a block and leaves the ring's table as it is |
| `A5xxTables.SwitchIsBlock` | qcom/opensource/graphics-kernel/adreno_a5xx_ringbuffer.c:335-371 | So is the submission that switches to a context; it installs the context's own pagetable exactly if the context before used another, and nothing for the default one |
| `RingSpace.WrappedEqual` | qcom/opensource/graphics-kernel/adreno.h:1580-1583 | Wrapped positions at most a lap apart are equal exactly if the positions are |
| `RingSpace.Ring.IsEmpty` | qcom/opensource/graphics-kernel/adreno.h:1580-1583 | A ring is empty exactly if the CP has read all that was published; never when full |
| `RingSpace.Ring.AllocSpace` | qcom/opensource/graphics-kernel/adreno_ringbuffer.c:67-104 | The run taken is unbroken and ends at _wptr, unread dwords are untouched and followed by at most one NOP that swallows all up to the run; the ring never comes to look empty |
| `RingSpace.RoomExactly` | qcom/opensource/graphics-kernel/adreno_ringbuffer.c:74-103 | Room is found exactly if an unbroken run of so many dwords, clear of the last two and ending before the read pointer comes round again, follows at once or after skipping to the start of the buffer |
| `RingSpace.RoomGrows` | qcom/opensource/graphics-kernel/adreno_ringbuffer.c:71-103 | What the CP reads on only adds room |
| `RingSpace.SkippableParses` | qcom/opensource/graphics-kernel/adreno_ringbuffer.c:88-93 | The filling NOP, of type 3 on a3xx and of type 7 on a5xx, parses and does nothing |
| `RingSpace.BetweenSplit` | qcom/opensource/graphics-kernel/adreno_ringbuffer.c:67-104 | What the CP reads around the ring splits where an unbroken run begins |
| `A5xxRingbuffer.A5xxRing.AddCmds` | qcom/opensource/graphics-kernel/adreno_a5xx_ringbuffer.c:138-287 | What the CP has to read is extended by exactly the submission, filled in place, and by the request for its read pointer without preemption; every submission that is made is published, however far the CP has read on meanwhile; timestamps count failed calls |
| `A5xxRingbuffer.A5xxRing.Submit` | qcom/opensource/graphics-kernel/adreno_a5xx_ringbuffer.c:62-97 | Publishes, but not if the CP_WHERE_AM_I finds no room |
| `A5xxRingbuffer.A5xxRing.DrawctxtSwitch` | qcom/opensource/graphics-kernel/adreno_a5xx_ringbuffer.c:335-398 | A switch that finds room emits and publishes exactly the context switch from the active context to the new one; the new context becomes active also when nothing was emitted |
| `A5xxRingbuffer.FaultedSwitch` | qcom/opensource/graphics-kernel/adreno_a5xx_ringbuffer.c:390-397 | One case of it: after a fault, a switch reports success and has emitted nothing |
| `A5xxRingbuffer.LiveMeaning` | qcom/opensource/graphics-kernel/adreno_a5xx_ringbuffer.c:138-287 | What the CP then does: all it had to do before, then the submission, then the report of its read pointer if asked for, and nothing for the filling |
| `A5xxRingbuffer.AddAll` | qcom/opensource/graphics-kernel/adreno_a5xx_ringbuffer.c:138-287 | Over any run of calls, the CP reading on as it likes: all that was given to the CP is one stream, and the stamps that stream leaves in the ring's end-of-pipe slot are the numbers of the calls that found room, in order |
| `A5xxJobs.SubmitCmd` | qcom/opensource/graphics-kernel/adreno_a5xx_ringbuffer.c:414-530 | The whole call, from the list of IBs through the ignored context switch to the command: when each is let in, emitted or refused, and what the CP does for it |
| `A5xxJobs.SubmitAll` | qcom/opensource/graphics-kernel/adreno_a5xx_ringbuffer.c:335-530 | Any run of such calls by any contexts, the CP reading on as it likes: all that was given is one stream, which runs every buffer of every emitted command in order, each under the pagetable in force behind its own call's switch |
| `A5xxJobs.AllWalk` | qcom/opensource/graphics-kernel/adreno_a5xx_ringbuffer.c:14-50 | The pagetables that a run's steps install, and the pagetable each buffer is run under, are those that the emitted switches account for |
| `A5xxJobs.AlwaysOwn` | qcom/opensource/graphics-kernel/adreno_a5xx_ringbuffer.c:335-398 | Over any run of calls each context has its own pagetable in force for its command, if and only if at each change of pagetable the switch was emitted and not to the default one |
| `A5xxJobs.InForceMeaning` | qcom/opensource/graphics-kernel/adreno_a5xx_ringbuffer.c:335-398 | Whatever went wrong before a call, the pagetable in force is that of the last context one was installed for, or the ring's first |
| `A5xxJobs.SwitchWalks` | qcom/opensource/graphics-kernel/adreno_a5xx_ringbuffer.c:14-50 | The CP's steps for a context switch run no buffer, and install the context's own pagetable exactly if there is one and the context before had another |
| `A5xxJobs.CommandKeeps` | qcom/opensource/graphics-kernel/adreno_a5xx_ringbuffer.c:414-492 | The CP's steps for a command in its envelope install no pagetable, and run its profiling, sampling and wanted buffers in order |
| `A5xxRingbuffer.StampsIncrease` | qcom/opensource/graphics-kernel/adreno_a5xx_ringbuffer.c:157-161 | Those numbers strictly increase, failed submissions included, until the 32-bit counter wraps |
| `A5xxRingbuffer.CommandProper` | qcom/opensource/graphics-kernel/adreno_a5xx_ringbuffer.c:521-522 | User commands are payloads as AddAll takes them: they leave the modes to the envelope and stamp nothing |
| `A5xxRingbuffer.SwitchProper` | qcom/opensource/graphics-kernel/adreno_a5xx_ringbuffer.c:369-370 | So are context switches |
| `A5xxRingbuffer.StreamInto` | qcom/opensource/graphics-kernel/adreno_a5xx_ringbuffer.c:138-280 | Fills a window of the ring with the stream and nothing around it |
| `A5xxRingbuffer.CommandInto` | qcom/opensource/graphics-kernel/adreno_a5xx_ringbuffer.c:414-492 | Fills a buffer of just the allocated size with the user command |
| `A5xxRingbuffer.PreIbsubmitInto` | qcom/opensource/graphics-kernel/adreno_a5xx_preempt.c:319-392 | Fourteen dwords of preemption setup |
| `A5xxRingbuffer.ProfileSlots.Take` | qcom/opensource/graphics-kernel/adreno_a5xx_ringbuffer.c:309-333 | A profiling slot gets the counter sample, no other slot changes, and the index wraps |
| `CommandWriting.CommandWriter.Emit` | qcom/opensource/graphics-kernel/adreno_a5xx_ringbuffer.c:164-280 | One packet behind what was written, in place |
| `A3xxPackets.CommandMeaning` | qcom/opensource/graphics-kernel/adreno_a3xx_ringbuffer.c:382-458 | Fits 4 + 4 dwords for each IB, filled exactly if every IB is skipped; does nothing but run those not skipped, in order and in full |
| `A3xxPackets.WantedNext` | qcom/opensource/graphics-kernel/adreno_a3xx_ringbuffer.c:382-430 | Which IBs are wanted |
| `A3xxPackets.ContextSwitchWithin` | qcom/opensource/graphics-kernel/adreno_a3xx_ringbuffer.c:319-351 | The context switch takes at most 61 of its 64 dwords, and its headers tile it |
| `A3xxPackets.SwitchBus` | qcom/opensource/graphics-kernel/adreno_a3xx_ringbuffer.c:105-156 | TTBR0 is written with the VBIF halted; afterwards it runs again and no stale translation is left |
| `A3xxPackets.ContextSwitchBus` | qcom/opensource/graphics-kernel/adreno_a3xx_ringbuffer.c:319-351 | A context switch leaves the new table in use, the bus running and no stale translation exactly if the pagetables differ and the new one is not the default; else it leaves bus and table alone |
| `A3xxPackets.SwitchSteps` | qcom/opensource/graphics-kernel/adreno_a3xx_ringbuffer.c:319-351 | All that a context switch has the CP do: the pagetable switch under that condition, both notes of the context, the UCHE invalidation |
| `A3xxPackets.PagetableDoes` | qcom/opensource/graphics-kernel/adreno_a3xx_ringbuffer.c:105-156 | All that a pagetable switch has the CP do, register by register |
| `A3xxSubmit.StreamMeaning` | qcom/opensource/graphics-kernel/adreno_a3xx_ringbuffer.c:180-317 | Headers tile the stream, start-of-pipe before and end-of-pipe after the payload, whatever the modes before; protection is on in the end if the submission switches it itself, or else if it was on before and no power-on fixup ran |
| `A3xxSubmit.OpeningExactly` | qcom/opensource/graphics-kernel/adreno_a3xx_ringbuffer.c:206-248 | All that the CP does before the payload, and how protection then is |
| `A3xxSubmit.ClosingExactly` | qcom/opensource/graphics-kernel/adreno_a3xx_ringbuffer.c:253-307 | All that it does after the payload, which stamp goes where and which interrupts |
| `A3xxSubmit.StreamFits` | qcom/opensource/graphics-kernel/adreno_a3xx_ringbuffer.c:178-187 | The stream takes at most A3XX_SUBMIT_MAX - 11 dwords more than its payload |
| `A3xxRingbuffer.A3xxRing.AddCmds` | qcom/opensource/graphics-kernel/adreno_a3xx_ringbuffer.c:180-317 | What the CP has to read is extended by exactly the submission, after at most one NOP of type 3, and published |
| `A3xxRingbuffer.LiveMeaning` | qcom/opensource/graphics-kernel/adreno_a3xx_ringbuffer.c:180-317 | What the CP then does: all it had to do before, then the submission, and nothing for the filling |
| `A3xxRingbuffer.CommandInto` | qcom/opensource/graphics-kernel/adreno_a3xx_ringbuffer.c:382-430 | Fills a buffer of just the allocated size with the user command |
| `GpmuLoader.LoadMeaning` | qcom/opensource/graphics-kernel/adreno_a5xx.c:485-540 | For every microcode and payload limit: the stream parses, fits the allocation, and running it writes ucode[k] to INST_RAM_BASE + k for every k, in order, and nothing else, unprotected; protection is on afterwards |
| `GpmuLoader.LoadSize` | qcom/opensource/graphics-kernel/adreno_a5xx.c:489-504 | For every payload limit M >= 1 the stream stays within size + size / M + 1 + 4 dwords |
| `GpmuLoader.ImageAt` | qcom/opensource/graphics-kernel/adreno_a5xx.c:518-532 | Which word goes to which register |
| `GpmuLoader.ChunksInto` | qcom/opensource/graphics-kernel/adreno_a5xx.c:518-532 | The chunking loop |
| `GpmuLoader.CreateLoadCmds` | qcom/opensource/graphics-kernel/adreno_a5xx.c:485-540 | Fills a buffer of just the allocated size with the load stream |
| `GpmuLoader.LoadGpmuFirmware` | qcom/opensource/graphics-kernel/adreno_a5xx.c:547-611 | Commands are created exactly for a good file; an error is returned exactly for a bad header, so other bad files leave success and no commands |
| `GpmuLoader.SilentFile` | qcom/opensource/graphics-kernel/adreno_a5xx.c:560-602 | A malformed file that is reported as success and loads nothing |
| `GpmuLoader.FirmwareMeaning` | qcom/opensource/graphics-kernel/adreno_a5xx.c:547-611 | What a loaded file does to the instruction RAM |
| `GpmuLoader.MicrocodePartition` | qcom/opensource/graphics-kernel/adreno_a5xx.c:589-596 | Length, type, header and microcode make up the block without a gap |
| `Firmware.ReadBlockHeader` | qcom/opensource/graphics-kernel/adreno_a5xx.c:757-806 | Accepts exactly the good headers, reading only inside the block |
| `Firmware.HeaderExactly` | qcom/opensource/graphics-kernel/adreno_a5xx.c:757-806 | What a good header is: one to five pairs, fewer words than the block has left, a sequence number first where one is due, and no version older than asked for but 0 |
| `Firmware.VersionRefused` | qcom/opensource/graphics-kernel/adreno_a5xx.c:781-788 | Where version 2 is asked for, 1 is refused, and every other number let pass |
| `Firmware.BlockExactly` | qcom/opensource/graphics-kernel/adreno_a5xx.c:855-876 | What block the walk goes on behind |
| `Firmware.LoadRegfile` | qcom/opensource/graphics-kernel/adreno_a5xx.c:830-892 | Walks any word array in bounds; what is kept, released and found, on every path |
| `Firmware.AcceptedExactly` | qcom/opensource/graphics-kernel/adreno_a5xx.c:855-884 | The walk accepts a file exactly if it consists of good blocks |
| `Firmware.FileAccepted` | qcom/opensource/graphics-kernel/adreno_a5xx.c:855-884 | Every file of good blocks is accepted, and its last LM sequence found |
| `Firmware.AcceptedFile` | qcom/opensource/graphics-kernel/adreno_a5xx.c:855-884 | Whatever is accepted is a file of good blocks, from which the words are rebuilt |
| `Firmware.WantedPayload` | qcom/opensource/graphics-kernel/adreno_a5xx.c:868-881 | An LM sequence handed on is the non-empty payload of the last LM block, behind length, type and a whole header |
| `Firmware.DanglingExactly` | qcom/opensource/graphics-kernel/adreno_a5xx.c:878-892 | lm_sequence is left pointing into a released file exactly when a good LM block comes before the first bad block, whatever it was before; when a file is released; and what lm_sequence is afterwards |
| `Firmware.DanglingFile` | qcom/opensource/graphics-kernel/adreno_a5xx.c:878-892 | A file of seven words that leaves it so |
| `RegSequence.Execute` | qcom/opensource/graphics-kernel/adreno_a5xx.c:894-924 | Performs exactly the operations that can be read, and fails exactly if words are left over |
| `RegSequence.FrontExactly` | qcom/opensource/graphics-kernel/adreno_a5xx.c:894-924 | The three opcodes, how many words each takes, what it writes, and what is not read |
| `RegSequence.RoundTrip` | qcom/opensource/graphics-kernel/adreno_a5xx.c:894-924 | Any list of operations, encoded, reads back as itself |
| `RegSequence.DecodeLongest` | qcom/opensource/graphics-kernel/adreno_a5xx.c:894-924 | No other reading of the words gets further |
| `RegSequence.DecodeExact` | qcom/opensource/graphics-kernel/adreno_a5xx.c:894-924 | What was read is an encoding of the words up to the rest, from which nothing more can be read |
| `RegSequence.ExactlyEncodings` | qcom/opensource/graphics-kernel/adreno_a5xx.c:894-924 | The interpreter succeeds on encodings of operations and on nothing else |
| `RegSequence.WideWrites` | qcom/opensource/graphics-kernel/adreno_a5xx.c:902-915 | What is done is what the operations ask for, of registers and values of up to 64 bits, exactly if no operation uses an upper half |
| `RegSequence.WideSequence` | qcom/opensource/graphics-kernel/adreno_a5xx.c:902-915 | The same of any words as the interpreter reads them, and five words for which it fails |
| `CrashDump.CrashdumpInit` | qcom/opensource/graphics-kernel/adreno_a5xx_snapshot.c:1109-1221 | Fills a buffer of exactly script_size + 16 bytes with the compiled script, and records each offset |
| `CrashDump.ScriptFits` | qcom/opensource/graphics-kernel/adreno_a5xx_snapshot.c:1131-1171 | The script has exactly script_size + 16 bytes and the dumper understands it as compiled |
| `CrashDump.MeaningOfQwords` | qcom/opensource/graphics-kernel/adreno_a5xx_snapshot.c:1062-1074 | The bits of the two qwords of each instruction, and that the dumper takes them for that instruction |
| `CrashDump.DumpIsCaptured` | qcom/opensource/graphics-kernel/adreno_a5xx_snapshot.c:1109-1221 | Whatever the buffer held, running the script fills it window by window, disjoint and without a gap, with what each register reads as behind its selection |
| `CrashDump.MainRoundTrip` | qcom/opensource/graphics-kernel/adreno_a5xx_snapshot.c:679-722 | After a dump the main list reads back as each register with its own value, as far as the section goes |
| `CrashDump.FittingExactly` | qcom/opensource/graphics-kernel/adreno_a5xx_snapshot.c:701-708 | How far that is: all ranges up to the first that does not fit at eight bytes a register |
| `CrashDump.SnapshotRegisters` | qcom/opensource/graphics-kernel/adreno_a5xx_snapshot.c:679-722 | Reads ranges until one does not fit the section |
| `CrashDump.ExpectedAt` | qcom/opensource/graphics-kernel/adreno_a5xx_snapshot.c:711-714 | What is expected of a range: its k-th register with the value of just that register |
| `CrashDump.HlsqRoundTrip` | qcom/opensource/graphics-kernel/adreno_a5xx_snapshot.c:798-810 | After a dump every HLSQ set finds its own window at its recorded offset |
| `CrashDump.HlsqPairs` | qcom/opensource/graphics-kernel/adreno_a5xx_snapshot.c:798-810 | ... and reads each address with what stood behind the aperture |
| `CrashDump.ReportHlsq` | qcom/opensource/graphics-kernel/adreno_a5xx_snapshot.c:798-810 | From the tables, through script, dump and recorded offset, to the report: each address of a set with the value of its place behind the aperture |
| `CrashDump.ReportRegisters` | qcom/opensource/graphics-kernel/adreno_a5xx_snapshot.c:679-722 | The same for the main register list, as far as the section goes |
| `CrashDump.GetHlsqRegisters` | qcom/opensource/graphics-kernel/adreno_a5xx_snapshot.c:798-810 | Pairs each address of a set with its dword |
| `CrashDump.ShaderRoundTrip` | qcom/opensource/graphics-kernel/adreno_a5xx_snapshot.c:1054-1082 | After a dump bank j of every shader block lies j times its dwords behind its recorded offset |
| `CrashDump.ShaderWord` | qcom/opensource/graphics-kernel/adreno_a5xx_snapshot.c:1054-1082 | Word k of it is what place k behind the aperture reads as with the state type in the upper bits of the selection and j in the lower |
| `CrashDump.BankZeroWord` | qcom/opensource/graphics-kernel/adreno_a5xx_snapshot.c:597-637 | The section of bank 0 reads back just those words |
| `CrashDump.BankStride` | qcom/opensource/graphics-kernel/adreno_a5xx_snapshot.c:597-637 | What the reader copies for bank j, byte for byte, is bank j on all hardware exactly for j = 0 |
| `CrashDump.RangesInto` | qcom/opensource/graphics-kernel/adreno_a5xx_snapshot.c:1188-1206 | The loop over a register list |
| `CrashDump.ShaderInto` | qcom/opensource/graphics-kernel/adreno_a5xx_snapshot.c:1054-1082 | The loop over a block's banks |
| `CrashDump.BanksProgram` | qcom/opensource/graphics-kernel/adreno_a5xx_snapshot.c:1060-1078 | Its instructions: bank j selected by state type and j, and read to j times the block's dwords behind the first |
| `CrashDump.HlsqInto` | qcom/opensource/graphics-kernel/adreno_a5xx_snapshot.c:1084-1107 | The HLSQ sets, one window each |
| `TouchModel.RunsKeep` | qcom/opensource/fingerprint/qbt_handler.c:297-380 | After any number of runs on any touches, with a fixed configuration, from start-up (`FreshKept`) or any world in which it is so: a slot is recorded down exactly if its last event was a finger in the area; every reported move follows a reported down; a low INTR2 line means no finger is down |
| `TouchModel.MovesExactly` | qcom/opensource/fingerprint/qbt_handler.c:271-378 | From any world whose reports agree with its records, under any configuration: every move reported in any run follows a down, if and only if every finger in the area whose moves the radius filter may let pass is recorded down |
| `TouchModel.ToldDown` | qcom/opensource/fingerprint/qbt_handler.c:317-378 | Being told down means a report of going down with none of going up since |
| `TouchModel.SlotKept` | qcom/opensource/fingerprint/qbt_handler.c:317-352 | One event keeps the slot's record exact, and which changes are reported |
| `TouchModel.StepExactly` | qcom/opensource/fingerprint/qbt_handler.c:271-352 | What one event does to a slot, and what it reports, in full: by the edges of the area, the finger numbers and the radii |
| `TouchModel.RunReports` | qcom/opensource/fingerprint/qbt_handler.c:317-378 | A run reports exactly each slot's own change, in slot order, at the place of its touch, if events are enabled, and drops those that find 128 queued; it clears the flags of the touches, and leaves a disabled line alone |
| `TouchModel.Residual` | qcom/opensource/fingerprint/qbt_handler.c:271-295 | Accumulated deltas are the moves since the last reported one, and stay within the radii |
| `TouchModel.LineMeaning` | qcom/opensource/fingerprint/qbt_handler.c:361-375 | After a run the line is high exactly if some change in it, given by the touches alone, left a finger down; without a change it stays |
| `TouchModel.LineExact` | qcom/opensource/fingerprint/qbt_handler.c:361-375 | Whatever the touches and the line before: a run ends with the line saying exactly whether a finger is down, if and only if the run is not stuck and, if it has no change, the line was right before |
| `TouchModel.StuckLine` | qcom/opensource/fingerprint/qbt_handler.c:306-375 | From start-up, with the driver's ten slots: two fingers put down in one run leave the line right, and lifted in the next leave it high |
| `TouchModel.LineAlways` | qcom/opensource/fingerprint/qbt_handler.c:297-380 | Over any runs, such as those from start-up, the line is right behind every one of them exactly if none of them is stuck |
| `TouchModel.MoveAfterEnable` | qcom/opensource/fingerprint/qbt_handler.c:226-235 | From start-up, touches while everything is disabled lead to a world in which that is not so, and in which some run reports a move without a down |
| `TouchModel.QueueOrder` | qcom/opensource/fingerprint/qbt_handler.c:122-136 | What is read and queued are the reports in order, and all of them exactly if none found the queue full |
| `QbtHandler.QbtDriver.WorkFunc` | qcom/opensource/fingerprint/qbt_handler.c:297-380 | Refines the run the theorems speak of: each slot takes its own step, and the reports are those of RunReports |
| `QbtHandler.QbtDriver.TurnSlot` | qcom/opensource/fingerprint/qbt_handler.c:317-378 | One turn of the loop over the slots; reports the slot's own change at the place of the touch |
| `QbtHandler.QbtDriver.Judge` | qcom/opensource/fingerprint/qbt_handler.c:330-350 | What a touch is taken for |
| `QbtHandler.QbtDriver.FilterByRadius` | qcom/opensource/fingerprint/qbt_handler.c:271-295 | The radius filter in place |
| `QbtHandler.QbtDriver.SomeDown` | qcom/opensource/fingerprint/qbt_handler.c:363-367 | The loop over the recorded states |
| `QbtHandler.QbtDriver.Settle` | qcom/opensource/fingerprint/qbt_handler.c:361-375 | Records a state and drives the line |
| `QbtHandler.QbtDriver.ReportTouch` | qcom/opensource/fingerprint/qbt_handler.c:181-241 | For every event: which field of which slot's touch it changes, whether work is scheduled, and that exactly with a report, or an event of no known code behind one, while nothing is enabled all last events become the touches and nothing else of the state changes |
| `QbtHandler.QbtDriver.FdReportEvent` | qcom/opensource/fingerprint/qbt_handler.c:122-136 | Queues an event, or drops it when the queue is full |
| `QbtHandler.QbtDriver.Read` | qcom/opensource/fingerprint/qbt_handler.c:725-822 | Takes all that is queued, in order |
| `SecureBuffers.RunRoundTrip` | qcom/opensource/graphics-kernel/adreno.c:3469-3573 | Over any sequence of calls with any outcomes: no other priv bit and no other object ever changes, and a last call that succeeds has flagged, or cleared, every eligible object |
| `SecureBuffers.HibernateOutcome` | qcom/opensource/graphics-kernel/adreno.c:3469-3528 | Success flags every eligible object; failure leaves no secured global flagged, but every eligible object of a process |
| `SecureBuffers.RestoreOutcome` | qcom/opensource/graphics-kernel/adreno.c:3530-3573 | Success clears every eligible flag |
| `SecureBuffers.RestoreSucceeds` | qcom/opensource/graphics-kernel/adreno.c:3530-3573 | Restoring succeeds exactly if every call succeeds that it would make for flagged objects |
| `SecureBuffers.HibernateSucceeds` | qcom/opensource/graphics-kernel/adreno.c:3469-3528 | Hibernation succeeds exactly if its calls for globals do, whatever those for processes return |
| `SecureBuffers.SweepAt` | qcom/opensource/graphics-kernel/adreno.c:3479-3571 | What each loop leaves of each object, in terms of the calls up to its own |
| `SecureBuffers.PicksExactly` | qcom/opensource/graphics-kernel/adreno.c:3479-3571 | Which objects each of the five loops calls for, and which loops stop at a failure |
| `SecureBuffers.RestoreAgain` | qcom/opensource/graphics-kernel/adreno.c:3530-3573 | An interrupted restore changed only flagged globals; repeating it touches only those still flagged, once each |
| `SecureBuffers.RestoreAgainEntries` | qcom/opensource/graphics-kernel/adreno.c:3552-3571 | The same for the memory of processes |
| `SecureBuffers.SweepTruth` | qcom/opensource/graphics-kernel/adreno.c:3479-3571 | A pass keeps the flag equal to the real assignment exactly if no call fails whose failure it ignores |
| `SecureBuffers.HibernateTruth` | qcom/opensource/graphics-kernel/adreno.c:3469-3525 | Hibernation does exactly if no call fails that hands over the memory of a process, or takes a global back on the way out |
| `SecureBuffers.RestoreTruth` | qcom/opensource/graphics-kernel/adreno.c:3527-3573 | Restoring always does |
| `SecureBuffers.UntrueFlag` | qcom/opensource/graphics-kernel/adreno.c:3489-3492 | One buffer and a refusing hypervisor: hibernation succeeds, and flags memory that was never handed over |
| `SecureBuffers.SweepStops` | qcom/opensource/graphics-kernel/adreno.c:3507-3552 | A strict pass gets through exactly if none of its calls fails |
| `SecureBuffers.AdrenoDevice.Hibernate` | qcom/opensource/graphics-kernel/adreno.c:3469-3528 | Refines the outcome the theorems speak of, in place |
| `SecureBuffers.AdrenoDevice.Restore` | qcom/opensource/graphics-kernel/adreno.c:3530-3573 | Refines the outcome the theorems speak of, in place |
| `CounterDelta.Telescopes` | qcom/opensource/graphics-kernel/adreno.h:1634-1653 | Summed results are the true advance since the first sample, less one for each wrap and less each value read right after a 0: never an overcount |
| `CounterDelta.PerfCounter.Sample` | qcom/opensource/graphics-kernel/adreno.h:1634-1653 | What one call returns and stores |

## Left out

- PreemptTheorems.RegisterSafety: holds of orderly runs, because it is false of others; PreemptGaps.OrderlyExactly says of
  which.
- TouchModel.RunsKeep: for a fixed configuration that stays enabled; TouchModel.MovesExactly says which changes keep the
  promise about moves.
- QbtHandler.QbtDriver.ReportTouch: an event that would write to the slot in front of the first one. The driver stores a
  negative slot number, and checks only that it is not too high before it uses it; events that write nothing are modelled
  behind it as well.
- PreemptTheorems.HighestPriority: rings published to while the trigger scans are excepted, because the scan looks at each
  ring once.
- Restart and fault recovery: a dispatcher fault leaves the preemption machine's state as it is, for a re-initialisation
  that is not modelled.
- Timers and jiffies: the preemption timer is a step that may come at any time; the dispatcher's timers are left out.
- `adreno_get_rptr`: the driver reads the ring's read pointer where the CP last reported it. In the preemption machine that is
  always the CP's own position; in `RingSpace` the read pointer is what was last reported, and stays behind the CP's.
- Memory ordering: steps of the preemption machine are sequentially consistent.
- Ring positions in the preemption machine count packets and do not wrap; `RingSpace` shows that wrapped and unwrapped
  positions are equal together.
- The CP's microcode: it is taken to switch rings only at a yield or before a ring's first packet, and to load the record
  and smmu_info it was given.
- The contents of indirect buffers, and of the profiling buffers of adreno_profile: their addresses and lengths are
  parameters.
- Locks that only keep list walks safe, reference counts, tracing, power scaling and error messages.
- RingSpace.Ring.AllocSpace: the size asked for is a number of any size; the wrap-around of 32-bit sums, which no payload
  that can be allocated comes near, is not modelled.
- `a5xx_ringbuffer_submitcmd` is modelled without allocation failure and drawobj constraints; `a3xx_ringbuffer_submitcmd` after
  its stream is built is calls of the functions modelled here.
- Crash dump: the allocation guards of a5xx_crashdump_init; buffers are taken as given. The reader of the GPMU list starts
  at the beginning of the buffer, where the main list lies, so no round trip is claimed for it.
- Firmware: request_firmware and its failures; the file is given as words. Header fields that only lead to a message.
- `RegSequence.Execute`: delays are recorded, not timed.
- Touch: the GPIO is taken to be valid, integer overflow of coordinates is not modelled, and copying to user space always
  succeeds. Reads of the IPC device, polling, ioctls and the finger-detect interrupt are left out.
- The radius filter compares with radii that are not negative.
- Secure buffers: the lists do not change during a call, although the driver lets go of the list's lock around each call
  into the hypervisor.
- Probe, removal, device tree, clocks, regulators, sysfs and debugfs, register tables and straight-line register
  programming.
- A6xx and Gen7 code: only declarations of it concern the functions modelled here.
