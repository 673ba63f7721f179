/** Every step of the preemption protocol keeps every part of its invariant: one section for each kind of step. */
module PreemptSteps {
  import opened PreemptModel
  import opened PreemptInv

  // ---------------------------------------------------------------- A submission compares rings

  lemma CompareStates(s: Sys, r: nat)
    requires States(s)
    requires s.mutex == Submit(SawNone, r)
    ensures States(SubmitStep(s, SawNone, r))
  {
  }

  lemma CompareRings(s: Sys, r: nat)
    requires States(s) && Rings(s)
    requires s.mutex == Submit(SawNone, r)
    ensures Rings(SubmitStep(s, SawNone, r))
  {
    assert RingOk(s, r) && RingOk(s, s.cp.running);
    var s' := SubmitStep(s, SawNone, r);
    forall i | 0 <= i < |s'.rings| ensures RingOk(s', i) { assert RingOk(s, i); }
  }

  lemma CompareScans(s: Sys, r: nat)
    requires States(s) && Scans(s)
    requires s.mutex == Submit(SawNone, r)
    ensures Scans(SubmitStep(s, SawNone, r))
  {
  }

  // ---------------------------------------------------------------- ... writes the register

  lemma WriteStates(s: Sys, r: nat)
    requires States(s)
    requires s.mutex == Submit(SawCurrent, r)
    ensures States(SubmitStep(s, SawCurrent, r))
  {
  }

  lemma WriteRings(s: Sys, r: nat)
    requires States(s) && Rings(s)
    requires s.mutex == Submit(SawCurrent, r)
    ensures Rings(SubmitStep(s, SawCurrent, r))
  {
    assert RingOk(s, r) && RingOk(s, s.cp.running);
    var s' := SubmitStep(s, SawCurrent, r);
    forall i | 0 <= i < |s'.rings| ensures RingOk(s', i) { assert RingOk(s, i); }
  }

  lemma WriteScans(s: Sys, r: nat)
    requires States(s) && Scans(s)
    requires s.mutex == Submit(SawCurrent, r)
    ensures Scans(SubmitStep(s, SawCurrent, r))
  {
  }

  // ---------------------------------------------------------------- ... and publishes

  lemma PublishStates(s: Sys)
    requires States(s)
    requires s.mutex.Submit? && s.mutex.at.Publish?
    ensures States(SubmitStep(s, s.mutex.at, s.mutex.r))
  {
  }

  lemma PublishRings(s: Sys)
    requires States(s) && Rings(s)
    requires s.mutex.Submit? && s.mutex.at.Publish?
    ensures Rings(SubmitStep(s, s.mutex.at, s.mutex.r))
  {
    assert RingOk(s, s.mutex.r) && RingOk(s, s.cp.running);
    var s' := SubmitStep(s, s.mutex.at, s.mutex.r);
    forall i | 0 <= i < |s'.rings| ensures RingOk(s', i) { assert RingOk(s, i); }
  }

  lemma PublishScans(s: Sys)
    requires States(s) && Rings(s) && Scans(s)
    requires s.mutex.Submit? && s.mutex.at.Publish?
    ensures Scans(SubmitStep(s, s.mutex.at, s.mutex.r))
  {
    assert RingOk(s, s.cur) && RingOk(s, s.mutex.r) && RingOk(s, s.cp.running);
  }

  // ---------------------------------------------------------------- _a5xx_preemption_done reads CONTEXT_SWITCH_CNTL

  lemma DoneStates(s: Sys, awake: bool)
    requires States(s)
    requires s.mutex == Poll(DoneStatus)
    ensures States(PollStep(s, DoneStatus, awake))
  {
  }

  lemma DoneRings(s: Sys, awake: bool)
    requires States(s) && Rings(s)
    requires s.mutex == Poll(DoneStatus)
    ensures Rings(PollStep(s, DoneStatus, awake))
  {
    var s' := PollStep(s, DoneStatus, awake);
    forall i | 0 <= i < |s'.rings| ensures RingOk(s', i) { assert RingOk(s, i); }
  }

  lemma DoneScans(s: Sys, awake: bool)
    requires States(s) && Scans(s)
    requires s.mutex == Poll(DoneStatus)
    ensures Scans(PollStep(s, DoneStatus, awake))
  {
  }

  // ---------------------------------------------------------------- _a5xx_preemption_fault reads it and completes

  lemma FaultStates(s: Sys, awake: bool)
    requires States(s)
    requires s.mutex == Poll(FaultStatus) || s.mutex == Poll(FaultComplete)
    ensures States(PollStep(s, s.mutex.poll, awake))
  {
  }

  lemma FaultRings(s: Sys, awake: bool)
    requires States(s) && Rings(s)
    requires s.mutex == Poll(FaultStatus) || s.mutex == Poll(FaultComplete)
    ensures Rings(PollStep(s, s.mutex.poll, awake))
  {
    var s' := PollStep(s, s.mutex.poll, awake);
    forall i | 0 <= i < |s'.rings| ensures RingOk(s', i) { assert RingOk(s, i); }
  }

  lemma FaultScans(s: Sys, awake: bool)
    requires States(s) && Scans(s)
    requires s.mutex == Poll(FaultStatus) || s.mutex == Poll(FaultComplete)
    ensures Scans(PollStep(s, s.mutex.poll, awake))
  {
  }

  // ---------------------------------------------------------------- The interrupt reads it

  lemma CallbackStates(s: Sys, awake: bool)
    requires States(s)
    requires s.irq == Poll(CallbackStatus)
    ensures States(PollStep(s, CallbackStatus, awake))
  {
  }

  lemma CallbackRings(s: Sys, awake: bool)
    requires States(s) && Rings(s)
    requires s.irq == Poll(CallbackStatus)
    ensures Rings(PollStep(s, CallbackStatus, awake))
  {
    var s' := PollStep(s, CallbackStatus, awake);
    forall i | 0 <= i < |s'.rings| ensures RingOk(s', i) { assert RingOk(s, i); }
  }

  lemma CallbackScans(s: Sys, awake: bool)
    requires States(s) && Scans(s)
    requires s.irq == Poll(CallbackStatus)
    ensures Scans(PollStep(s, CallbackStatus, awake))
  {
  }

  // ---------------------------------------------------------------- ... and defers to the worker

  lemma DeferStates(s: Sys, awake: bool)
    requires States(s)
    requires s.irq == Poll(CallbackComplete)
    ensures States(PollStep(s, CallbackComplete, awake))
  {
  }

  lemma DeferRings(s: Sys, awake: bool)
    requires States(s) && Rings(s)
    requires s.irq == Poll(CallbackComplete)
    ensures Rings(PollStep(s, CallbackComplete, awake))
  {
    var s' := PollStep(s, CallbackComplete, awake);
    forall i | 0 <= i < |s'.rings| ensures RingOk(s', i) { assert RingOk(s, i); }
  }

  lemma DeferScans(s: Sys, awake: bool)
    requires States(s) && Scans(s)
    requires s.irq == Poll(CallbackComplete)
    ensures Scans(PollStep(s, CallbackComplete, awake))
  {
  }

  // ---------------------------------------------------------------- A finished preemption swaps the rings

  lemma SwapStates(s: Sys, t: Thread)
    requires States(s) && Scans(s)
    requires PcOf(s, t) == Finish(Swap) && s.next.Some?
    ensures States(FinishStep(s, t, Swap))
  {
  }

  lemma SwapRings(s: Sys, t: Thread)
    requires States(s) && Rings(s) && Scans(s)
    requires PcOf(s, t) == Finish(Swap) && s.next.Some?
    ensures Rings(FinishStep(s, t, Swap))
  {
    assert RingOk(s, s.cur) && RingOk(s, s.cp.running);
    var s' := FinishStep(s, t, Swap);
    forall i | 0 <= i < |s'.rings| ensures RingOk(s', i) { assert RingOk(s, i); }
  }

  lemma SwapScans(s: Sys, t: Thread)
    requires States(s) && Scans(s)
    requires PcOf(s, t) == Finish(Swap) && s.next.Some?
    ensures Scans(FinishStep(s, t, Swap))
  {
  }

  // ---------------------------------------------------------------- ... and settles

  lemma SettleStates(s: Sys, t: Thread)
    requires States(s)
    requires CanGo(s, t) && (PcOf(s, t) == Finish(Update) || PcOf(s, t) == Finish(Clear))
    ensures States(FinishStep(s, t, PcOf(s, t).end))
  {
  }

  lemma SettleRings(s: Sys, t: Thread)
    requires States(s) && Rings(s)
    requires CanGo(s, t) && (PcOf(s, t) == Finish(Update) || PcOf(s, t) == Finish(Clear))
    ensures Rings(FinishStep(s, t, PcOf(s, t).end))
  {
    assert RingOk(s, s.cur) && RingOk(s, s.cp.running);
    var s' := FinishStep(s, t, PcOf(s, t).end);
    forall i | 0 <= i < |s'.rings| ensures RingOk(s', i) { assert RingOk(s, i); }
  }

  lemma SettleScans(s: Sys, t: Thread)
    requires States(s) && Rings(s) && Scans(s)
    requires CanGo(s, t) && (PcOf(s, t) == Finish(Update) || PcOf(s, t) == Finish(Clear))
    ensures Scans(FinishStep(s, t, PcOf(s, t).end))
  {
  }

  // ---------------------------------------------------------------- The trigger finds a preemption under way

  lemma RefuseStates(s: Sys, t: Thread)
    requires States(s)
    requires PcOf(s, t) == Search(Cas) && s.state != NONE
    ensures States(SearchStep(s, t, Cas))
  {
  }

  lemma RefuseRings(s: Sys, t: Thread)
    requires States(s) && Rings(s)
    requires PcOf(s, t) == Search(Cas) && s.state != NONE
    ensures Rings(SearchStep(s, t, Cas))
  {
    var s' := SearchStep(s, t, Cas);
    forall i | 0 <= i < |s'.rings| ensures RingOk(s', i) { assert RingOk(s, i); }
  }

  lemma RefuseScans(s: Sys, t: Thread)
    requires States(s) && Scans(s)
    requires PcOf(s, t) == Search(Cas) && s.state != NONE
    ensures Scans(SearchStep(s, t, Cas))
  {
  }

  // ---------------------------------------------------------------- ... or claims START

  lemma EnterStates(s: Sys, t: Thread)
    requires States(s)
    requires PcOf(s, t) == Search(Cas) && s.state == NONE
    ensures States(SearchStep(s, t, Cas))
  {
  }

  lemma EnterRings(s: Sys, t: Thread)
    requires States(s) && Rings(s)
    requires PcOf(s, t) == Search(Cas) && s.state == NONE
    ensures Rings(SearchStep(s, t, Cas))
  {
    var s' := SearchStep(s, t, Cas);
    forall i | 0 <= i < |s'.rings| ensures RingOk(s', i) { assert RingOk(s, i); }
  }

  lemma EnterScans(s: Sys, t: Thread)
    requires States(s) && Scans(s)
    requires PcOf(s, t) == Search(Cas) && s.state == NONE
    ensures Scans(SearchStep(s, t, Cas))
  {
  }

  // ---------------------------------------------------------------- ... looks for the highest-priority ring with work

  lemma ScanStates(s: Sys, t: Thread)
    requires States(s)
    requires CanGo(s, t) && PcOf(s, t).Search? && (PcOf(s, t).search.Scan? || PcOf(s, t).search.Pick?)
    ensures States(SearchStep(s, t, PcOf(s, t).search))
  {
  }

  lemma ScanRings(s: Sys, t: Thread)
    requires States(s) && Rings(s)
    requires CanGo(s, t) && PcOf(s, t).Search? && (PcOf(s, t).search.Scan? || PcOf(s, t).search.Pick?)
    ensures Rings(SearchStep(s, t, PcOf(s, t).search))
  {
    if PcOf(s, t).search.Scan? && PcOf(s, t).search.i < |s.rings| { assert RingOk(s, PcOf(s, t).search.i); }
    var s' := SearchStep(s, t, PcOf(s, t).search);
    forall i | 0 <= i < |s'.rings| ensures RingOk(s', i) { assert RingOk(s, i); }
  }

  lemma ScanScans(s: Sys, t: Thread)
    requires States(s) && Scans(s)
    requires CanGo(s, t) && PcOf(s, t).Search? && (PcOf(s, t).search.Scan? || PcOf(s, t).search.Pick?)
    ensures Scans(SearchStep(s, t, PcOf(s, t).search))
  {
  }

  // ---------------------------------------------------------------- ... gives up

  lemma LeaveStates(s: Sys, t: Thread)
    requires States(s)
    requires CanGo(s, t) && (PcOf(s, t) == Search(Catchup) || PcOf(s, t) == Search(Abandon))
    ensures States(SearchStep(s, t, PcOf(s, t).search))
  {
  }

  lemma LeaveRings(s: Sys, t: Thread)
    requires States(s) && Rings(s)
    requires CanGo(s, t) && (PcOf(s, t) == Search(Catchup) || PcOf(s, t) == Search(Abandon))
    ensures Rings(SearchStep(s, t, PcOf(s, t).search))
  {
    assert RingOk(s, s.cur) && RingOk(s, s.cp.running);
    var s' := SearchStep(s, t, PcOf(s, t).search);
    forall i | 0 <= i < |s'.rings| ensures RingOk(s', i) { assert RingOk(s, i); }
  }

  lemma LeaveScans(s: Sys, t: Thread)
    requires States(s) && Rings(s) && Scans(s)
    requires CanGo(s, t) && (PcOf(s, t) == Search(Catchup) || PcOf(s, t) == Search(Abandon))
    ensures Scans(SearchStep(s, t, PcOf(s, t).search))
  {
  }

  // ---------------------------------------------------------------- ... or writes the record of the ring it found

  lemma RecordStates(s: Sys, t: Thread, nx: nat)
    requires States(s)
    requires CanGo(s, t) && PcOf(s, t) == Program(Record, nx)
    ensures States(ProgramStep(s, t, Record, nx))
  {
  }

  lemma RecordRings(s: Sys, t: Thread, nx: nat)
    requires States(s) && Rings(s)
    requires CanGo(s, t) && PcOf(s, t) == Program(Record, nx)
    ensures Rings(ProgramStep(s, t, Record, nx))
  {
    assert RingOk(s, s.cur) && RingOk(s, nx);
    var s' := ProgramStep(s, t, Record, nx);
    forall i | 0 <= i < |s'.rings| ensures RingOk(s', i) { assert RingOk(s, i); }
  }

  lemma RecordScans(s: Sys, t: Thread, nx: nat)
    requires States(s) && Scans(s)
    requires CanGo(s, t) && PcOf(s, t) == Program(Record, nx)
    ensures Scans(ProgramStep(s, t, Record, nx))
  {
  }

  // ---------------------------------------------------------------- ... and points the CP at it

  lemma ArmStates(s: Sys, t: Thread)
    requires States(s)
    requires PcOf(s, t).Program? && (PcOf(s, t).program.Smmu? || PcOf(s, t).program == Restore)
    ensures States(ProgramStep(s, t, PcOf(s, t).program, PcOf(s, t).nx))
  {
  }

  lemma ArmRings(s: Sys, t: Thread)
    requires States(s) && Rings(s)
    requires PcOf(s, t).Program? && (PcOf(s, t).program.Smmu? || PcOf(s, t).program == Restore)
    ensures Rings(ProgramStep(s, t, PcOf(s, t).program, PcOf(s, t).nx))
  {
    assert RingOk(s, s.cur) && RingOk(s, PcOf(s, t).nx);
    var s' := ProgramStep(s, t, PcOf(s, t).program, PcOf(s, t).nx);
    forall i | 0 <= i < |s'.rings| ensures RingOk(s', i) { assert RingOk(s, i); }
  }

  lemma ArmScans(s: Sys, t: Thread)
    requires States(s) && Scans(s)
    requires PcOf(s, t).Program? && (PcOf(s, t).program.Smmu? || PcOf(s, t).program == Restore)
    ensures Scans(ProgramStep(s, t, PcOf(s, t).program, PcOf(s, t).nx))
  {
  }

  // ---------------------------------------------------------------- ... and requests the switch

  lemma FireStates(s: Sys, t: Thread)
    requires States(s)
    requires PcOf(s, t).Program? && (PcOf(s, t).program == Doorbell || PcOf(s, t).program == Claim)
    ensures States(ProgramStep(s, t, PcOf(s, t).program, PcOf(s, t).nx))
  {
  }

  lemma FireRings(s: Sys, t: Thread)
    requires States(s) && Rings(s)
    requires PcOf(s, t).Program? && (PcOf(s, t).program == Doorbell || PcOf(s, t).program == Claim)
    ensures Rings(ProgramStep(s, t, PcOf(s, t).program, PcOf(s, t).nx))
  {
    assert RingOk(s, s.cur) && RingOk(s, PcOf(s, t).nx);
    var s' := ProgramStep(s, t, PcOf(s, t).program, PcOf(s, t).nx);
    forall i | 0 <= i < |s'.rings| ensures RingOk(s', i) { assert RingOk(s, i); }
  }

  lemma FireScans(s: Sys, t: Thread)
    requires States(s) && Scans(s)
    requires PcOf(s, t).Program? && (PcOf(s, t).program == Doorbell || PcOf(s, t).program == Claim)
    ensures Scans(ProgramStep(s, t, PcOf(s, t).program, PcOf(s, t).nx))
  {
  }

  // ---------------------------------------------------------------- The mutex thread starts one of its duties

  lemma LockStates(s: Sys, r: nat)
    requires States(s)
    requires Enabled(s, SubmitLock(r))
    ensures States(Apply(s, SubmitLock(r)))
  {
  }

  lemma LockRings(s: Sys, r: nat)
    requires States(s) && Rings(s)
    requires Enabled(s, SubmitLock(r))
    ensures Rings(Apply(s, SubmitLock(r)))
  {
    var s' := Apply(s, SubmitLock(r));
    forall i | 0 <= i < |s'.rings| ensures RingOk(s', i) { assert RingOk(s, i); }
  }

  lemma LockScans(s: Sys, r: nat)
    requires States(s) && Scans(s)
    requires Enabled(s, SubmitLock(r))
    ensures Scans(Apply(s, SubmitLock(r)))
  {
  }

  lemma BeginStates(s: Sys, e: Event)
    requires States(s)
    requires Enabled(s, e) && (e == ScheduleRead || e == WorkerRead)
    ensures States(Apply(s, e))
  {
  }

  lemma BeginRings(s: Sys, e: Event)
    requires States(s) && Rings(s)
    requires Enabled(s, e) && (e == ScheduleRead || e == WorkerRead)
    ensures Rings(Apply(s, e))
  {
    var s' := Apply(s, e);
    forall i | 0 <= i < |s'.rings| ensures RingOk(s', i) { assert RingOk(s, i); }
  }

  lemma BeginScans(s: Sys, e: Event)
    requires States(s) && Scans(s)
    requires Enabled(s, e) && (e == ScheduleRead || e == WorkerRead)
    ensures Scans(Apply(s, e))
  {
  }

  // ---------------------------------------------------------------- ... and the interrupt thread one of its own

  lemma InterruptStates(s: Sys)
    requires States(s)
    requires Enabled(s, IrqTrigger)
    ensures States(Apply(s, IrqTrigger))
  {
  }

  lemma InterruptRings(s: Sys)
    requires States(s) && Rings(s)
    requires Enabled(s, IrqTrigger)
    ensures Rings(Apply(s, IrqTrigger))
  {
    var s' := Apply(s, IrqTrigger);
    forall i | 0 <= i < |s'.rings| ensures RingOk(s', i) { assert RingOk(s, i); }
  }

  lemma InterruptScans(s: Sys)
    requires States(s) && Scans(s)
    requires Enabled(s, IrqTrigger)
    ensures Scans(Apply(s, IrqTrigger))
  {
  }

  lemma ClaimStates(s: Sys)
    requires States(s)
    requires Enabled(s, CallbackCas) && Orderly(s, CallbackCas)
    ensures States(Apply(s, CallbackCas))
  {
  }

  lemma ClaimRings(s: Sys)
    requires States(s) && Rings(s)
    requires Enabled(s, CallbackCas) && Orderly(s, CallbackCas)
    ensures Rings(Apply(s, CallbackCas))
  {
    assert RingOk(s, s.cp.running) && RingOk(s, s.cp.restore);
    var s' := Apply(s, CallbackCas);
    forall i | 0 <= i < |s'.rings| ensures RingOk(s', i) { assert RingOk(s, i); }
  }

  lemma ClaimScans(s: Sys)
    requires States(s) && Scans(s)
    requires Enabled(s, CallbackCas) && Orderly(s, CallbackCas)
    ensures Scans(Apply(s, CallbackCas))
  {
  }

  // ---------------------------------------------------------------- The timer claims a switch, and a ring is given packets

  lemma TimerStates(s: Sys)
    requires States(s)
    requires Orderly(s, TimerCas)
    ensures States(Apply(s, TimerCas))
  {
  }

  lemma TimerRings(s: Sys)
    requires States(s) && Rings(s)
    requires Orderly(s, TimerCas)
    ensures Rings(Apply(s, TimerCas))
  {
    assert RingOk(s, s.cp.running) && RingOk(s, s.cp.restore);
    var s' := Apply(s, TimerCas);
    forall i | 0 <= i < |s'.rings| ensures RingOk(s', i) { assert RingOk(s, i); }
  }

  lemma TimerScans(s: Sys)
    requires States(s) && Scans(s)
    requires Orderly(s, TimerCas)
    ensures Scans(Apply(s, TimerCas))
  {
  }

  lemma EmitStates(s: Sys, r: nat, block: seq<Packet>)
    requires States(s)
    requires Enabled(s, Emit(r, block))
    ensures States(Apply(s, Emit(r, block)))
  {
  }

  lemma EmitRings(s: Sys, r: nat, block: seq<Packet>)
    requires States(s) && Rings(s)
    requires Enabled(s, Emit(r, block))
    ensures Rings(Apply(s, Emit(r, block)))
  {
    assert RingOk(s, s.cp.running) && RingOk(s, s.cp.restore);
    var s' := Apply(s, Emit(r, block));
    forall i | 0 <= i < |s'.rings| ensures RingOk(s', i) { assert RingOk(s, i); }
  }

  lemma EmitScans(s: Sys, r: nat, block: seq<Packet>)
    requires States(s) && Scans(s)
    requires Enabled(s, Emit(r, block))
    ensures Scans(Apply(s, Emit(r, block)))
  {
  }

  // ---------------------------------------------------------------- The CP executes

  lemma ExecuteStates(s: Sys)
    requires States(s)
    requires Enabled(s, CpExecute)
    ensures States(Apply(s, CpExecute))
  {
  }

  lemma ExecuteRings(s: Sys)
    requires States(s) && Rings(s)
    requires Enabled(s, CpExecute)
    ensures Rings(Apply(s, CpExecute))
  {
    assert RingOk(s, s.cp.running) && RingOk(s, s.cp.restore);
    var s' := Apply(s, CpExecute);
    forall i | 0 <= i < |s'.rings| ensures RingOk(s', i) { assert RingOk(s, i); }
  }

  lemma ExecutePcScan(s: Sys, pc: Pc)
    requires States(s) && Rings(s) && PcScan(s, pc)
    requires Enabled(s, CpExecute) && (pc == s.mutex || pc == s.irq)
    ensures PcScan(Apply(s, CpExecute), pc)
  {
  }

  lemma ExecuteFresh(s: Sys)
    requires States(s) && Rings(s) && Fresh(s) && Scanned(s)
    requires Enabled(s, CpExecute)
    ensures Fresh(Apply(s, CpExecute)) && Scanned(Apply(s, CpExecute))
  {
  }

  lemma ExecuteScans(s: Sys)
    requires States(s) && Rings(s) && Scans(s)
    requires Enabled(s, CpExecute)
    ensures Scans(Apply(s, CpExecute))
  {
    ExecuteFresh(s);
    ExecutePcScan(s, s.mutex);
    ExecutePcScan(s, s.irq);
  }

  // ---------------------------------------------------------------- ... and switches

  lemma SwitchStates(s: Sys)
    requires States(s)
    requires Enabled(s, CpSwitch) && Orderly(s, CpSwitch)
    ensures States(Apply(s, CpSwitch))
  {
  }

  lemma SwitchRings(s: Sys)
    requires States(s) && Rings(s)
    requires Enabled(s, CpSwitch) && Orderly(s, CpSwitch)
    ensures Rings(Apply(s, CpSwitch))
  {
    assert RingOk(s, s.cp.running) && RingOk(s, s.cp.restore);
    var s' := Apply(s, CpSwitch);
    forall i | 0 <= i < |s'.rings| ensures RingOk(s', i) { assert RingOk(s, i); }
  }

  lemma SwitchScans(s: Sys)
    requires States(s) && Rings(s) && Scans(s)
    requires Enabled(s, CpSwitch) && Orderly(s, CpSwitch)
    ensures Scans(Apply(s, CpSwitch))
  {
  }

  // ---------------------------------------------------------------- all of them

  lemma SubmitControl(s: Sys)
    requires Control(s) && s.mutex.Submit?
    ensures Control(SubmitStep(s, s.mutex.at, s.mutex.r))
  {
    match s.mutex.at
    case SawNone => CompareStates(s, s.mutex.r); CompareRings(s, s.mutex.r); CompareScans(s, s.mutex.r);
    case SawCurrent => WriteStates(s, s.mutex.r); WriteRings(s, s.mutex.r); WriteScans(s, s.mutex.r);
    case Publish(_) => PublishStates(s); PublishRings(s); PublishScans(s);
  }

  lemma PollControl(s: Sys, t: Thread, awake: bool)
    requires Control(s) && CanGo(s, t) && PcOf(s, t).Poll?
    ensures Control(PollStep(s, PcOf(s, t).poll, awake))
  {
    match PcOf(s, t).poll
    case DoneStatus => DoneStates(s, awake); DoneRings(s, awake); DoneScans(s, awake);
    case CallbackStatus => CallbackStates(s, awake); CallbackRings(s, awake); CallbackScans(s, awake);
    case CallbackComplete => DeferStates(s, awake); DeferRings(s, awake); DeferScans(s, awake);
    case _ => FaultStates(s, awake); FaultRings(s, awake); FaultScans(s, awake);
  }

  lemma SearchControl(s: Sys, t: Thread)
    requires Control(s) && CanGo(s, t) && PcOf(s, t).Search?
    ensures Control(SearchStep(s, t, PcOf(s, t).search))
  {
    match PcOf(s, t).search
    case Cas =>
      if s.state == NONE {
        EnterStates(s, t); EnterRings(s, t); EnterScans(s, t);
      } else {
        RefuseStates(s, t); RefuseRings(s, t); RefuseScans(s, t);
      }
    case Scan(_) => ScanStates(s, t); ScanRings(s, t); ScanScans(s, t);
    case Pick(_) => ScanStates(s, t); ScanRings(s, t); ScanScans(s, t);
    case _ => LeaveStates(s, t); LeaveRings(s, t); LeaveScans(s, t);
  }

  lemma ProgramControl(s: Sys, t: Thread)
    requires Control(s) && CanGo(s, t) && PcOf(s, t).Program?
    ensures Control(ProgramStep(s, t, PcOf(s, t).program, PcOf(s, t).nx))
  {
    match PcOf(s, t).program
    case Record => RecordStates(s, t, PcOf(s, t).nx); RecordRings(s, t, PcOf(s, t).nx); RecordScans(s, t, PcOf(s, t).nx);
    case Smmu(_) => ArmStates(s, t); ArmRings(s, t); ArmScans(s, t);
    case Restore => ArmStates(s, t); ArmRings(s, t); ArmScans(s, t);
    case _ => FireStates(s, t); FireRings(s, t); FireScans(s, t);
  }

  lemma GoControl(s: Sys, t: Thread, awake: bool)
    requires Control(s) && CanGo(s, t)
    ensures Control(GoStep(s, t, awake))
  {
    match PcOf(s, t)
    case Submit(_, _) => SubmitControl(s);
    case Poll(_) => PollControl(s, t, awake);
    case Finish(end) =>
      if end == Swap {
        SwapStates(s, t); SwapRings(s, t); SwapScans(s, t);
      } else {
        SettleStates(s, t); SettleRings(s, t); SettleScans(s, t);
      }
    case Search(_) => SearchControl(s, t);
    case Program(_, _) => ProgramControl(s, t);
  }

  lemma StepControl(s: Sys, e: Event)
    requires Control(s) && Enabled(s, e) && Orderly(s, e)
    ensures Control(Apply(s, e))
  {
    match e
    case Go(t, awake) => GoControl(s, t, awake);
    case SubmitLock(r) => LockStates(s, r); LockRings(s, r); LockScans(s, r);
    case ScheduleRead => BeginStates(s, e); BeginRings(s, e); BeginScans(s, e);
    case WorkerRead => BeginStates(s, e); BeginRings(s, e); BeginScans(s, e);
    case IrqTrigger => InterruptStates(s); InterruptRings(s); InterruptScans(s);
    case Emit(r, block) => EmitStates(s, r, block); EmitRings(s, r, block); EmitScans(s, r, block);
    case CallbackCas => ClaimStates(s); ClaimRings(s); ClaimScans(s);
    case TimerCas => TimerStates(s); TimerRings(s); TimerScans(s);
    case CpExecute => ExecuteStates(s); ExecuteRings(s); ExecuteScans(s);
    case CpSwitch => SwitchStates(s); SwitchRings(s); SwitchScans(s);
  }
}
