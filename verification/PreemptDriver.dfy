/** The driver's functions as the imperative code they are, each proved to come to what the steps of its thread come to
  when nobody else moves. */
module PreemptDriver {
  import opened PreemptModel
  import opened PreemptTheorems

  // ---------------------------------------------------------------- what the functions come to

  /** cur_rb becomes next_rb, the register is brought up to date and the state cleared. */
  function Swapped(s: Sys): Sys
    requires s.next.Some? && s.next.value < |s.rings|
  {
    UpdateWptr(s.(prev := Some(s.cur), cur := s.next.value, next := None)).(state := NONE)
  }

  function CallbackOutcome(s: Sys): Sys
    requires s.cur < |s.rings| && (s.state == TRIGGERED ==> s.next.Some? && s.next.value < |s.rings|)
  {
    if s.state != TRIGGERED then s
    else if s.cp.cntl then s.(state := COMPLETE)
    else TriggerOutcome(Swapped(s))
  }

  function ScheduleOutcome(s: Sys, awake: bool): Sys
    requires s.cur < |s.rings| && (s.state == COMPLETE ==> s.next.Some? && s.next.value < |s.rings|)
  {
    TriggerOutcome(if s.state == COMPLETE && awake && !s.cp.cntl then Swapped(s) else s)
  }

  function WorkerOutcome(s: Sys, awake: bool): Sys {
    if s.state == FAULTED && awake && !s.cp.cntl then s.(state := COMPLETE) else s
  }

  function SubmitOutcome(s: Sys, r: nat): Sys
    requires r < |s.rings|
  {
    var direct := s.state == NONE && s.cur == r;
    var w := |s.rings[r].stream|;
    WithRing(s, r, s.rings[r].(wptr := w)).(
      cp := if direct then s.cp.(wptr := w) else s.cp,
      misdirected := s.misdirected || (direct && s.cp.running != r),
      dirty := s.dirty + {r},
      missed := if s.cur == r then !direct && (s.missed || s.rings[r].wptr < w) else s.missed)
  }

  // ---------------------------------------------------------------- the steps of a thread on its own come to it

  ghost predicate ComesTo(s: Sys, s': Sys) {
    exists es :: EndsIn(s, es, s')
  }

  lemma Stays(s: Sys)
    ensures ComesTo(s, s)
  {
    assert EndsIn(s, [], s);
  }

  lemma After(s: Sys, e: Event, s': Sys)
    requires Enabled(s, e) && ComesTo(Apply(s, e), s')
    ensures ComesTo(s, s')
  {
    var es :| EndsIn(Apply(s, e), es, s');
    var all := [e] + es;
    assert all[1..] == es;
    assert EndsIn(s, all, s');
  }

  lemma TriggerComes(s: Sys, t: Thread)
    requires !s.mutex.Submit? && s.cur < |s.rings|
    ensures ComesTo(At(s, t, Search(Cas)), At(TriggerOutcome(s), t, Idle))
  {
    AloneTriggers(s, t);
    var es: seq<Event> :| OnlyBy(t, es) && EndsIn(At(s, t, Search(Cas)), es, At(TriggerOutcome(s), t, Idle));
  }

  lemma ChosenForgets(s: Sys, t: Thread, pc: Pc, found: Option<nat>)
    requires s.cur < |s.rings| && (found.Some? ==> found.value < |s.rings|)
    ensures At(Chosen(At(s, t, pc), found), t, Idle) == At(Chosen(s, found), t, Idle)
  {
    var s' := At(s, t, pc);
    if found.Some? && found.value == s.cur {
      assert UpdateWptr(s') == At(UpdateWptr(s), t, pc);
    }
  }

  lemma TriggerForgets(s: Sys, t: Thread, pc: Pc)
    requires s.cur < |s.rings|
    ensures At(TriggerOutcome(At(s, t, pc)), t, Idle) == At(TriggerOutcome(s), t, Idle)
  {
    if s.state == NONE {
      ChosenForgets(s.(state := START, dirty := {}), t, pc, FirstBusy(s.rings, 0));
    }
  }

  lemma ClearComes(s: Sys, t: Thread)
    requires PcOf(s, t) == Finish(Clear) && s.cur < |s.rings| && !s.mutex.Submit?
    ensures ComesTo(s, At(TriggerOutcome(s.(state := NONE)), t, Idle))
  {
    var cleared := s.(state := NONE);
    TriggerComes(cleared, t);
    After(s, Go(t, true), At(TriggerOutcome(cleared), t, Idle));
  }

  lemma UpdateComes(s: Sys, t: Thread)
    requires PcOf(s, t) == Finish(Update) && s.cur < |s.rings| && !s.mutex.Submit?
    ensures ComesTo(s, At(TriggerOutcome(UpdateWptr(s).(state := NONE)), t, Idle))
  {
    var updated := UpdateWptr(s);
    ClearComes(At(updated, t, Finish(Clear)), t);
    TriggerForgets(updated.(state := NONE), t, Finish(Clear));
    After(s, Go(t, true), At(TriggerOutcome(updated.(state := NONE)), t, Idle));
  }

  lemma SwapComes(s: Sys, t: Thread)
    requires PcOf(s, t) == Finish(Swap) && s.next.Some? && s.next.value < |s.rings| && !s.mutex.Submit?
    ensures ComesTo(s, At(TriggerOutcome(Swapped(s)), t, Idle))
  {
    var s1 := FinishStep(s, t, Swap);
    UpdateComes(s1, t);
    assert UpdateWptr(s1).(state := NONE) == At(Swapped(s), t, Finish(Update));
    TriggerForgets(Swapped(s), t, Finish(Update));
    After(s, Go(t, true), At(TriggerOutcome(Swapped(s)), t, Idle));
  }

  lemma CallbackComes(s: Sys)
    requires s.irq == Idle && !s.mutex.Submit? && s.cur < |s.rings|
    requires s.state == TRIGGERED ==> s.next.Some? && s.next.value < |s.rings|
    ensures ComesTo(s, CallbackOutcome(s))
  {
    if s.state == TRIGGERED {
      var s1 := Apply(s, CallbackCas);
      var s2 := Apply(s1, Go(Irq, true));
      if s.cp.cntl {
        Stays(Apply(s2, Go(Irq, true)));
        After(s2, Go(Irq, true), CallbackOutcome(s));
      } else {
        SwapComes(s2, Irq);
        SwappedForgets(s, s2);
      }
      After(s1, Go(Irq, true), CallbackOutcome(s));
    } else {
      Stays(s);
    }
    After(s, CallbackCas, CallbackOutcome(s));
  }

  lemma SwappedForgets(s: Sys, s2: Sys)
    requires s.irq == Idle && s.cur < |s.rings| && s.next.Some? && s.next.value < |s.rings|
    requires s2 == s.(state := PENDING, irq := Finish(Swap))
    ensures At(TriggerOutcome(Swapped(s2)), Irq, Idle) == TriggerOutcome(Swapped(s))
  {
    TriggerForgets(Swapped(s), Irq, Finish(Swap));
    assert Swapped(s2) == At(Swapped(s), Irq, Finish(Swap));
    IrqKept(Swapped(s));
  }

  lemma IrqKept(s: Sys)
    requires s.cur < |s.rings|
    ensures TriggerOutcome(s).irq == s.irq && TriggerOutcome(s).mutex == s.mutex
  {
  }

  lemma ScheduleTriggers(s: Sys, s1: Sys)
    requires s.mutex == Idle && s.cur < |s.rings| && s1 == s.(mutex := Search(Cas))
    ensures ComesTo(s1, TriggerOutcome(s))
  {
    TriggerComes(s, Mutex);
    IrqKept(s);
  }

  lemma ScheduleComes(s: Sys, awake: bool)
    requires s.mutex == Idle && s.cur < |s.rings|
    requires s.state == COMPLETE ==> s.next.Some? && s.next.value < |s.rings|
    ensures ComesTo(s, ScheduleOutcome(s, awake))
  {
    var s1 := Apply(s, ScheduleRead);
    if s.state == COMPLETE {
      var s2 := Apply(s1, Go(Mutex, awake));
      if awake && !s.cp.cntl {
        SwapComes(s2, Mutex);
        assert Swapped(s2) == At(Swapped(s), Mutex, Finish(Swap));
        TriggerForgets(Swapped(s), Mutex, Finish(Swap));
        IrqKept(Swapped(s));
      } else {
        ScheduleTriggers(s, s2);
      }
      After(s1, Go(Mutex, awake), ScheduleOutcome(s, awake));
    } else {
      ScheduleTriggers(s, s1);
    }
    After(s, ScheduleRead, ScheduleOutcome(s, awake));
  }

  lemma FaultComes(s: Sys, awake: bool)
    requires s.mutex == Idle && s.state == FAULTED
    ensures ComesTo(s.(mutex := Poll(FaultStatus)), WorkerOutcome(s, awake))
  {
    var s1 := s.(mutex := Poll(FaultStatus));
    Stays(WorkerOutcome(s, awake));
    if awake && !s.cp.cntl {
      After(s.(mutex := Poll(FaultComplete)), Go(Mutex, awake), WorkerOutcome(s, awake));
    }
    After(s1, Go(Mutex, awake), WorkerOutcome(s, awake));
  }

  lemma WorkerComes(s: Sys, awake: bool)
    requires s.mutex == Idle
    ensures ComesTo(s, WorkerOutcome(s, awake))
  {
    if s.state == FAULTED {
      FaultComes(s, awake);
    } else {
      Stays(s);
    }
    After(s, WorkerRead, WorkerOutcome(s, awake));
  }

  /** A submission that does not write the register. */
  lemma PublishComes(s: Sys, r: nat)
    requires s.mutex == Submit(Publish(false), r) && r < |s.rings|
    ensures ComesTo(s, SubmitStep(s, Publish(false), r))
  {
    Stays(SubmitStep(s, Publish(false), r));
    After(s, Go(Mutex, true), SubmitStep(s, Publish(false), r));
  }

  /** ... and one that does. */
  lemma DirectComes(s: Sys, r: nat)
    requires s.mutex == Idle && s.state == NONE && s.cur == r && r < |s.rings|
    ensures ComesTo(s.(mutex := Submit(SawCurrent, r)), SubmitOutcome(s, r))
  {
    var s2 := s.(mutex := Submit(SawCurrent, r));
    var s3 := SubmitStep(s2, SawCurrent, r);
    Stays(SubmitOutcome(s, r));
    After(s3, Go(Mutex, true), SubmitOutcome(s, r));
    After(s2, Go(Mutex, true), SubmitOutcome(s, r));
  }

  lemma CheckedComes(s: Sys, r: nat)
    requires s.mutex == Idle && s.state == NONE && r < |s.rings|
    ensures ComesTo(s.(mutex := Submit(SawNone, r)), SubmitOutcome(s, r))
  {
    if s.cur == r {
      DirectComes(s, r);
    } else {
      PublishComes(s.(mutex := Submit(Publish(false), r)), r);
    }
    After(s.(mutex := Submit(SawNone, r)), Go(Mutex, true), SubmitOutcome(s, r));
  }

  lemma SubmitComes(s: Sys, r: nat)
    requires s.mutex == Idle && r < |s.rings|
    ensures ComesTo(s, SubmitOutcome(s, r))
  {
    if s.state == NONE {
      CheckedComes(s, r);
    } else {
      PublishComes(s.(mutex := Submit(Publish(false), r)), r);
    }
    After(s, SubmitLock(r), SubmitOutcome(s, r));
  }

  // ---------------------------------------------------------------- the functions

  class AdrenoDevice {
    const ringbuffers: array<Ring>
    const perProcess: bool // kgsl_mmu_is_perprocess

    var preemptState: State
    var cur: nat           // cur_rb, next_rb and prev_rb, by their id
    var next: Option<nat>
    var prev: Option<nat>

    // registers, and the memory the CP reads
    var rbWptr: nat        // A5XX_CP_RB_WPTR
    var switchCntl: bool   // A5XX_CP_CONTEXT_SWITCH_CNTL is not zero
    var restoreAddr: nat   // the ring whose record A5XX_CP_CONTEXT_SWITCH_RESTORE_ADDR names
    var smmuInfo: Table

    // what the CP is doing, and the history the theorems speak of
    ghost var running: nat
    ghost var table: Table
    ghost var dirty: set<nat>
    ghost var missed: bool
    ghost var misdirected: bool

    ghost predicate Valid()
      reads this, ringbuffers
    {
      && cur < ringbuffers.Length
      && (next.Some? ==> next.value < ringbuffers.Length)
      && (preemptState != NONE && preemptState != START ==> next.Some?)
    }

    /** The device as the step machine sees it, both threads idle. */
    ghost function Value(): Sys
      reads this, ringbuffers
    {
      Sys(preemptState, cur, next, prev, ringbuffers[..],
          Cp(running, rbWptr, switchCntl, restoreAddr, table), smmuInfo, perProcess,
          Idle, Idle, dirty, missed, misdirected)
    }

    constructor (n: nat, perProcess: bool)
      requires n > 0
      ensures Valid() && fresh(ringbuffers) && ringbuffers.Length == n && this.perProcess == perProcess
      ensures Init(Value(), Table(0, 0, 0))
    {
      ringbuffers := new Ring[n](_ => Ring([], 0, 0, 0, Table(0, 0, 0)));
      this.perProcess := perProcess;
      preemptState, cur, next, prev := NONE, 0, None, None;
      rbWptr, switchCntl, restoreAddr, smmuInfo := 0, false, 0, Table(0, 0, 0);
      running, table := 0, Table(0, 0, 0);
      dirty, missed, misdirected := {}, false, false;
    }

    /** adreno_move_preempt_state: a compare and exchange. */
    method MovePreemptState(from: State, to: State) returns (moved: bool)
      modifies this`preemptState
      ensures moved == (old(preemptState) == from)
      ensures preemptState == if moved then to else old(preemptState)
    {
      moved := preemptState == from;
      if moved {
        preemptState := to;
      }
    }

    /** _update_wptr, without its dispatcher timer. */
    method UpdateWptr()
      requires cur < ringbuffers.Length
      modifies this`rbWptr, this`missed, this`misdirected
      ensures Value() == PreemptModel.UpdateWptr(old(Value()))
    {
      if rbWptr != ringbuffers[cur].wptr {
        misdirected := misdirected || running != cur;
        rbWptr := ringbuffers[cur].wptr;
      }
      missed := false;
    }

    /** a5xx_next_ringbuffer: the lowest-numbered ring with something to do. */
    method NextRingbuffer() returns (found: Option<nat>)
      ensures found == FirstBusy(ringbuffers[..], 0)
      ensures found.Some? ==>
                && found.value < ringbuffers.Length && !Empty(ringbuffers[found.value])
                && forall j :: 0 <= j < found.value ==> Empty(ringbuffers[j])
      ensures found == None ==> forall j :: 0 <= j < ringbuffers.Length ==> Empty(ringbuffers[j])
    {
      var i := 0;
      while i < ringbuffers.Length
        invariant i <= ringbuffers.Length
        invariant FirstBusy(ringbuffers[..], 0) == FirstBusy(ringbuffers[..], i)
      {
        if !Empty(ringbuffers[i]) {
          return Some(i);
        }
        i := i + 1;
      }
      found := None;
    }

    /** The second half of a5xx_preemption_trigger: point the CP at ring nx and request the switch. */
    method ProgramSwitch(nx: nat)
      requires nx < ringbuffers.Length && nx != cur && cur < ringbuffers.Length
      modifies this, ringbuffers
      ensures Valid()
      ensures Value() == Chosen(old(Value()), Some(nx))
    {
      var restored := ringbuffers[nx].scratch;
      ringbuffers[nx] := ringbuffers[nx].(record := ringbuffers[nx].wptr);
      if perProcess {
        smmuInfo := restored;
      }
      restoreAddr := nx;
      next := Some(nx);
      preemptState := TRIGGERED;
      switchCntl := true;
    }

    method PreemptionTrigger()
      requires Valid()
      modifies this, ringbuffers
      ensures Valid()
      ensures Value() == TriggerOutcome(old(Value()))
    {
      var claimed := MovePreemptState(NONE, START);
      if !claimed {
        return;
      }
      dirty := {};
      var found := NextRingbuffer();
      if found == None || found.value == cur {
        if found != None {
          UpdateWptr();
        }
        preemptState := NONE;
        return;
      }
      ProgramSwitch(found.value);
    }

    /** What the callback and _a5xx_preemption_done do once the CP has finished. */
    method FinishSwitch()
      requires next.Some? && next.value < ringbuffers.Length
      modifies this
      ensures Valid()
      ensures Value() == Swapped(old(Value()))
      ensures prev == Some(old(cur)) && Some(cur) == old(next) && next == None && preemptState == NONE
      ensures rbWptr == ringbuffers[cur].wptr && switchCntl == old(switchCntl) && restoreAddr == old(restoreAddr)
    {
      prev := Some(cur);
      cur := next.value;
      next := None;
      UpdateWptr();
      preemptState := NONE;
    }

    method PreemptCallback()
      requires Valid()
      modifies this, ringbuffers
      ensures Valid()
      ensures Value() == CallbackOutcome(old(Value()))
      ensures old(preemptState) != TRIGGERED ==> Value() == old(Value())
      ensures old(preemptState) == TRIGGERED && old(switchCntl) ==> Value() == old(Value()).(state := COMPLETE)
      ensures old(preemptState) == TRIGGERED && !old(switchCntl) ==> Value() == TriggerOutcome(Swapped(old(Value())))
    {
      var claimed := MovePreemptState(TRIGGERED, PENDING);
      if !claimed {
        return;
      }
      if switchCntl {
        preemptState := COMPLETE;
        return;
      }
      FinishSwitch();
      PreemptionTrigger();
    }

    /** a5xx_preemption_schedule with _a5xx_preemption_done; `fault` is a call of adreno_dispatcher_fault. */
    method PreemptionSchedule(awake: bool) returns (fault: bool)
      requires Valid()
      modifies this, ringbuffers
      ensures Valid()
      ensures Value() == ScheduleOutcome(old(Value()), awake)
      ensures old(preemptState) == NONE ==> Value() == TriggerOutcome(old(Value()))
      ensures old(preemptState) == COMPLETE && awake && !old(switchCntl) ==> Value() == TriggerOutcome(Swapped(old(Value())))
      ensures old(preemptState) != NONE && !(old(preemptState) == COMPLETE && awake && !old(switchCntl)) ==> Value() == old(Value())
      ensures fault == (old(preemptState) == COMPLETE && awake && old(switchCntl))
    {
      fault := false;
      if preemptState == COMPLETE && awake {
        if switchCntl {
          fault := true;
        } else {
          FinishSwitch();
        }
      }
      PreemptionTrigger();
    }

    /** _a5xx_preemption_worker with _a5xx_preemption_fault. */
    method PreemptionWorker(awake: bool) returns (fault: bool)
      requires Valid()
      modifies this`preemptState
      ensures Valid()
      ensures Value() == WorkerOutcome(old(Value()), awake)
      ensures preemptState == if old(preemptState) == FAULTED && awake && !switchCntl then COMPLETE else old(preemptState)
      ensures fault == (old(preemptState) == FAULTED && !(awake && !switchCntl))
    {
      fault := false;
      if preemptState == FAULTED {
        if awake && !switchCntl {
          preemptState := COMPLETE;
        } else {
          fault := true;
        }
      }
    }

    /** adreno_preemption_timer; `queued` is a call of the worker. */
    method PreemptionTimer() returns (queued: bool)
      requires Valid()
      modifies this`preemptState
      ensures Valid() && Value() == Apply(old(Value()), TimerCas)
      ensures queued == (old(preemptState) == TRIGGERED)
      ensures preemptState == if queued then FAULTED else old(preemptState)
    {
      queued := MovePreemptState(TRIGGERED, FAULTED);
    }

    /** rb->wptr = rb->_wptr. */
    method Publish(r: nat)
      requires r < ringbuffers.Length
      modifies ringbuffers
      ensures ringbuffers[..] == old(ringbuffers[..])[r := old(ringbuffers[r]).(wptr := |old(ringbuffers[r]).stream|)]
    {
      ringbuffers[r] := ringbuffers[r].(wptr := |ringbuffers[r].stream|);
    }

    /** Under the ring's lock: the register, for the current ring in state NONE; else a note that it was left alone. */
    method WriteDirect(r: nat)
      requires r < ringbuffers.Length
      modifies this`rbWptr, this`missed, this`misdirected
      ensures var w, direct := |ringbuffers[r].stream|, preemptState == NONE && cur == r;
              && rbWptr == (if direct then w else old(rbWptr))
              && misdirected == (old(misdirected) || (direct && running != r))
              && missed == if cur == r then !direct && (old(missed) || ringbuffers[r].wptr < w) else old(missed)
    {
      if preemptState == NONE && cur == r {
        misdirected := misdirected || running != r;
        rbWptr := |ringbuffers[r].stream|;
        missed := false;
      } else if cur == r {
        missed := missed || ringbuffers[r].wptr < |ringbuffers[r].stream|;
      }
    }

    /** a5xx_ringbuffer_submit, without its dispatcher timer: whatever the state, all that the ring was given is published,
      and it is written to the register exactly for the current ring in state NONE. */
    method Submit(r: nat)
      requires Valid() && r < ringbuffers.Length
      modifies this, ringbuffers
      ensures Valid()
      ensures Value() == SubmitOutcome(old(Value()), r)
      ensures ringbuffers[r] == old(ringbuffers[r]).(wptr := |old(ringbuffers[r]).stream|)
      ensures forall j :: 0 <= j < ringbuffers.Length && j != r ==> ringbuffers[j] == old(ringbuffers[j])
      ensures rbWptr == if old(preemptState) == NONE && old(cur) == r then |ringbuffers[r].stream| else old(rbWptr)
      ensures preemptState == old(preemptState) && cur == old(cur) && next == old(next) && prev == old(prev)
      ensures switchCntl == old(switchCntl) && restoreAddr == old(restoreAddr) && smmuInfo == old(smmuInfo)
    {
      WriteDirect(r);
      dirty := dirty + {r};
      Publish(r);
    }
  }
}
