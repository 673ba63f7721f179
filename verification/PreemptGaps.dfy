/** The orderings that PreemptModel.Orderly asks for are exactly the ones the driver needs: break one in any reachable
  state, and a continuation that breaks no other ends in a CPU write meant for one ring hitting another. */
module PreemptGaps {
  import opened PreemptModel
  import opened PreemptInv
  import opened PreemptSteps
  import opened PreemptTheorems

  /** Some orderly continuation writes A5XX_CP_RB_WPTR for a ring the CP does not run. */
  ghost predicate CanMisdirect(s: Sys) {
    exists es :: LegalOrderly(s, es) && Misdirects(s, es)
  }

  predicate Misdirects(s: Sys, es: seq<Event>) {
    Legal(s, es) && Run(s, es).misdirected
  }

  lemma Already(s: Sys)
    requires s.misdirected
    ensures CanMisdirect(s)
  {
    assert LegalOrderly(s, []) && Misdirects(s, []);
  }

  lemma Before(s: Sys, e: Event)
    requires Enabled(s, e) && Orderly(s, e) && CanMisdirect(Apply(s, e))
    ensures CanMisdirect(s)
  {
    var s' := Apply(s, e);
    var es :| LegalOrderly(s', es) && Misdirects(s', es);
    var all := [e] + es;
    assert all[1..] == es;
    assert LegalOrderly(s, all) && Misdirects(s, all);
  }

  // ---------------------------------------------------------------- the CP switches inside a submission's window

  lemma WindowSlips(s: Sys)
    requires InWindow(s) && s.cur < |s.rings| && s.cp.running != s.cur
    ensures CanMisdirect(s)
  {
    var s1 := Apply(s, Go(Mutex, true));
    if s.mutex.at == SawCurrent {
      Already(s1);
    } else {
      Already(Apply(s1, Go(Mutex, true)));
      Before(s1, Go(Mutex, true));
    }
    Before(s, Go(Mutex, true));
  }

  lemma SubmitSlips(s: Sys)
    requires s.mutex == Idle && s.state == NONE && s.cur < |s.rings| && s.cp.running != s.cur
    ensures CanMisdirect(s)
  {
    WindowSlips(Apply(s, SubmitLock(s.cur)));
    Before(s, SubmitLock(s.cur));
  }

  // ---------------------------------------------------------------- the interrupt claims a switch not yet requested

  /** The interrupt thread finishes a switch to nx, whose doorbell the mutex thread has yet to ring. */
  predicate Early(s: Sys, nx: nat) {
    && s.mutex == Program(Doorbell, nx) && nx < |s.rings|
    && !s.cp.cntl && s.cp.running < |s.rings| && s.cp.running != nx
    && (s.irq == Poll(CallbackStatus) || s.irq == Finish(Swap) ==> s.next == Some(nx))
    && (s.irq == Finish(Update) || s.irq == Finish(Clear) ==> s.cur == nx)
  }

  lemma ClearSlips(s: Sys, nx: nat)
    requires Early(s, nx) && s.irq == Finish(Clear)
    ensures CanMisdirect(s)
  {
    var s1 := Apply(s, Go(Irq, true));
    SubmitSlips(Apply(s1, Go(Mutex, true)));
    Before(s1, Go(Mutex, true));
    Before(s, Go(Irq, true));
  }

  lemma CallbackSlips(s: Sys, nx: nat)
    requires Early(s, nx) && s.irq == Poll(CallbackStatus)
    ensures CanMisdirect(s)
  {
    var s1 := Apply(s, Go(Irq, true));
    var s2 := Apply(s1, Go(Irq, true));
    var s3 := Apply(s2, Go(Irq, true));
    ClearSlips(s3, nx);
    Before(s2, Go(Irq, true));
    Before(s1, Go(Irq, true));
    Before(s, Go(Irq, true));
  }

  // ---------------------------------------------------------------- the timer does

  /** The timer has claimed a switch to nx, whose doorbell the interrupt thread has yet to ring. */
  predicate Expired(s: Sys, nx: nat) {
    && s.irq == Program(Doorbell, nx) && nx < |s.rings| && s.next == Some(nx)
    && !s.cp.cntl && s.cp.running == s.cur && s.cur < |s.rings| && s.cur != nx
  }

  lemma UpdateSlips(s: Sys, nx: nat)
    requires Expired(s, nx) && s.mutex == Finish(Swap) && s.cp.wptr != s.rings[nx].wptr
    ensures CanMisdirect(s)
  {
    var s1 := Apply(s, Go(Mutex, true));
    Already(Apply(s1, Go(Mutex, true)));
    Before(s1, Go(Mutex, true));
    Before(s, Go(Mutex, true));
  }

  lemma WorkerSlips(s: Sys, nx: nat)
    requires Expired(s, nx) && s.mutex == Idle && s.state == FAULTED && s.cp.wptr != s.rings[nx].wptr
    ensures CanMisdirect(s)
  {
    var s1 := Apply(s, WorkerRead);
    var s2 := Apply(s1, Go(Mutex, true));
    var s3 := Apply(s2, Go(Mutex, true));
    var s4 := Apply(s3, ScheduleRead);
    UpdateSlips(Apply(s4, Go(Mutex, true)), nx);
    Before(s4, Go(Mutex, true));
    Before(s3, ScheduleRead);
    Before(s2, Go(Mutex, true));
    Before(s1, Go(Mutex, true));
    Before(s, WorkerRead);
  }

  /** Ring nx has been given more, and its submission is about to be published. */
  lemma GivenSlips(s: Sys, nx: nat)
    requires Expired(s, nx) && s.mutex == Idle && s.state == FAULTED && s.cp.wptr != |s.rings[nx].stream|
    ensures CanMisdirect(s)
  {
    var s1 := Apply(s, SubmitLock(nx));
    WorkerSlips(Apply(s1, Go(Mutex, true)), nx);
    Before(s1, Go(Mutex, true));
    Before(s, SubmitLock(nx));
  }

  /** Give the incoming ring something the register cannot happen to name already. */
  lemma ExpiredSlips(s: Sys, nx: nat)
    requires Expired(s, nx) && s.mutex == Idle && s.state == FAULTED
    ensures CanMisdirect(s)
  {
    var n := |s.rings[nx].stream|;
    var block := if n == s.cp.wptr then [Work] else [];
    assert WellFormed(block) by { assert [Work][..0] == []; }
    GivenSlips(Apply(s, Emit(nx, block)), nx);
    Before(s, Emit(nx, block));
  }

  lemma SubmitDrains(s: Sys, nx: nat)
    requires Expired(s, nx) && s.state == FAULTED && s.mutex.Submit? && s.mutex.r < |s.rings|
    ensures CanMisdirect(s)
    decreases match s.mutex.at case SawNone => 3 case SawCurrent => 2 case Publish(_) => 1
  {
    var s' := Apply(s, Go(Mutex, true));
    if s.mutex.at.Publish? {
      ExpiredSlips(s', nx);
    } else {
      SubmitDrains(s', nx);
    }
    Before(s, Go(Mutex, true));
  }

  lemma TimerSlips(s: Sys, nx: nat)
    requires Control(s) && s.irq == Program(Doorbell, nx)
    ensures CanMisdirect(Apply(s, TimerCas))
  {
    var s' := Apply(s, TimerCas);
    if s.mutex == Idle {
      ExpiredSlips(s', nx);
    } else if s.mutex.Submit? {
      SubmitDrains(s', nx);
    } else {
      assert s.mutex == Search(Cas);
      ExpiredSlips(Apply(s', Go(Mutex, true)), nx);
      Before(s', Go(Mutex, true));
    }
  }

  // ---------------------------------------------------------------- exactly

  lemma OrderlyStaysDirected(s: Sys, es: seq<Event>)
    requires Control(s) && LegalOrderly(s, es)
    ensures !Misdirects(s, es)
  {
    RunControl(s, es);
  }

  lemma DisorderSlips(s: Sys, e: Event)
    requires Control(s) && Enabled(s, e) && !Orderly(s, e)
    ensures CanMisdirect(Apply(s, e))
  {
    if e == CpSwitch {
      WindowSlips(Apply(s, e));
    } else if e == CallbackCas {
      CallbackSlips(Apply(s, e), s.mutex.nx);
    } else {
      TimerSlips(s, s.irq.nx);
    }
  }

  /** In every state an orderly run reaches, a step is orderly exactly when it cannot lead, through orderly steps, to a
    write of the register for a ring the CP does not run. */
  lemma OrderlyExactly(s: Sys, e: Event, initial: Table)
    requires Reachable(s, initial) && Enabled(s, e)
    ensures Orderly(s, e) <==> !CanMisdirect(Apply(s, e))
  {
    ReachableControl(s, initial);
    if Orderly(s, e) {
      StepControl(s, e);
      forall more | LegalOrderly(Apply(s, e), more) ensures !Misdirects(Apply(s, e), more) {
        OrderlyStaysDirected(Apply(s, e), more);
      }
    } else {
      DisorderSlips(s, e);
    }
  }
}
