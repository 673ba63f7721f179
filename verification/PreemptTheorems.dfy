/** What holds over whole runs of the preemption protocol, where it fails, and what repairs it. */
module PreemptTheorems {
  import opened PreemptModel
  import opened PreemptInv
  import opened PreemptSteps
  import opened PreemptTables

  // ---------------------------------------------------------------- runs

  predicate EndsIn(s: Sys, es: seq<Event>, s': Sys) {
    Legal(s, es) && Run(s, es) == s'
  }

  /** Some orderly run from start-up, of any length and with any number of rings, leads here. */
  ghost predicate Reachable(s: Sys, initial: Table) {
    exists s0: Sys, es: seq<Event> :: Init(s0, initial) && LegalOrderly(s0, es) && EndsIn(s0, es, s)
  }

  lemma {:induction false} RunControl(s: Sys, es: seq<Event>)
    requires Control(s) && LegalOrderly(s, es)
    ensures Legal(s, es) && Control(Run(s, es))
    decreases |es|
  {
    if es != [] {
      StepControl(s, es[0]);
      RunControl(Apply(s, es[0]), es[1..]);
    }
  }

  lemma GoPerProcess(s: Sys, t: Thread, awake: bool)
    requires CanGo(s, t)
    ensures GoStep(s, t, awake).perProcess == s.perProcess
  {
    match PcOf(s, t)
    case Search(search) => SearchPerProcess(s, t, search);
    case Program(program, nx) => ProgramPerProcess(s, t, program, nx);
    case _ =>
  }

  lemma SearchPerProcess(s: Sys, t: Thread, search: SearchPc)
    requires search == Catchup ==> s.cur < |s.rings|
    ensures SearchStep(s, t, search).perProcess == s.perProcess
  {
  }

  lemma ProgramPerProcess(s: Sys, t: Thread, program: ProgramPc, nx: nat)
    requires program == Record ==> nx < |s.rings|
    ensures ProgramStep(s, t, program, nx).perProcess == s.perProcess
  {
  }

  lemma StepPerProcess(s: Sys, e: Event)
    requires Enabled(s, e)
    ensures Apply(s, e).perProcess == s.perProcess
  {
    if e.Go? {
      GoPerProcess(s, e.t, e.awake);
    }
  }

  lemma {:induction false} RunTables(s: Sys, es: seq<Event>, initial: Table)
    requires Control(s) && (s.perProcess ==> Tables(s, initial)) && LegalOrderly(s, es)
    ensures Legal(s, es) && (Run(s, es).perProcess ==> Tables(Run(s, es), initial))
    decreases |es|
  {
    if es != [] {
      StepControl(s, es[0]);
      StepPerProcess(s, es[0]);
      if s.perProcess { StepTables(s, es[0], initial); }
      RunTables(Apply(s, es[0]), es[1..], initial);
    }
  }

  lemma ReachableControl(s: Sys, initial: Table)
    requires Reachable(s, initial)
    ensures Control(s)
  {
    var s0: Sys, es: seq<Event> :| Init(s0, initial) && LegalOrderly(s0, es) && EndsIn(s0, es, s);
    InitControl(s0, initial);
    RunControl(s0, es);
  }

  lemma ReachableTables(s: Sys, initial: Table)
    requires Reachable(s, initial) && s.perProcess
    ensures Tables(s, initial)
  {
    var s0: Sys, es: seq<Event> :| Init(s0, initial) && LegalOrderly(s0, es) && EndsIn(s0, es, s);
    InitControl(s0, initial);
    if s0.perProcess { InitTables(s0, initial); }
    RunTables(s0, es, initial);
  }

  // ---------------------------------------------------------------- safety of the write pointer register

  /** In every orderly run every CPU write to A5XX_CP_RB_WPTR reached the ring it was meant for, the CP is never
    told to read past what its ring was given (nor past what is published, outside a submission's lock), and rings
    are swapped only when CONTEXT_SWITCH_CNTL reads 0 and the CP already runs the ring swapped in. */
  lemma RegisterSafety(s: Sys, initial: Table)
    requires Reachable(s, initial)
    ensures !s.misdirected
    ensures var running := s.cp.running;
            && running < |s.rings|
            && s.rings[running].rptr <= s.cp.wptr <= |s.rings[running].stream|
            && (!s.mutex.Submit? ==> s.cp.wptr <= s.rings[running].wptr)
    ensures forall t :: PcOf(s, t) == Finish(Swap) ==> !s.cp.cntl && s.next == Some(s.cp.running)
  {
    ReachableControl(s, initial);
    assert RingOk(s, s.cp.running);
  }

  /** The CP always walks the table its running ring's own packets last installed; in particular the table written to
    smmu_info by the trigger is the one the incoming ring was using. */
  lemma PageTableAgreement(s: Sys, initial: Table)
    requires Reachable(s, initial) && s.perProcess
    ensures var running := s.cp.running;
            && running < |s.rings| && s.rings[running].rptr <= |s.rings[running].stream|
            && s.cp.table == LastTable(s.rings[running].stream[..s.rings[running].rptr], initial)
    ensures forall r :: 0 <= r < |s.rings| && AtYield(s.rings[r]) ==>
              && s.rings[r].rptr <= |s.rings[r].stream|
              && s.rings[r].scratch == LastTable(s.rings[r].stream[..s.rings[r].rptr], initial)
  {
    ReachableTables(s, initial);
    assert RingTable(s.rings[s.cp.running], initial);
    forall r | 0 <= r < |s.rings| && AtYield(s.rings[r])
      ensures s.rings[r].rptr <= |s.rings[r].stream|
      ensures s.rings[r].scratch == LastTable(s.rings[r].stream[..s.rings[r].rptr], initial)
    {
      assert RingTable(s.rings[r], initial);
      YieldAgree(s.rings[r], initial);
    }
  }

  // ---------------------------------------------------------------- ownership of the state word

  /** The moves of `preempt.state`. */
  predicate Edge(a: State, b: State) {
    match a
    case NONE => b == START
    case START => b == NONE || b == TRIGGERED
    case TRIGGERED => b == PENDING || b == FAULTED
    case PENDING => b == NONE || b == COMPLETE
    case FAULTED => b == COMPLETE
    case COMPLETE => b == NONE
  }

  /** No step leaves the diagram above, and at every program point that is followed by an unconditional store the state
    is the one its writer left (but a timer may have turned the mutex thread's TRIGGERED into FAULTED before the
    doorbell). While a switch is outstanding next_rb is set and differs from cur_rb; the thread that swaps never finds
    it NULL. */
  lemma StoreOwnership(s: Sys, e: Event, initial: Table)
    requires Reachable(s, initial) && Enabled(s, e)
    ensures s.state == Apply(s, e).state || Edge(s.state, Apply(s, e).state)
    ensures forall t :: Relies(t, PcOf(s, t)).Some? ==>
              || s.state == Relies(t, PcOf(s, t)).value
              || (s.state == FAULTED && t == Mutex && AtDoorbell(s.mutex))
    ensures s.state == TRIGGERED || s.state == FAULTED || (s.state == COMPLETE && !AfterSwap(s.mutex)) ==>
              s.next.Some? && s.next.value != s.cur
    ensures forall t :: PcOf(s, t) == Finish(Swap) ==> s.next.Some? && s.next.value != s.cur
  {
    ReachableControl(s, initial);
    Moves(s, e);
  }

  lemma SearchMoves(s: Sys, t: Thread, search: SearchPc)
    requires Owned(s) && CanGo(s, t) && PcOf(s, t) == Search(search)
    ensures var s' := SearchStep(s, t, search); s.state == s'.state || Edge(s.state, s'.state)
  {
  }

  lemma ProgramMoves(s: Sys, t: Thread, program: ProgramPc, nx: nat)
    requires Owned(s) && CanGo(s, t) && PcOf(s, t) == Program(program, nx)
    ensures var s' := ProgramStep(s, t, program, nx); s.state == s'.state || Edge(s.state, s'.state)
  {
  }

  lemma GoMoves(s: Sys, t: Thread, awake: bool)
    requires Owned(s) && CanGo(s, t)
    ensures var s' := GoStep(s, t, awake); s.state == s'.state || Edge(s.state, s'.state)
  {
    match PcOf(s, t)
    case Search(search) => SearchMoves(s, t, search);
    case Program(program, nx) => ProgramMoves(s, t, program, nx);
    case _ =>
  }

  lemma Moves(s: Sys, e: Event)
    requires Owned(s) && Enabled(s, e)
    ensures s.state == Apply(s, e).state || Edge(s.state, Apply(s, e).state)
  {
    if e.Go? {
      GoMoves(s, e.t, e.awake);
    }
  }

  /** A thread that is not idle can go on, or waits for the lock of a submission that can. */
  lemma NoDeadlock(s: Sys, t: Thread, initial: Table)
    requires Reachable(s, initial) && PcOf(s, t) != Idle
    ensures CanGo(s, t) || (t == Irq && s.mutex.Submit? && CanGo(s, Mutex))
  {
    ReachableControl(s, initial);
  }

  /** The ring the trigger settles on had work when it was scanned, and so had no ring of higher priority, unless one
    was published to since the trigger claimed START. */
  lemma HighestPriority(s: Sys, t: Thread, nx: nat, initial: Table)
    requires Reachable(s, initial) && PcOf(s, t) == Program(Claim, nx)
    ensures nx < |s.rings| && nx != s.cur && s.rings[nx].rptr < s.rings[nx].record <= s.rings[nx].wptr
    ensures forall j :: 0 <= j < nx ==> j in s.dirty || Empty(s.rings[j])
  {
    ReachableControl(s, initial);
  }

  /** Only a switch to a ring of strictly higher priority, asked for by the interrupt thread, can be outstanding while a
    submission to the current ring has read NONE and not yet written the register: a scan for any other ring waits for
    that submission's lock. */
  lemma OnlyHigherOvertakes(s: Sys, initial: Table)
    requires Reachable(s, initial) && InWindow(s) && Requested(s)
    ensures s.next.Some? && s.next.value < s.cur && s.cp.running == s.cur
  {
    ReachableControl(s, initial);
  }

  // ---------------------------------------------------------------- the uninterrupted trigger

  /** The first ring at or after i that is not empty. */
  function FirstBusy(rings: seq<Ring>, i: nat): (found: Option<nat>)
    requires i <= |rings|
    ensures found.Some? ==> i <= found.value < |rings| && !Empty(rings[found.value])
    ensures forall j :: i <= j < (if found.Some? then found.value else |rings|) ==> Empty(rings[j])
    decreases |rings| - i
  {
    if i == |rings| then None
    else if Empty(rings[i]) then FirstBusy(rings, i + 1)
    else Some(i)
  }

  /** What the trigger does once it has found a ring, or none. */
  function Chosen(s: Sys, found: Option<nat>): Sys
    requires s.cur < |s.rings| && (found.Some? ==> found.value < |s.rings|)
  {
    if found == None then s.(state := NONE)
    else if found.value == s.cur then UpdateWptr(s).(state := NONE)
    else
      var nx := found.value;
      s.(state := TRIGGERED, next := Some(nx),
         rings := s.rings[nx := s.rings[nx].(record := s.rings[nx].wptr)],
         smmu := if s.perProcess then s.rings[nx].scratch else s.smmu,
         cp := s.cp.(restore := nx, cntl := true))
  }

  /** What a5xx_preemption_trigger amounts to when nobody interferes. */
  function TriggerOutcome(s: Sys): Sys
    requires s.cur < |s.rings|
  {
    if s.state == NONE then Chosen(s.(state := START, dirty := {}), FirstBusy(s.rings, 0)) else s
  }

  // Thread t runs on, with nobody else moving: a list of its own steps leads from s to s'.

  predicate OnlyBy(t: Thread, es: seq<Event>) {
    forall e :: e in es ==> e == Go(t, true)
  }

  ghost predicate GoesTo(s: Sys, t: Thread, s': Sys) {
    exists es: seq<Event> :: OnlyBy(t, es) && EndsIn(s, es, s')
  }

  lemma GoesNowhere(s: Sys, t: Thread)
    ensures GoesTo(s, t, s)
  {
    assert OnlyBy(t, []) && EndsIn(s, [], s);
  }

  lemma GoesOn(s: Sys, t: Thread, s': Sys)
    requires CanGo(s, t) && GoesTo(GoStep(s, t, true), t, s')
    ensures GoesTo(s, t, s')
  {
    var es: seq<Event> :| OnlyBy(t, es) && EndsIn(GoStep(s, t, true), es, s');
    var all := [Go(t, true)] + es;
    assert all[1..] == es;
    assert OnlyBy(t, all) && EndsIn(s, all, s');
  }

  lemma ScanStops(s: Sys, t: Thread, i: nat, s': Sys)
    requires !s.mutex.Submit? && i <= |s.rings| && (i < |s.rings| ==> !Empty(s.rings[i]))
    requires GoesTo(At(s, t, Search(Pick(if i < |s.rings| then Some(i) else None))), t, s')
    ensures GoesTo(At(s, t, Search(Scan(i))), t, s')
  {
    GoesOn(At(s, t, Search(Scan(i))), t, s');
  }

  lemma ScanPasses(s: Sys, t: Thread, i: nat, s': Sys)
    requires !s.mutex.Submit? && i < |s.rings| && Empty(s.rings[i])
    requires GoesTo(At(s, t, Search(Scan(i + 1))), t, s')
    ensures GoesTo(At(s, t, Search(Scan(i))), t, s')
  {
    GoesOn(At(s, t, Search(Scan(i))), t, s');
  }

  lemma {:induction false} ScanGoes(s: Sys, t: Thread, i: nat, s': Sys)
    requires !s.mutex.Submit? && i <= |s.rings|
    requires GoesTo(At(s, t, Search(Pick(FirstBusy(s.rings, i)))), t, s')
    ensures GoesTo(At(s, t, Search(Scan(i))), t, s')
    decreases |s.rings| - i
  {
    if i < |s.rings| && Empty(s.rings[i]) {
      ScanGoes(s, t, i + 1, s');
      ScanPasses(s, t, i, s');
    } else {
      ScanStops(s, t, i, s');
    }
  }

  lemma DoorbellGoes(s: Sys, t: Thread, nx: nat)
    ensures GoesTo(At(s, t, Program(Claim, nx)), t, At(s.(state := TRIGGERED, cp := s.cp.(cntl := true)), t, Idle))
  {
    var claimed, rung := s.(state := TRIGGERED), s.(state := TRIGGERED, cp := s.cp.(cntl := true));
    GoesNowhere(At(rung, t, Idle), t);
    GoesOn(At(claimed, t, Program(Doorbell, nx)), t, At(rung, t, Idle));
    GoesOn(At(s, t, Program(Claim, nx)), t, At(rung, t, Idle));
  }

  lemma RestoreGoes(s: Sys, t: Thread, nx: nat)
    ensures GoesTo(At(s, t, Program(Restore, nx)), t,
                   At(s.(state := TRIGGERED, next := Some(nx), cp := s.cp.(restore := nx, cntl := true)), t, Idle))
  {
    DoorbellGoes(s.(next := Some(nx), cp := s.cp.(restore := nx)), t, nx);
    GoesOn(At(s, t, Program(Restore, nx)), t,
           At(s.(state := TRIGGERED, next := Some(nx), cp := s.cp.(restore := nx, cntl := true)), t, Idle));
  }

  lemma SmmuGoes(s: Sys, t: Thread, nx: nat, table: Table)
    ensures GoesTo(At(s, t, Program(Smmu(table), nx)), t,
                   At(s.(state := TRIGGERED, next := Some(nx), smmu := if s.perProcess then table else s.smmu,
                         cp := s.cp.(restore := nx, cntl := true)), t, Idle))
  {
    var written := s.(smmu := if s.perProcess then table else s.smmu);
    RestoreGoes(written, t, nx);
    GoesOn(At(s, t, Program(Smmu(table), nx)), t,
           At(written.(state := TRIGGERED, next := Some(nx), cp := s.cp.(restore := nx, cntl := true)), t, Idle));
  }

  lemma RecordGoes(s: Sys, t: Thread, nx: nat)
    requires !s.mutex.Submit? && s.cur < |s.rings| && nx < |s.rings| && nx != s.cur
    ensures GoesTo(At(s, t, Program(Record, nx)), t, At(Chosen(s, Some(nx)), t, Idle))
  {
    var recorded := WithRing(s, nx, s.rings[nx].(record := s.rings[nx].wptr));
    SmmuGoes(recorded, t, nx, s.rings[nx].scratch);
    GoesOn(At(s, t, Program(Record, nx)), t, At(Chosen(s, Some(nx)), t, Idle));
  }

  lemma AbandonGoes(s: Sys, t: Thread)
    ensures GoesTo(At(s, t, Search(Abandon)), t, At(s.(state := NONE), t, Idle))
  {
    GoesNowhere(At(s.(state := NONE), t, Idle), t);
    GoesOn(At(s, t, Search(Abandon)), t, At(s.(state := NONE), t, Idle));
  }

  lemma CatchupGoes(s: Sys, t: Thread)
    requires !s.mutex.Submit? && s.cur < |s.rings|
    ensures GoesTo(At(s, t, Search(Catchup)), t, At(UpdateWptr(s).(state := NONE), t, Idle))
  {
    AbandonGoes(UpdateWptr(s), t);
    GoesOn(At(s, t, Search(Catchup)), t, At(UpdateWptr(s).(state := NONE), t, Idle));
  }

  lemma ChoiceGoes(s: Sys, t: Thread, found: Option<nat>)
    requires !s.mutex.Submit? && s.cur < |s.rings| && (found.Some? ==> found.value < |s.rings|)
    ensures GoesTo(SearchStep(At(s, t, Search(Pick(found))), t, Pick(found)), t, At(Chosen(s, found), t, Idle))
  {
    if found == None {
      AbandonGoes(s, t);
    } else if found.value == s.cur {
      CatchupGoes(s, t);
    } else {
      RecordGoes(s, t, found.value);
    }
  }

  lemma PickGoes(s: Sys, t: Thread, found: Option<nat>)
    requires !s.mutex.Submit? && s.cur < |s.rings| && (found.Some? ==> found.value < |s.rings|)
    ensures GoesTo(At(s, t, Search(Pick(found))), t, At(Chosen(s, found), t, Idle))
  {
    ChoiceGoes(s, t, found);
    GoesOn(At(s, t, Search(Pick(found))), t, At(Chosen(s, found), t, Idle));
  }

  /** The steps of one thread through the trigger, with none in between, come to the outcome above. */
  lemma AloneTriggers(s: Sys, t: Thread)
    requires !s.mutex.Submit? && s.cur < |s.rings|
    ensures GoesTo(At(s, t, Search(Cas)), t, At(TriggerOutcome(s), t, Idle))
  {
    if s.state == NONE {
      var started, found := s.(state := START, dirty := {}), FirstBusy(s.rings, 0);
      PickGoes(started, t, found);
      ScanGoes(started, t, 0, At(Chosen(started, found), t, Idle));
    } else {
      GoesNowhere(At(s, t, Idle), t);
    }
    GoesOn(At(s, t, Search(Cas)), t, At(TriggerOutcome(s), t, Idle));
  }

  /** The register agrees with the current ring, or the CP has been handed the busy ring of highest priority: its record
    holds what is published, smmu_info the table it was using, and the switch is requested. */
  predicate Repaired(before: Sys, after: Sys) {
    && before.cur < |before.rings| && after.cur == before.cur
    && after.rings == (if after.state == TRIGGERED && after.next.Some? && after.next.value < |before.rings| then
                         before.rings[after.next.value := before.rings[after.next.value].(record := before.rings[after.next.value].wptr)]
                       else before.rings)
    && (after.state == NONE || after.state == TRIGGERED)
    && (after.state == NONE ==> after.cp.wptr == before.rings[before.cur].wptr)
    && (after.state == TRIGGERED ==>
          && after.next.Some? && after.next.value < |before.rings| && after.cp.cntl && after.cp.restore == after.next.value
          && var nx := after.next.value;
          && nx != before.cur && !Empty(before.rings[nx]) && (forall j :: 0 <= j < nx ==> Empty(before.rings[j]))
          && (before.perProcess ==> after.smmu == before.rings[nx].scratch)
          && (before.cp.wptr != before.rings[before.cur].wptr ==> nx < before.cur))
  }

  lemma OutcomeRepairs(s: Sys)
    requires Control(s) && s.state == NONE && !s.mutex.Submit?
    ensures Repaired(s, TriggerOutcome(s))
  {
    assert RingOk(s, s.cur);
  }

  lemma RepairedAt(before: Sys, after: Sys, t: Thread, pc: Pc)
    requires Repaired(before, after)
    ensures Repaired(before, At(after, t, pc))
  {
  }

  /** No published packet is forgotten. A trigger that runs from NONE without interference, being nothing but the steps of
    its own thread, leaves the register level with the current ring's published write pointer, or hands the CP the
    highest-priority ring with work together with that ring's published write pointer and page table; when the register
    lagged, that ring's priority is strictly higher. */
  lemma Repair(s: Sys, t: Thread, initial: Table) returns (es: seq<Event>)
    requires Reachable(s, initial) && s.state == NONE && !s.mutex.Submit? && PcOf(s, t) == Search(Cas)
    ensures forall e :: e in es ==> e == Go(t, true)
    ensures Legal(s, es) && PcOf(Run(s, es), t) == Idle && Repaired(s, Run(s, es))
  {
    ReachableControl(s, initial);
    AloneTriggers(s, t);
    assert At(s, t, Search(Cas)) == s;
    es :| OnlyBy(t, es) && EndsIn(s, es, At(TriggerOutcome(s), t, Idle));
    OutcomeRepairs(s);
    RepairedAt(s, TriggerOutcome(s), t, Idle);
  }

  /** In a settled device the register lags exactly if, since it was last written, a submission published packets to the
    current ring and left it alone. */
  lemma LagExactly(s: Sys, initial: Table)
    requires Reachable(s, initial) && s.state == NONE && !s.mutex.Submit?
    ensures s.cur < |s.rings|
    ensures s.cp.wptr < s.rings[s.cur].wptr <==> s.missed
    ensures s.cp.wptr == s.rings[s.cur].wptr <==> !s.missed
  {
    ReachableControl(s, initial);
  }

  // ---------------------------------------------------------------- submissions

  /** From here to the last of these events the mutex thread is inside a submission. */
  predicate Submitting(s: Sys, es: seq<Event>)
    requires Legal(s, es)
    decreases |es|
  {
    es != [] ==> s.mutex.Submit? && Submitting(Apply(s, es[0]), es[1..])
  }

  /** No ring's write pointer is published, and no ring given packets, but for what is said of ring r. */
  predicate OthersKept(s: Sys, s': Sys, r: nat) {
    && |s'.rings| == |s.rings|
    && forall j :: 0 <= j < |s.rings| ==>
         s'.rings[j].stream == s.rings[j].stream && (j != r ==> s'.rings[j].wptr == s.rings[j].wptr)
  }

  /** One event during a submission to ring r: it leaves everybody's write pointer, or ends with ring r's published. */
  predicate Progress(s: Sys, s': Sys, r: nat)
    requires r < |s.rings|
  {
    && OthersKept(s, s', r)
    && (s'.mutex.Submit? ==> s'.mutex.r == r)
    && (!s'.mutex.Submit? ==> s'.mutex == Idle && s'.rings[r].wptr == |s.rings[r].stream|)
  }

  lemma MutexProgress(s: Sys, r: nat, awake: bool)
    requires s.mutex.Submit? && s.mutex.r == r && r < |s.rings| && CanGo(s, Mutex)
    ensures Progress(s, GoStep(s, Mutex, awake), r)
  {
  }

  lemma IrqProgress(s: Sys, r: nat, awake: bool)
    requires s.mutex.Submit? && s.mutex.r == r && r < |s.rings| && CanGo(s, Irq)
    ensures Progress(s, GoStep(s, Irq, awake), r)
  {
    match s.irq
    case Program(program, nx) => ProgramProgress(s, r, program, nx);
    case _ =>
  }

  lemma ProgramProgress(s: Sys, r: nat, program: ProgramPc, nx: nat)
    requires s.mutex.Submit? && s.mutex.r == r && r < |s.rings| && (program == Record ==> nx < |s.rings|)
    ensures Progress(s, ProgramStep(s, Irq, program, nx), r)
  {
  }

  lemma StepProgress(s: Sys, e: Event, r: nat)
    requires s.mutex.Submit? && s.mutex.r == r && r < |s.rings| && Enabled(s, e)
    ensures Progress(s, Apply(s, e), r)
  {
    if e.Go? {
      if e.t == Mutex { MutexProgress(s, r, e.awake); } else { IrqProgress(s, r, e.awake); }
    }
  }

  lemma {:induction false} SubmitEnds(s: Sys, r: nat, es: seq<Event>)
    requires s.mutex.Submit? && s.mutex.r == r && r < |s.rings|
    requires Legal(s, es) && Submitting(s, es) && !Run(s, es).mutex.Submit?
    ensures var s' := Run(s, es);
            s'.mutex == Idle && OthersKept(s, s', r) && s'.rings[r].wptr == |s'.rings[r].stream|
    decreases |es|
  {
    var next := Apply(s, es[0]);
    StepProgress(s, es[0], r);
    if next.mutex.Submit? {
      SubmitEnds(next, r, es[1..]);
    } else {
      assert es[1..] == [];
    }
  }

  /** Whatever state the protocol is in, and whatever else goes on meanwhile: once a submission is through, all that its ring
    was given is published, and no other ring's write pointer has moved. */
  lemma SubmissionPublishes(s: Sys, r: nat, es: seq<Event>)
    requires s.mutex == Idle && r < |s.rings|
    requires var locked := Apply(s, SubmitLock(r));
             Legal(locked, es) && Submitting(locked, es) && !Run(locked, es).mutex.Submit?
    ensures var s' := Run(Apply(s, SubmitLock(r)), es);
            s'.mutex == Idle && OthersKept(s, s', r) && s'.rings[r].wptr == |s.rings[r].stream|
  {
    SubmitEnds(Apply(s, SubmitLock(r)), r, es);
  }

  /** What `dirty` stands for: the rings published to since the state last became START. */
  lemma DirtyExactly(s: Sys, e: Event, r: nat)
    requires Enabled(s, e)
    ensures r in Apply(s, e).dirty
        <==> (r in s.dirty && (Apply(s, e).state == START ==> s.state == START))
             || (s.mutex.Submit? && s.mutex.r == r && Apply(s, e).mutex == Idle)
  {
    if e.Go? {
      GoDirty(s, e.t, e.awake, r);
    }
  }

  lemma GoDirty(s: Sys, t: Thread, awake: bool, r: nat)
    requires CanGo(s, t)
    ensures var s' := GoStep(s, t, awake);
            r in s'.dirty
            <==> (r in s.dirty && (s'.state == START ==> s.state == START))
                 || (s.mutex.Submit? && s.mutex.r == r && s'.mutex == Idle)
  {
    match PcOf(s, t)
    case Search(search) => SearchDirty(s, t, search);
    case Program(program, nx) => ProgramDirty(s, t, program, nx);
    case _ =>
  }

  lemma SearchDirty(s: Sys, t: Thread, search: SearchPc)
    requires CanGo(s, t) && PcOf(s, t) == Search(search)
    ensures SearchStep(s, t, search).dirty == if search == Cas && s.state == NONE then {} else s.dirty
    ensures SearchStep(s, t, search).state == START && s.state != START <==> search == Cas && s.state == NONE
  {
  }

  lemma ProgramDirty(s: Sys, t: Thread, program: ProgramPc, nx: nat)
    requires CanGo(s, t) && PcOf(s, t) == Program(program, nx)
    ensures ProgramStep(s, t, program, nx).dirty == s.dirty
    ensures ProgramStep(s, t, program, nx).state == START ==> s.state == START
  {
  }
}
