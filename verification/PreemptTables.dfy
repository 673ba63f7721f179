/** Page tables across preemption: the table the CP walks is the one the running ring last installed. */
module PreemptTables {
  import opened PreemptModel
  import opened PreemptInv

  // ---------------------------------------------------------------- streams

  lemma {:induction false} OpenConcat(a: seq<Packet>, b: seq<Packet>)
    requires WellFormed(a)
    ensures Open(a + b) == Open(b)
  {
    if b == [] {
      assert a + b == a;
    } else {
      var n := |b| - 1;
      OpenConcat(a, b[..n]);
      assert (a + b)[..|a + b| - 1] == a + b[..n];
    }
  }

  lemma {:induction false} OpenPrefix(stream: seq<Packet>, k: nat)
    requires k <= |stream| && Open(stream).Some?
    ensures Open(stream[..k]).Some?
  {
    if k == |stream| {
      assert stream[..k] == stream;
    } else {
      var shorter := stream[..|stream| - 1];
      OpenPrefix(shorter, k);
      assert shorter[..k] == stream[..k];
    }
  }

  /** Where no update is open, the scratch slot holds the table last installed. */
  lemma {:induction false} ClosedAgree(stream: seq<Packet>, initial: Table)
    ensures Open(stream) == Some(None) ==> LastTable(stream, initial) == LastScratch(stream, initial)
    ensures Open(stream).Some? && Open(stream).value.Some? ==> LastTable(stream, initial) == Open(stream).value.value
  {
    if stream != [] {
      ClosedAgree(stream[..|stream| - 1], initial);
    }
  }

  lemma YieldAgree(ring: Ring, initial: Table)
    requires WellFormed(ring.stream) && ring.rptr <= |ring.stream| && AtYield(ring)
    ensures LastTable(ring.stream[..ring.rptr], initial) == LastScratch(ring.stream[..ring.rptr], initial)
  {
    var done := ring.stream[..ring.rptr];
    OpenPrefix(ring.stream, ring.rptr);
    ClosedAgree(done, initial);
  }

  lemma ExecutedAgree(ring: Ring, initial: Table)
    requires ring.rptr < |ring.stream|
    ensures var packet, next := ring.stream[ring.rptr], ring.stream[..ring.rptr + 1];
            && LastTable(next, initial)
               == (if packet.TableUpdate? then packet.t else LastTable(ring.stream[..ring.rptr], initial))
            && LastScratch(next, initial)
               == (if packet.ScratchWrite? then packet.t else LastScratch(ring.stream[..ring.rptr], initial))
  {
    assert ring.stream[..ring.rptr + 1][..ring.rptr] == ring.stream[..ring.rptr];
  }

  // ---------------------------------------------------------------- the invariant

  predicate RingTable(ring: Ring, initial: Table) {
    && WellFormed(ring.stream) && ring.rptr <= |ring.stream|
    && ring.scratch == LastScratch(ring.stream[..ring.rptr], initial)
  }

  predicate RingTables(s: Sys, initial: Table) {
    forall r :: 0 <= r < |s.rings| ==>
      RingTable(s.rings[r], initial) && (r != s.cp.running ==> AtYield(s.rings[r]))
  }

  predicate PcTable(s: Sys, pc: Pc) {
    match pc
    case Program(program, nx) =>
      nx < |s.rings| ==>
        && (program.Smmu? ==> program.table == s.rings[nx].scratch)
        && (program == Restore || program == Claim ==> s.smmu == s.rings[nx].scratch)
    case _ => true
  }

  /** The table the running ring's own packets installed is the one in use, and the one about to be restored is the
    incoming ring's. */
  predicate Walked(s: Sys, initial: Table) {
    && s.cp.running < |s.rings| && s.cp.restore < |s.rings|
    && s.cp.table == LastTable(s.rings[s.cp.running].stream[..Min(s.rings[s.cp.running].rptr, |s.rings[s.cp.running].stream|)], initial)
    && (Requested(s) && s.cp.running == s.cur ==> s.smmu == s.rings[s.cp.restore].scratch)
  }

  function Min(a: nat, b: nat): nat {
    if a < b then a else b
  }

  predicate Tables(s: Sys, initial: Table) {
    && s.perProcess
    && RingTables(s, initial) && Walked(s, initial) && PcTable(s, s.mutex) && PcTable(s, s.irq)
  }

  lemma InitTables(s: Sys, initial: Table)
    requires Init(s, initial) && s.perProcess
    ensures Tables(s, initial)
  {
  }

  lemma EmitTables(s: Sys, r: nat, block: seq<Packet>, initial: Table)
    requires Control(s) && Tables(s, initial) && Enabled(s, Emit(r, block))
    ensures Tables(Apply(s, Emit(r, block)), initial)
  {
    var s' := Apply(s, Emit(r, block));
    var ring := s.rings[r];
    OpenConcat(ring.stream, block);
    assert (ring.stream + block)[..ring.rptr] == ring.stream[..ring.rptr];
  }

  lemma ExecutedTable(ring: Ring, initial: Table)
    requires RingTable(ring, initial) && ring.rptr < |ring.stream|
    ensures var packet := ring.stream[ring.rptr];
            RingTable(ring.(rptr := ring.rptr + 1, scratch := if packet.ScratchWrite? then packet.t else ring.scratch), initial)
  {
    ExecutedAgree(ring, initial);
  }

  lemma ExecuteRings(s: Sys, initial: Table)
    requires RingTables(s, initial) && Enabled(s, CpExecute)
    ensures RingTables(ExecuteStep(s), initial)
  {
    ExecutedTable(s.rings[s.cp.running], initial);
  }

  lemma ExecuteTables(s: Sys, initial: Table)
    requires Control(s) && Tables(s, initial) && Enabled(s, CpExecute)
    ensures Tables(ExecuteStep(s), initial)
  {
    ExecuteRings(s, initial);
    ExecutedAgree(s.rings[s.cp.running], initial);
  }

  lemma SwitchTables(s: Sys, initial: Table)
    requires Control(s) && Tables(s, initial) && Enabled(s, CpSwitch)
    ensures Tables(SwitchStep(s), initial)
    ensures SwitchStep(s).cp.running == s.cp.restore != s.cp.running
  {
    YieldAgree(s.rings[s.cp.restore], initial);
  }

  predicate Untouched(s: Sys, s': Sys) {
    && |s'.rings| == |s.rings|
    && (forall r :: 0 <= r < |s.rings| ==>
          && s'.rings[r].stream == s.rings[r].stream && s'.rings[r].rptr == s.rings[r].rptr
          && s'.rings[r].scratch == s.rings[r].scratch)
    && s'.cp.running == s.cp.running && s'.cp.restore == s.cp.restore && s'.cp.table == s.cp.table
    && s'.smmu == s.smmu && s'.perProcess == s.perProcess
  }

  lemma UntouchedTables(s: Sys, s': Sys, initial: Table)
    requires Tables(s, initial) && Untouched(s, s')
    requires PcTable(s', s'.mutex) && PcTable(s', s'.irq)
    requires Requested(s') && s'.cp.running == s'.cur ==> Requested(s) && s.cp.running == s.cur
    ensures Tables(s', initial)
  {
  }

  /** The rings, the CP but for its register, and smmu_info stay as they are. */
  predicate Idles(s: Sys, s': Sys) {
    && s'.rings == s.rings && s'.smmu == s.smmu && s'.perProcess == s.perProcess
    && s'.cp.running == s.cp.running && s'.cp.restore == s.cp.restore && s'.cp.table == s.cp.table
  }

  lemma IdlesUntouched(s: Sys, s': Sys)
    requires Idles(s, s')
    ensures Untouched(s, s')
  {
  }

  lemma PublishUntouched(s: Sys, at: SubmitPc, r: nat)
    requires at.Publish? && r < |s.rings|
    ensures Untouched(s, SubmitStep(s, at, r))
  {
  }

  lemma SubmitUntouched(s: Sys, at: SubmitPc, r: nat)
    requires r < |s.rings|
    ensures Untouched(s, SubmitStep(s, at, r))
  {
    if at.Publish? { PublishUntouched(s, at, r); } else { IdlesUntouched(s, SubmitStep(s, at, r)); }
  }

  lemma SubmitKeeps(s: Sys, at: SubmitPc, r: nat)
    requires r < |s.rings|
    ensures var s' := SubmitStep(s, at, r);
            && s'.irq == s.irq && s'.state == s.state && s'.cur == s.cur
            && (s'.mutex == Idle || s'.mutex.Submit?)
  {
  }

  lemma SubmitTables(s: Sys, initial: Table)
    requires Tables(s, initial)
    requires s.mutex.Submit? && s.mutex.r < |s.rings|
    ensures Tables(SubmitStep(s, s.mutex.at, s.mutex.r), initial)
  {
    SubmitUntouched(s, s.mutex.at, s.mutex.r);
    SubmitKeeps(s, s.mutex.at, s.mutex.r);
    UntouchedTables(s, SubmitStep(s, s.mutex.at, s.mutex.r), initial);
  }

  lemma PollIdles(s: Sys, t: Thread, awake: bool)
    requires PcOf(s, t).Poll? && CanGo(s, t)
    ensures var s' := PollStep(s, PcOf(s, t).poll, awake);
            && Idles(s, s') && s'.cur == s.cur
            && (if t == Mutex then s'.irq == s.irq && !s'.mutex.Program? else s'.mutex == s.mutex && !s'.irq.Program?)
  {
  }

  lemma PollTables(s: Sys, t: Thread, awake: bool, initial: Table)
    requires States(s) && Tables(s, initial)
    requires PcOf(s, t).Poll? && CanGo(s, t)
    ensures Tables(PollStep(s, PcOf(s, t).poll, awake), initial)
  {
    var s' := PollStep(s, PcOf(s, t).poll, awake);
    PollIdles(s, t, awake);
    IdlesUntouched(s, s');
    UntouchedTables(s, s', initial);
  }

  lemma SwapTables(s: Sys, t: Thread, initial: Table)
    requires States(s) && Tables(s, initial)
    requires PcOf(s, t) == Finish(Swap) && CanGo(s, t)
    ensures Tables(FinishStep(s, t, Swap), initial)
  {
  }

  lemma SettleTables(s: Sys, t: Thread, initial: Table)
    requires States(s) && Tables(s, initial)
    requires PcOf(s, t).Finish? && PcOf(s, t).end != Swap && CanGo(s, t)
    ensures Tables(FinishStep(s, t, PcOf(s, t).end), initial)
  {
  }

  lemma SearchIdles(s: Sys, t: Thread)
    requires PcOf(s, t).Search? && CanGo(s, t)
    ensures var s' := SearchStep(s, t, PcOf(s, t).search); Idles(s, s') && s'.cur == s.cur
  {
  }

  lemma SearchQuiet(s: Sys, t: Thread)
    requires PcOf(s, t).Search? && CanGo(s, t)
    ensures var s' := SearchStep(s, t, PcOf(s, t).search);
            && (s'.mutex == s.mutex || t == Mutex) && (s'.irq == s.irq || t == Irq)
            && (Requested(s') ==> Requested(s))
  {
  }

  lemma SearchPc(s: Sys, t: Thread)
    requires PcOf(s, t).Search? && CanGo(s, t)
    ensures var pc := PcOf(SearchStep(s, t, PcOf(s, t).search), t); pc.Program? ==> pc.program == Record
  {
  }

  lemma SearchTables(s: Sys, t: Thread, initial: Table)
    requires Tables(s, initial)
    requires PcOf(s, t).Search? && CanGo(s, t)
    ensures Tables(SearchStep(s, t, PcOf(s, t).search), initial)
  {
    var s' := SearchStep(s, t, PcOf(s, t).search);
    SearchIdles(s, t);
    IdlesUntouched(s, s');
    SearchQuiet(s, t);
    SearchPc(s, t);
    UntouchedTables(s, s', initial);
  }

  lemma RecordTables(s: Sys, t: Thread, nx: nat, initial: Table)
    requires States(s) && Tables(s, initial)
    requires PcOf(s, t) == Program(Record, nx) && CanGo(s, t)
    ensures Tables(ProgramStep(s, t, Record, nx), initial)
  {
  }

  lemma ProgramTables(s: Sys, t: Thread, initial: Table)
    requires States(s) && Tables(s, initial)
    requires PcOf(s, t).Program? && PcOf(s, t).program != Record
    ensures Tables(ProgramStep(s, t, PcOf(s, t).program, PcOf(s, t).nx), initial)
  {
  }

  lemma GoTables(s: Sys, t: Thread, awake: bool, initial: Table)
    requires States(s) && Tables(s, initial) && CanGo(s, t)
    ensures Tables(GoStep(s, t, awake), initial)
  {
    match PcOf(s, t)
    case Submit(_, _) => SubmitTables(s, initial);
    case Poll(_) => PollTables(s, t, awake, initial);
    case Finish(end) => if end == Swap { SwapTables(s, t, initial); } else { SettleTables(s, t, initial); }
    case Search(_) => SearchTables(s, t, initial);
    case Program(program, nx) => if program == Record { RecordTables(s, t, nx, initial); } else { ProgramTables(s, t, initial); }
  }

  lemma OtherTables(s: Sys, e: Event, initial: Table)
    requires Control(s) && Tables(s, initial) && Enabled(s, e) && Orderly(s, e)
    requires e.SubmitLock? || e.ScheduleRead? || e.WorkerRead? || e.IrqTrigger? || e.CallbackCas? || e.TimerCas?
    ensures Tables(Apply(s, e), initial)
  {
  }

  lemma StepTables(s: Sys, e: Event, initial: Table)
    requires Control(s) && Tables(s, initial) && Enabled(s, e) && Orderly(s, e)
    ensures Tables(Apply(s, e), initial)
  {
    match e
    case Emit(r, block) => EmitTables(s, r, block, initial);
    case Go(t, awake) => GoTables(s, t, awake, initial);
    case CpExecute => ExecuteTables(s, initial);
    case CpSwitch => SwitchTables(s, initial);
    case _ => OtherTables(s, e, initial);
  }
}
