/** The a5xx ringbuffer preemption protocol as a step machine.

  Two kernel threads, a timer and the command processor (CP) share one device. The mutex thread runs
  submissions, the preemption scheduler and the fault worker, all of which hold `device->mutex`. The
  interrupt thread runs the completion callback and the CP callback; an interrupt handler does not nest in
  itself, so there is one of it. Every atomic access to `preempt.state`, every section under a ringbuffer's
  `preempt_lock` and every register access is a step of its own, except that a submission's locked section is
  cut at each shared access, because the trigger does not take the current ring's lock when it finds a
  higher-priority ring first.

  Ring positions count packets since start-up. RingSpace shows that the wrapped dword positions of the driver
  are equal exactly when unwrapped positions are.
*/
module PreemptModel {
  datatype Option<+T> = None | Some(value: T)

  datatype State = NONE | START | TRIGGERED | FAULTED | PENDING | COMPLETE

  /** What a page-table switch installs: the TTBR0 value, as its two dwords, and the context id register. */
  datatype Table = Table(lo: nat, hi: nat, contextidr: nat)

  /** A ring's command stream, as far as preemption can tell its packets apart: CP_SMMU_TABLE_UPDATE, the
    CP_MEM_WRITE of the same values to the ring's scratch slot, CP_CONTEXT_SWITCH_YIELD and the rest. */
  datatype Packet = TableUpdate(t: Table) | ScratchWrite(t: Table) | Yield | Work

  /** One `adreno_ringbuffer`: `stream` is all it was ever given (`_wptr` is its length), `wptr` what is published, `rptr`
    what the CP has consumed (the driver reads where the CP last reported that it is), `record` the wptr word of its
    preemption record, `scratch` its ttbr0 and contextidr scratch words. */
  datatype Ring = Ring(stream: seq<Packet>, wptr: nat, rptr: nat, record: nat, scratch: Table)

  /** The CP: the ring it runs, A5XX_CP_RB_WPTR, whether A5XX_CP_CONTEXT_SWITCH_CNTL is non-zero, the ring whose
    record the RESTORE_ADDR registers name, and the table its SMMU walks. */
  datatype Cp = Cp(running: nat, wptr: nat, cntl: bool, restore: nat, table: Table)

  /** Where a thread stands between two of its shared accesses. */
  datatype Pc =
    | Idle
    | Submit(at: SubmitPc, r: nat)   // a5xx_ringbuffer_submit, holding the ring's preempt_lock
    | Poll(poll: PollPc)             // reading CONTEXT_SWITCH_CNTL
    | Finish(end: FinishPc)          // taking note of a finished switch
    | Search(search: SearchPc)       // a5xx_preemption_trigger, up to the choice of a ring
    | Program(program: ProgramPc, nx: nat) // ... and once it has chosen one

  /** The lock is held and the state was read as NONE; cur_rb was read as this ring; rb->wptr is still to store. */
  datatype SubmitPc = SawNone | SawCurrent | Publish(wrote: bool)

  datatype PollPc = DoneStatus | FaultStatus | FaultComplete | CallbackStatus | CallbackComplete

  datatype FinishPc = Swap | Update | Clear

  datatype SearchPc = Cas | Scan(i: nat) | Pick(found: Option<nat>) | Catchup | Abandon

  datatype ProgramPc = Record | Smmu(table: Table) | Restore | Claim | Doorbell

  datatype Thread = Mutex | Irq

  /** The device. The last three fields are history: `dirty` holds the rings published to since the last
    NONE -> START, `missed` whether a submission published packets to the current ring and left the register
    alone since the register was last brought up to date, `misdirected` whether a CPU write to the register ever hit another ring. */
  datatype Sys = Sys(
    state: State, cur: nat, next: Option<nat>, prev: Option<nat>,
    rings: seq<Ring>, cp: Cp, smmu: Table, perProcess: bool,
    mutex: Pc, irq: Pc,
    dirty: set<nat>, missed: bool, misdirected: bool)

  datatype Event =
    | Emit(r: nat, block: seq<Packet>) // allocspace and the stores behind it
    | SubmitLock(r: nat)
    | ScheduleRead | WorkerRead
    | IrqTrigger | CallbackCas
    | Go(t: Thread, awake: bool)
    | TimerCas
    | CpExecute | CpSwitch

  // ---------------------------------------------------------------- streams

  /** The table update a stream has begun and not yet mirrored to scratch memory; None for a malformed stream. */
  function Open(stream: seq<Packet>): Option<Option<Table>> {
    if stream == [] then Some(None)
    else
      var before := Open(stream[..|stream| - 1]);
      match stream[|stream| - 1]
      case TableUpdate(t) => if before == Some(None) then Some(Some(t)) else None
      case ScratchWrite(t) => if before == Some(Some(t)) then Some(None) else None
      case Yield => if before == Some(None) then Some(None) else None
      case Work => before
  }

  /** Every table update is mirrored before the next yield, as a5xx_rb_pagetable_switch emits it. */
  predicate WellFormed(stream: seq<Packet>) {
    Open(stream) == Some(None)
  }

  function LastTable(stream: seq<Packet>, initial: Table): Table {
    if stream == [] then initial
    else match stream[|stream| - 1]
      case TableUpdate(t) => t
      case _ => LastTable(stream[..|stream| - 1], initial)
  }

  function LastScratch(stream: seq<Packet>, initial: Table): Table {
    if stream == [] then initial
    else match stream[|stream| - 1]
      case ScratchWrite(t) => t
      case _ => LastScratch(stream[..|stream| - 1], initial)
  }

  /** The CP lets go of a ring only right after a yield packet, or before its first packet. */
  predicate AtYield(ring: Ring) {
    ring.rptr == 0 || (ring.rptr <= |ring.stream| && ring.stream[ring.rptr - 1] == Yield)
  }

  predicate Empty(ring: Ring) {
    ring.rptr == ring.wptr
  }

  // ---------------------------------------------------------------- steps

  function PcOf(s: Sys, t: Thread): Pc {
    match t case Mutex => s.mutex case Irq => s.irq
  }

  function At(s: Sys, t: Thread, pc: Pc): Sys {
    match t case Mutex => s.(mutex := pc) case Irq => s.(irq := pc)
  }

  predicate Locked(s: Sys, r: nat) {
    s.mutex.Submit? && s.mutex.r == r
  }

  function WithRing(s: Sys, r: nat, ring: Ring): Sys
    requires r < |s.rings|
  {
    s.(rings := s.rings[r := ring])
  }

  /** _update_wptr: under the current ring's lock, bring the register up to the published wptr. */
  function UpdateWptr(s: Sys): Sys
    requires s.cur < |s.rings|
  {
    var w := s.rings[s.cur].wptr;
    s.(cp := s.cp.(wptr := w),
       missed := false,
       misdirected := s.misdirected || (s.cp.wptr != w && s.cp.running != s.cur))
  }

  /** A thread can move unless it waits for a lock. At Swap the driver dereferences next_rb. */
  predicate CanGo(s: Sys, t: Thread) {
    match PcOf(s, t)
    case Idle => false
    case Submit(_, r) => t == Mutex && r < |s.rings|
    case Poll(poll) => if poll.CallbackStatus? || poll.CallbackComplete? then t == Irq else t == Mutex
    case Finish(end) =>
      && (end == Swap ==> s.next.Some?)
      && (end == Update ==> s.cur < |s.rings| && !Locked(s, s.cur))
    case Search(search) =>
      && (search.Scan? && search.i < |s.rings| ==> !Locked(s, search.i))
      && (search == Catchup ==> s.cur < |s.rings| && !Locked(s, s.cur))
    case Program(program, nx) => program == Record ==> nx < |s.rings| && !Locked(s, nx)
  }

  /** a5xx_ringbuffer_submit, inside the lock. */
  function SubmitStep(s: Sys, at: SubmitPc, r: nat): Sys
    requires r < |s.rings|
  {
    match at
    case SawNone => s.(mutex := Submit(if s.cur == r then SawCurrent else Publish(false), r))
    case SawCurrent =>
      s.(cp := s.cp.(wptr := |s.rings[r].stream|),
         misdirected := s.misdirected || s.cp.running != r,
         mutex := Submit(Publish(true), r))
    case Publish(wrote) =>
      WithRing(s, r, s.rings[r].(wptr := |s.rings[r].stream|)).(
        dirty := s.dirty + {r},
        missed := if r == s.cur then !wrote && (s.missed || s.rings[r].wptr < |s.rings[r].stream|) else s.missed,
        mutex := Idle)
  }

  /** The reads of CONTEXT_SWITCH_CNTL and what follows from them; `awake` is kgsl_state_is_awake where asked. A
    non-zero status in the mutex thread is a dispatcher fault, which leaves the preemption state to a restart. */
  function PollStep(s: Sys, poll: PollPc, awake: bool): Sys {
    match poll
    case DoneStatus => s.(mutex := if awake && !s.cp.cntl then Finish(Swap) else Search(Cas))
    case FaultStatus => s.(mutex := if awake && !s.cp.cntl then Poll(FaultComplete) else Idle)
    case FaultComplete => s.(state := COMPLETE, mutex := Idle)
    case CallbackStatus => s.(irq := if s.cp.cntl then Poll(CallbackComplete) else Finish(Swap))
    case CallbackComplete => s.(state := COMPLETE, irq := Idle)
  }

  /** The end of a preemption, the same in the callback and in _a5xx_preemption_done; both go on to trigger. */
  function FinishStep(s: Sys, t: Thread, end: FinishPc): Sys
    requires end == Swap ==> s.next.Some?
    requires end == Update ==> s.cur < |s.rings|
  {
    match end
    case Swap => At(s.(prev := Some(s.cur), cur := s.next.value, next := None), t, Finish(Update))
    case Update => At(UpdateWptr(s), t, Finish(Clear))
    case Clear => At(s.(state := NONE), t, Search(Cas))
  }

  /** a5xx_preemption_trigger up to the choice of a ring. */
  function SearchStep(s: Sys, t: Thread, search: SearchPc): Sys
    requires search == Catchup ==> s.cur < |s.rings|
  {
    match search
    case Cas =>
      if s.state == NONE then At(s.(state := START, dirty := {}), t, Search(Scan(0))) else At(s, t, Idle)
    case Scan(i) =>
      At(s, t, Search(if i >= |s.rings| then Pick(None)
                      else if Empty(s.rings[i]) then Scan(i + 1)
                      else Pick(Some(i))))
    case Pick(found) =>
      At(s, t, if found == None then Search(Abandon)
               else if found.value == s.cur then Search(Catchup)
               else Program(Record, found.value))
    case Catchup => At(UpdateWptr(s), t, Search(Abandon))
    case Abandon => At(s.(state := NONE), t, Idle)
  }

  /** a5xx_preemption_trigger once it has chosen a ring. */
  function ProgramStep(s: Sys, t: Thread, program: ProgramPc, nx: nat): Sys
    requires program == Record ==> nx < |s.rings|
  {
    match program
    case Record =>
      At(WithRing(s, nx, s.rings[nx].(record := s.rings[nx].wptr)), t, Program(Smmu(s.rings[nx].scratch), nx))
    case Smmu(table) => At(s.(smmu := if s.perProcess then table else s.smmu), t, Program(Restore, nx))
    case Restore => At(s.(cp := s.cp.(restore := nx), next := Some(nx)), t, Program(Claim, nx))
    case Claim => At(s.(state := TRIGGERED), t, Program(Doorbell, nx))
    case Doorbell => At(s.(cp := s.cp.(cntl := true)), t, Idle)
  }

  /** The next shared access of thread t. */
  function GoStep(s: Sys, t: Thread, awake: bool): Sys
    requires CanGo(s, t)
  {
    match PcOf(s, t)
    case Idle => s
    case Submit(at, r) => SubmitStep(s, at, r)
    case Poll(poll) => PollStep(s, poll, awake)
    case Finish(end) => FinishStep(s, t, end)
    case Search(search) => SearchStep(s, t, search)
    case Program(program, nx) => ProgramStep(s, t, program, nx)
  }

  /** The CP executes the packet at its read pointer. */
  function ExecuteStep(s: Sys): Sys
    requires s.cp.running < |s.rings|
    requires s.rings[s.cp.running].rptr < |s.rings[s.cp.running].stream|
  {
    var ring := s.rings[s.cp.running];
    var packet := ring.stream[ring.rptr];
    WithRing(s, s.cp.running, ring.(
               rptr := ring.rptr + 1,
               scratch := if packet.ScratchWrite? then packet.t else ring.scratch)).(
      cp := s.cp.(table := if packet.TableUpdate? then packet.t else s.cp.table))
  }

  /** The CP saves the running ring's write pointer to its record, loads the record named by the restore address
    and the table named by smmu_info, and clears CONTEXT_SWITCH_CNTL. */
  function SwitchStep(s: Sys): Sys
    requires s.cp.running < |s.rings| && s.cp.restore < |s.rings|
  {
    var saved := s.rings[s.cp.running := s.rings[s.cp.running].(record := s.cp.wptr)];
    s.(rings := saved,
       cp := Cp(s.cp.restore, saved[s.cp.restore].record, false, s.cp.restore,
                if s.perProcess then s.smmu else s.cp.table))
  }

  predicate Enabled(s: Sys, e: Event) {
    match e
    case Emit(r, block) => s.mutex == Idle && r < |s.rings| && WellFormed(block)
    case SubmitLock(r) => s.mutex == Idle && r < |s.rings|
    case ScheduleRead => s.mutex == Idle
    case WorkerRead => s.mutex == Idle
    case IrqTrigger => s.irq == Idle
    case CallbackCas => s.irq == Idle
    case Go(t, _) => CanGo(s, t)
    case TimerCas => true
    case CpExecute =>
      && s.cp.running < |s.rings|
      && s.rings[s.cp.running].rptr < s.cp.wptr
      && s.rings[s.cp.running].rptr < |s.rings[s.cp.running].stream|
    case CpSwitch =>
      s.cp.cntl && s.cp.running < |s.rings| && s.cp.restore < |s.rings| && AtYield(s.rings[s.cp.running])
  }

  function Apply(s: Sys, e: Event): Sys
    requires Enabled(s, e)
  {
    match e
    case Emit(r, block) => WithRing(s, r, s.rings[r].(stream := s.rings[r].stream + block))
    case SubmitLock(r) => s.(mutex := Submit(if s.state == NONE then SawNone else Publish(false), r))
    case ScheduleRead => s.(mutex := if s.state == COMPLETE then Poll(DoneStatus) else Search(Cas))
    case WorkerRead => s.(mutex := if s.state == FAULTED then Poll(FaultStatus) else Idle)
    case IrqTrigger => s.(irq := Search(Cas))
    case CallbackCas => if s.state == TRIGGERED then s.(state := PENDING, irq := Poll(CallbackStatus)) else s
    case Go(t, awake) => GoStep(s, t, awake)
    case TimerCas => if s.state == TRIGGERED then s.(state := FAULTED) else s
    case CpExecute => ExecuteStep(s)
    case CpSwitch => SwitchStep(s)
  }

  /** A device after start-up: every ring empty, ring 0 current, every table the default one. */
  predicate Init(s: Sys, initial: Table) {
    && |s.rings| > 0
    && s.state == NONE && s.cur == 0 && s.next == None && s.prev == None
    && (forall r :: 0 <= r < |s.rings| ==> s.rings[r] == Ring([], 0, 0, 0, initial))
    && s.cp == Cp(0, 0, false, 0, initial) && s.smmu == initial
    && s.mutex == Idle && s.irq == Idle
    && s.dirty == {} && !s.missed && !s.misdirected
  }

  predicate AtDoorbell(pc: Pc) {
    pc.Program? && pc.program == Doorbell
  }

  predicate AtClaim(pc: Pc) {
    pc.Program? && pc.program == Claim
  }

  /** Some thread has stored TRIGGERED and not yet written CONTEXT_SWITCH_CNTL. */
  predicate BellPending(s: Sys) {
    AtDoorbell(s.mutex) || AtDoorbell(s.irq)
  }

  /** A submission to the current ring has read NONE and not yet written the register. */
  predicate InWindow(s: Sys) {
    s.mutex == Submit(SawNone, s.cur) || s.mutex == Submit(SawCurrent, s.cur)
  }

  /** The orderings the driver leaves open: the CP does not complete a switch inside such a window, and neither the
    completion interrupt nor the timer claims a switch whose doorbell the other thread has yet to ring. */
  predicate Orderly(s: Sys, e: Event) {
    && (e == CpSwitch ==> !InWindow(s))
    && (e == CallbackCas && s.state == TRIGGERED ==> !AtDoorbell(s.mutex))
    && (e == TimerCas && s.state == TRIGGERED ==> !AtDoorbell(s.irq))
  }

  predicate Legal(s: Sys, es: seq<Event>)
    decreases |es|
  {
    es != [] ==> Enabled(s, es[0]) && Legal(Apply(s, es[0]), es[1..])
  }

  predicate LegalOrderly(s: Sys, es: seq<Event>)
    decreases |es|
  {
    es != [] ==> Enabled(s, es[0]) && Orderly(s, es[0]) && LegalOrderly(Apply(s, es[0]), es[1..])
  }

  function Run(s: Sys, es: seq<Event>): Sys
    requires Legal(s, es)
    decreases |es|
  {
    if es == [] then s else Run(Apply(s, es[0]), es[1..])
  }
}
