/** The invariant of the preemption protocol and its preservation, one part after another. */
module PreemptInv {
  import opened PreemptModel

  // ---------------------------------------------------------------- who owns the state word

  /** The state a thread relies on at a program point, if any. */
  function Relies(t: Thread, pc: Pc): Option<State> {
    match pc
    case Idle => None
    case Submit(_, _) => None
    case Poll(poll) =>
      Some(match poll case DoneStatus => COMPLETE case FaultStatus => FAULTED case FaultComplete => FAULTED case _ => PENDING)
    case Finish(_) => Some(if t == Irq then PENDING else COMPLETE)
    case Search(search) => if search == Cas then None else Some(START)
    case Program(program, _) => Some(if program == Doorbell then TRIGGERED else START)
  }

  predicate PollsFor(t: Thread, pc: Pc) {
    && (pc.Submit? ==> t == Mutex)
    && (pc.Poll? ==> (t == Irq <==> pc.poll.CallbackStatus? || pc.poll.CallbackComplete?))
  }

  predicate Owned(s: Sys) {
    && PollsFor(Mutex, s.mutex) && PollsFor(Irq, s.irq)
    && var m, i := Relies(Mutex, s.mutex), Relies(Irq, s.irq);
    && (m.Some? ==> s.state == m.value || (AtDoorbell(s.mutex) && s.state == FAULTED))
    && (i.Some? ==> s.state == i.value)
    && !(m == Some(START) && i == Some(START))
    && !(m == Some(TRIGGERED) && i == Some(TRIGGERED))
    && (s.state == START ==> m == Some(START) || i == Some(START))
    && (s.state == PENDING ==> i == Some(PENDING))
  }

  // ---------------------------------------------------------------- which ring the CP runs

  predicate AfterSwap(pc: Pc) {
    pc.Finish? && pc.end != Swap
  }

  /** A switch has been requested and the driver has not yet taken note of its end. */
  predicate Requested(s: Sys) {
    s.state != NONE && s.state != START && !AfterSwap(s.mutex) && !AfterSwap(s.irq)
  }

  predicate Phase(s: Sys) {
    && s.cur < |s.rings| && s.cp.running < |s.rings| && s.cp.restore < |s.rings|
    && (s.next.Some? ==> s.next.value < |s.rings| && s.next.value != s.cur)
    && (InWindow(s) ==> s.cp.running == s.cur)
    && (if Requested(s) then
          && s.next.Some? && s.cp.restore == s.next.value
          && (if BellPending(s) then !s.cp.cntl && s.cp.running == s.cur
              else s.cp.running == if s.cp.cntl then s.cur else s.cp.restore)
        else
          && !s.cp.cntl && s.cp.running == s.cur
          && (s.next.Some? ==> AtClaim(s.mutex) || AtClaim(s.irq)))
    && !s.misdirected
  }

  /** What a program point says about the rings. */
  predicate PcPhase(s: Sys, pc: Pc) {
    match pc
    case Idle => true
    case Submit(at, r) => r < |s.rings| && (at == SawCurrent ==> r == s.cur)
    case Poll(_) => true
    case Finish(end) => end == Swap ==> !s.cp.cntl
    case Search(search) => search.Pick? && search.found.Some? ==> search.found.value < |s.rings|
    case Program(program, nx) =>
      && nx < |s.rings| && nx != s.cur
      && (program == Claim || program == Doorbell ==> s.next == Some(nx) && s.cp.restore == nx)
  }

  predicate Phases(s: Sys) {
    Phase(s) && PcPhase(s, s.mutex) && PcPhase(s, s.irq)
  }

  // ---------------------------------------------------------------- positions

  /** Up to where the CP may have been told to read ring r: a submission writes the register before rb->wptr. */
  function Visible(s: Sys, r: nat): nat
    requires r < |s.rings|
  {
    if s.mutex == Submit(Publish(true), r) then |s.rings[r].stream| else s.rings[r].wptr
  }

  predicate RingOk(s: Sys, r: nat)
    requires r < |s.rings|
  {
    s.rings[r].rptr <= Visible(s, r) <= |s.rings[r].stream| && s.rings[r].wptr <= Visible(s, r)
  }

  predicate RingsOk(s: Sys) {
    forall r :: 0 <= r < |s.rings| ==> RingOk(s, r)
  }

  predicate HasWork(s: Sys, nx: nat) {
    nx < |s.rings| && s.rings[nx].rptr < s.rings[nx].wptr
  }

  /** The ring's record holds work the CP has not consumed. */
  predicate Handed(s: Sys, nx: nat) {
    nx < |s.rings| && s.rings[nx].rptr < s.rings[nx].record <= s.rings[nx].wptr
  }

  predicate Positions(s: Sys) {
    && s.cp.running < |s.rings|
    && s.rings[s.cp.running].rptr <= s.cp.wptr <= Visible(s, s.cp.running)
    && (Requested(s) && s.cp.running == s.cur ==> Handed(s, s.cp.restore))
    && (s.mutex == Submit(Publish(true), s.cur) && s.cp.running == s.cur ==> s.cp.wptr == |s.rings[s.cur].stream|)
  }

  predicate PcHanded(s: Sys, pc: Pc) {
    match pc
    case Search(search) =>
      search.Pick? && search.found.Some? && search.found.value != s.cur ==> HasWork(s, search.found.value)
    case Program(program, nx) =>
      if program == Record then HasWork(s, nx) else program != Doorbell ==> Handed(s, nx)
    case _ => true
  }

  predicate Handeds(s: Sys) {
    PcHanded(s, s.mutex) && PcHanded(s, s.irq)
  }

  // ---------------------------------------------------------------- the scan

  /** The ring whose lock a submission holds since it read NONE. */
  function HeldSinceNone(s: Sys): Option<nat> {
    if s.mutex.Submit? && s.mutex.at != Publish(false) then Some(s.mutex.r) else None
  }

  /** How many rings the scan has passed. */
  function Passed(s: Sys, pc: Pc): Option<nat> {
    match pc
    case Search(search) =>
      (match search
       case Scan(i) => Some(i)
       case Pick(found) => if found == None then Some(|s.rings|) else found
       case _ => None)
    case Program(program, nx) => if program == Doorbell then None else Some(nx)
    case _ => None
  }

  predicate PcScan(s: Sys, pc: Pc) {
    var passed, held := Passed(s, pc), HeldSinceNone(s);
    && (passed.Some? ==>
          && passed.value <= |s.rings|
          && (forall j :: 0 <= j < passed.value ==> j in s.dirty || Empty(s.rings[j])))
    && (held.Some? ==>
          && (passed.Some? ==>
                if pc.Search? && pc.search.Scan? then passed.value <= held.value else passed.value < held.value)
          && (pc == Search(Catchup) ==> s.cur < held.value))
  }

  predicate Scanned(s: Sys) {
    var held := HeldSinceNone(s);
    held.Some? ==> held.value < |s.rings| && (s.next.Some? ==> s.next.value < held.value)
  }

  // ---------------------------------------------------------------- the register is not behind unnoticed

  /** No switch is under way and no submission stands between its register write and its publication. */
  predicate Settled(s: Sys) {
    && (s.state == NONE || s.state == START || s.mutex == Finish(Clear) || s.irq == Finish(Clear))
    && s.mutex != Submit(Publish(true), s.cur)
  }

  predicate Fresh(s: Sys) {
    s.cur < |s.rings| && (Settled(s) ==> (s.cp.wptr == s.rings[s.cur].wptr <==> !s.missed))
  }

  // ---------------------------------------------------------------- all of it

  predicate States(s: Sys) {
    Owned(s) && Phases(s)
  }

  predicate Rings(s: Sys) {
    RingsOk(s) && Positions(s) && Handeds(s)
  }

  predicate Scans(s: Sys) {
    Fresh(s) && Scanned(s) && PcScan(s, s.mutex) && PcScan(s, s.irq)
  }

  predicate Control(s: Sys) {
    States(s) && Rings(s) && Scans(s)
  }

  lemma InitControl(s: Sys, initial: Table)
    requires Init(s, initial)
    ensures Control(s)
  {
  }
}
