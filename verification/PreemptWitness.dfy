/** Orderly runs of the driver's four rings, from start-up, that end where the other theorems say something can go
  wrong. */
module PreemptWitness {
  import opened PreemptModel
  import opened PreemptTheorems

  const ORIGIN: Table := Table(0, 0, 0)
  const BLANK: Ring := Ring([], 0, 0, 0, ORIGIN)

  /** A device with the given rings, cur_rb, CP and thread positions, and nothing else going on. */
  function Device(state: State, cur: nat, rings: seq<Ring>, cp: Cp, mutex: Pc, irq: Pc): Sys {
    Sys(state, cur, None, None, rings, cp, ORIGIN, true, mutex, irq, {}, false, false)
  }

  /** KGSL_PRIORITY_MAX_RB_LEVELS rings, of which the last two stay empty. */
  function Four(first: Ring, second: Ring): (rings: seq<Ring>)
    ensures |rings| == 4
  {
    [first, second, BLANK, BLANK]
  }

  function Fresh(): (s: Sys)
    ensures Init(s, ORIGIN)
  {
    Device(NONE, 0, Four(BLANK, BLANK), Cp(0, 0, false, 0, ORIGIN), Idle, Idle)
  }

  ghost predicate Reached(s: Sys) {
    exists es :: LegalOrderly(Fresh(), es) && EndsIn(Fresh(), es, s)
  }

  lemma ReachedReachable(s: Sys)
    requires Reached(s)
    ensures Reachable(s, ORIGIN)
  {
    var es :| LegalOrderly(Fresh(), es) && EndsIn(Fresh(), es, s);
    assert EndsIn(Fresh(), es, s);
  }

  lemma {:induction false} Append(s: Sys, es: seq<Event>, e: Event)
    requires LegalOrderly(s, es) && Legal(s, es) && Enabled(Run(s, es), e) && Orderly(Run(s, es), e)
    ensures LegalOrderly(s, es + [e]) && EndsIn(s, es + [e], Apply(Run(s, es), e))
    decreases |es|
  {
    if es == [] {
      assert [] + [e] == [e];
      assert [e][1..] == [];
    } else {
      Append(Apply(s, es[0]), es[1..], e);
      assert (es + [e])[1..] == es[1..] + [e];
    }
  }

  lemma Onward(s: Sys, e: Event) returns (s': Sys)
    requires Reached(s) && Enabled(s, e) && Orderly(s, e)
    ensures s' == Apply(s, e) && Reached(s')
  {
    var es :| LegalOrderly(Fresh(), es) && EndsIn(Fresh(), es, s);
    Append(Fresh(), es, e);
    s' := Apply(s, e);
  }

  // ---------------------------------------------------------------- the second ring gets work

  const BUSY: Ring := Ring([Yield], 1, 0, 0, ORIGIN)

  /** Ring 1 has one submission, and nothing else has happened. */
  function Fed(): Sys {
    Device(NONE, 0, Four(BLANK, BUSY), Cp(0, 0, false, 0, ORIGIN), Idle, Idle).(dirty := {1})
  }

  lemma OriginReached()
    ensures Reached(Fresh())
  {
    assert LegalOrderly(Fresh(), []) && EndsIn(Fresh(), [], Fresh());
  }

  lemma YieldFits()
    ensures WellFormed([Yield])
  {
    assert [Yield][..0] == [];
  }

  lemma EmittedReached() returns (s: Sys)
    ensures s == Device(NONE, 0, Four(BLANK, Ring([Yield], 0, 0, 0, ORIGIN)), Cp(0, 0, false, 0, ORIGIN), Idle, Idle)
    ensures Reached(s)
  {
    OriginReached();
    YieldFits();
    s := Onward(Fresh(), Emit(1, [Yield]));
    assert s.rings[1].stream == [Yield];
  }

  lemma FedReached()
    ensures Reached(Fed())
  {
    var s1 := EmittedReached();
    var s2 := Onward(s1, SubmitLock(1));
    var s3 := Onward(s2, Go(Mutex, true));
    var s4 := Onward(s3, Go(Mutex, true));
    assert s4.rings == Fed().rings;
    assert s4 == Fed();
  }

  /** A trigger has started with ring 1 alone busy. */
  function Started(rings: seq<Ring>, t: Thread, pc: Pc): Sys {
    At(Device(START, 0, rings, Cp(0, 0, false, 0, ORIGIN), Idle, Idle), t, pc)
  }

  function Given(): seq<Ring> {
    Four(BLANK, BUSY)
  }

  lemma EnteredReached(t: Thread)
    ensures Reached(Started(Given(), t, Search(Scan(0))))
  {
    FedReached();
    var s1 := Onward(Fed(), if t == Mutex then ScheduleRead else IrqTrigger);
    var s2 := Onward(s1, Go(t, true));
  }

  lemma FirstPassed(t: Thread)
    ensures Reached(Started(Given(), t, Search(Scan(1))))
  {
    EnteredReached(t);
    var s := Onward(Started(Given(), t, Search(Scan(0))), Go(t, true));
  }

  lemma FoundReached(t: Thread)
    ensures Reached(Started(Given(), t, Search(Pick(Some(1)))))
  {
    FirstPassed(t);
    var s := Onward(Started(Given(), t, Search(Scan(1))), Go(t, true));
  }

  /** Ring 1 is chosen and its record written. */
  function Written(): seq<Ring> {
    Four(BLANK, BUSY.(record := 1))
  }

  lemma ChosenReached(t: Thread)
    ensures Reached(Started(Given(), t, Program(Record, 1)))
  {
    FoundReached(t);
    var s := Onward(Started(Given(), t, Search(Pick(Some(1)))), Go(t, true));
  }

  lemma RecordedReached(t: Thread)
    ensures Reached(Started(Written(), t, Program(Smmu(ORIGIN), 1)))
  {
    ChosenReached(t);
    var s := Onward(Started(Given(), t, Program(Record, 1)), Go(t, true));
    assert s.rings == Written();
  }

  lemma WrittenReached(t: Thread)
    ensures Reached(Started(Written(), t, Program(Restore, 1)))
  {
    RecordedReached(t);
    var s := Onward(Started(Written(), t, Program(Smmu(ORIGIN), 1)), Go(t, true));
  }

  /** The trigger has claimed TRIGGERED for ring 1 and stands before its doorbell. */
  function Claimed(t: Thread): Sys {
    At(Device(TRIGGERED, 0, Written(), Cp(0, 0, false, 1, ORIGIN), Idle, Idle).(next := Some(1)), t, Program(Doorbell, 1))
  }

  lemma ClaimedReached(t: Thread)
    ensures Reached(Claimed(t))
  {
    WrittenReached(t);
    var s1 := Onward(Started(Written(), t, Program(Restore, 1)), Go(t, true));
    var s2 := Onward(s1, Go(t, true));
  }

  /** Before the mutex thread rings the doorbell, the interrupt can claim its switch ... */
  lemma InterruptGapReached()
    ensures exists s :: Reachable(s, ORIGIN) && Enabled(s, CallbackCas) && !Orderly(s, CallbackCas)
  {
    ClaimedReached(Mutex);
    ReachedReachable(Claimed(Mutex));
    assert !Orderly(Claimed(Mutex), CallbackCas);
  }

  /** ... and before the interrupt thread does, the timer. */
  lemma TimerGapReached()
    ensures exists s :: Reachable(s, ORIGIN) && Enabled(s, TimerCas) && !Orderly(s, TimerCas)
  {
    ClaimedReached(Irq);
    ReachedReachable(Claimed(Irq));
    assert !Orderly(Claimed(Irq), TimerCas);
  }

  // ---------------------------------------------------------------- ring 1 becomes current

  /** The CP has moved to ring 1 and the interrupt has swapped the rings. */
  function Swapped(irq: Pc): Sys {
    Device(PENDING, 1, Written(), Cp(1, 1, false, 1, ORIGIN), Idle, irq).(prev := Some(0))
  }

  /** The doorbell has been rung, and then the CP has switched or not. */
  function Rung(cp: Cp): Sys {
    Device(TRIGGERED, 0, Written(), cp, Idle, Idle).(next := Some(1))
  }

  lemma RungReached()
    ensures Reached(Rung(Cp(0, 0, true, 1, ORIGIN)))
  {
    ClaimedReached(Mutex);
    var s := Onward(Claimed(Mutex), Go(Mutex, true));
  }

  lemma SwitchedReached()
    ensures Reached(Rung(Cp(1, 1, false, 1, ORIGIN)))
  {
    RungReached();
    var s := Onward(Rung(Cp(0, 0, true, 1, ORIGIN)), CpSwitch);
    assert s.rings == Written();
  }

  lemma SwappedReached()
    ensures Reached(Swapped(Finish(Update)))
  {
    SwitchedReached();
    var s1 := Onward(Rung(Cp(1, 1, false, 1, ORIGIN)), CallbackCas);
    var s2 := Onward(s1, Go(Irq, true));
    var s3 := Onward(s2, Go(Irq, true));
  }

  lemma SettledReached()
    ensures Reached(Swapped(Search(Cas)).(state := NONE))
  {
    SwappedReached();
    var s1 := Onward(Swapped(Finish(Update)), Go(Irq, true));
    var s2 := Onward(s1, Go(Irq, true));
  }

  /** Ring 1 runs, and its callback's trigger starts ... */
  lemma RestartReached()
    ensures Reached(Swapped(Search(Scan(0))).(state := START))
  {
    SettledReached();
    var s := Onward(Swapped(Search(Cas)).(state := NONE), Go(Irq, true));
  }

  /** ... passes ring 0 ... */
  lemma PassedReached()
    ensures Reached(Swapped(Search(Scan(1))).(state := START))
  {
    RestartReached();
    var s := Onward(Swapped(Search(Scan(0))).(state := START), Go(Irq, true));
  }

  /** ... and finds ring 1 busy. */
  lemma AloneReached()
    ensures Reached(Swapped(Search(Catchup)).(state := START))
  {
    PassedReached();
    var s1 := Onward(Swapped(Search(Scan(1))).(state := START), Go(Irq, true));
    var s2 := Onward(s1, Go(Irq, true));
  }

  lemma RestReached()
    ensures Reached(Swapped(Idle).(state := NONE))
  {
    AloneReached();
    var s1 := Onward(Swapped(Search(Catchup)).(state := START), Go(Irq, true));
    var s2 := Onward(s1, Go(Irq, true));
  }

  // ---------------------------------------------------------------- ring 0 gets work while ring 1 is submitted to

  lemma BothGiven() returns (s: Sys)
    ensures s.rings == Four(BUSY.(wptr := 0), BUSY.(record := 1))
    ensures s == Swapped(Idle).(state := NONE, rings := s.rings)
    ensures Reached(s)
  {
    RestReached();
    YieldFits();
    s := Onward(Swapped(Idle).(state := NONE), Emit(0, [Yield]));
    assert s.rings[0].stream == [Yield];
  }

  lemma BothLocked() returns (s: Sys)
    ensures s.rings == Four(BUSY.(wptr := 0), BUSY.(record := 1))
    ensures s == Swapped(Idle).(state := NONE, rings := s.rings, mutex := Submit(Publish(false), 0))
    ensures Reached(s)
  {
    var s1 := BothGiven();
    var s2 := Onward(s1, SubmitLock(0));
    s := Onward(s2, Go(Mutex, true));
  }

  lemma BothFed() returns (s: Sys)
    ensures s.rings == Four(BUSY, BUSY.(record := 1))
    ensures s == Swapped(Idle).(state := NONE, dirty := {0}, rings := s.rings)
    ensures Reached(s)
  {
    var s1 := BothLocked();
    s := Onward(s1, Go(Mutex, true));
  }

  lemma AtBoundary() returns (s: Sys)
    ensures s.rings == Four(BUSY, BUSY.(rptr := 1, record := 1))
    ensures s == Swapped(Search(Cas)).(state := NONE, dirty := {0}, rings := s.rings, mutex := Submit(SawNone, 1))
    ensures Reached(s)
  {
    var s0 := BothFed();
    var s1 := Onward(s0, CpExecute);
    var s2 := Onward(s1, SubmitLock(1));
    s := Onward(s2, IrqTrigger);
  }

  lemma Looking() returns (s: Sys)
    ensures s.rings == Four(BUSY, BUSY.(rptr := 1, record := 1))
    ensures s == Swapped(Search(Pick(Some(0)))).(state := START, rings := s.rings, mutex := Submit(SawNone, 1))
    ensures Reached(s)
  {
    var s0 := AtBoundary();
    var s1 := Onward(s0, Go(Irq, true));
    s := Onward(s1, Go(Irq, true));
  }

  lemma Choosing() returns (s: Sys)
    ensures s.rings == Four(BUSY, BUSY.(rptr := 1, record := 1))
    ensures s == Swapped(Program(Record, 0)).(state := START, rings := s.rings, mutex := Submit(SawNone, 1))
    ensures Reached(s)
  {
    var s0 := Looking();
    s := Onward(s0, Go(Irq, true));
  }

  lemma Overtaking() returns (s: Sys)
    ensures s.rings == Four(BUSY.(record := 1), BUSY.(rptr := 1, record := 1))
    ensures s == Swapped(Program(Smmu(ORIGIN), 0)).(state := START, rings := s.rings, mutex := Submit(SawNone, 1))
    ensures Reached(s)
  {
    var s0 := Choosing();
    s := Onward(s0, Go(Irq, true));
  }

  lemma Armed() returns (s: Sys)
    ensures s.rings == Four(BUSY.(record := 1), BUSY.(rptr := 1, record := 1))
    ensures s == Swapped(Program(Claim, 0)).(state := START, next := Some(0), rings := s.rings,
                                             cp := Cp(1, 1, false, 0, ORIGIN), mutex := Submit(SawNone, 1))
    ensures Reached(s)
  {
    var s0 := Overtaking();
    var s1 := Onward(s0, Go(Irq, true));
    s := Onward(s1, Go(Irq, true));
  }

  lemma Requesting() returns (s: Sys)
    ensures s == Device(TRIGGERED, 1, Four(BUSY.(record := 1), BUSY.(rptr := 1, record := 1)), Cp(1, 1, true, 0, ORIGIN),
                        Submit(SawNone, 1), Idle).(prev := Some(0), next := Some(0))
    ensures Reached(s)
  {
    var s0 := Armed();
    var s1 := Onward(s0, Go(Irq, true));
    s := Onward(s1, Go(Irq, true));
  }

  /** A submission to ring 1 that has read NONE and not yet written the register is overtaken by a switch to ring 0. */
  lemma WindowReached()
    ensures exists s :: Reachable(s, ORIGIN) && Enabled(s, CpSwitch) && !Orderly(s, CpSwitch)
  {
    var s := Requesting();
    ReachedReachable(s);
    assert !Orderly(s, CpSwitch);
  }

  // ---------------------------------------------------------------- a submission nobody notices

  /** The interrupt thread has passed rings below i and found them empty. */
  function Passing(i: nat): Sys {
    Device(START, 0, Four(BLANK, BLANK), Cp(0, 0, false, 0, ORIGIN), Idle, Search(Scan(i)))
  }

  lemma PassingReached()
    ensures Reached(Passing(0))
  {
    OriginReached();
    var s1 := Onward(Fresh(), IrqTrigger);
    var s2 := Onward(s1, Go(Irq, true));
  }

  lemma PassOn(i: nat)
    requires i < 4 && Reached(Passing(i))
    ensures Reached(Passing(i + 1))
  {
    var s := Onward(Passing(i), Go(Irq, true));
  }

  lemma AllPassed()
    ensures Reached(Passing(4))
  {
    PassingReached();
    PassOn(0);
    PassOn(1);
    PassOn(2);
    PassOn(3);
  }

  lemma ScannedReached() returns (s: Sys)
    ensures s == Device(START, 0, Four(BLANK, BLANK), Cp(0, 0, false, 0, ORIGIN), Idle, Search(Pick(None)))
    ensures Reached(s)
  {
    AllPassed();
    s := Onward(Passing(4), Go(Irq, true));
  }

  lemma UnnoticedGiven() returns (s: Sys)
    ensures s.rings == Four(BUSY.(wptr := 0), BLANK)
    ensures s == Device(START, 0, Four(BUSY.(wptr := 0), BLANK), Cp(0, 0, false, 0, ORIGIN), Idle, Search(Pick(None)))
    ensures Reached(s)
  {
    var s0 := ScannedReached();
    YieldFits();
    s := Onward(s0, Emit(0, [Yield]));
    assert s.rings[0].stream == [Yield];
  }

  lemma UnnoticedReached() returns (s: Sys)
    ensures s.rings == Four(BUSY, BLANK)
    ensures s == Device(START, 0, Four(BUSY, BLANK), Cp(0, 0, false, 0, ORIGIN), Idle, Search(Pick(None))).(
                 dirty := {0}, missed := true)
    ensures Reached(s)
  {
    var s1 := UnnoticedGiven();
    var s2 := Onward(s1, SubmitLock(0));
    s := Onward(s2, Go(Mutex, true));
  }

  /** State NONE does not imply that the register is up to date: a submission between the trigger's scan and its store of
    NONE leaves the register alone, the submission's own trigger finds START and gives up, and everything comes to rest
    with work published that the CP has not been told of. */
  lemma LostWakeup()
    ensures exists s :: Reachable(s, ORIGIN) && AtRest(s) && s.cp.wptr < s.rings[s.cur].wptr
  {
    var s0 := UnnoticedReached();
    var s1 := Onward(s0, ScheduleRead);
    var s2 := Onward(s1, Go(Mutex, true));
    var s3 := Onward(s2, Go(Irq, true));
    var s4 := Onward(s3, Go(Irq, true));
    ReachedReachable(s4);
    assert AtRest(s4);
  }

  predicate AtRest(s: Sys) {
    s.state == NONE && s.mutex == Idle && s.irq == Idle && s.cur < |s.rings|
  }
}
