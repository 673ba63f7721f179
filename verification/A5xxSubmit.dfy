/** What a5xx_ringbuffer_addcmds puts around a payload, and what the whole means. */
module A5xxSubmit {
  import opened Pm4
  import opened CpMachine
  import opened A5xxPackets

  /** A draw context as a submission sees it: where its timestamps go, and its preemption style. */
  datatype Context = Context(sop: Quad, eop: Quad, timestamp: Word, secure: bool, style: nat)

  const STYLE_FINEGRAIN := 2

  /** One call of addcmds, apart from its payload. `preempt` is the ring's record if preemption is enabled; `before`
    and `after` are what adreno_profile_preib_processing and its counterpart return. */
  datatype Envelope = Envelope(
    drawctxt: Option<Context>, notProtected: bool, wfi: bool, secure: bool,
    preempt: Option<Quad>, before: Option<(Quad, Word)>, after: Option<(Quad, Word)>, waitMemWrites: bool,
    ringSop: Quad, ringEop: Quad, refWait: Quad, sequence: Word)

  function Finegrain(x: Envelope): bool {
    x.drawctxt.Some? && !x.drawctxt.value.secure && x.drawctxt.value.style == STYLE_FINEGRAIN
  }

  function Protected(on: bool): Packet {
    Op(CP_SET_PROTECTED_MODE, [if on then 1 else 0])
  }

  function Secured(on: bool): Packet {
    Op(CP_SET_SECURE_MODE, [if on then 1 else 0])
  }

  /** a5xx_preemption_pre_ibsubmit. */
  function PreIbsubmit(record: Quad, finegrain: bool): seq<Packet> {
    [Op(CP_PREEMPT_ENABLE_GLOBAL, [if finegrain then 2 else 0])]
    + [Protected(false)]
    + [Packet(Type4, A5XX_CP_CONTEXT_SWITCH_SAVE_ADDR_LO, [record.lo])]
    + [Packet(Type4, A5XX_CP_CONTEXT_SWITCH_SAVE_ADDR_HI, [record.hi])]
    + [Protected(true)]
    + [Op(CP_PREEMPT_ENABLE_LOCAL, [if finegrain then 1 else 0])]
    + [Op(CP_YIELD_ENABLE, [2])]
  }

  /** a5xx_preemption_post_ibsubmit. */
  function PostIbsubmit(): Packet {
    Op(CP_CONTEXT_SWITCH_YIELD, [0, 0, 1, 1])
  }

  function ProfilePackets(at: Option<(Quad, Word)>): seq<Packet> {
    if at.Some? then [IbPacket(at.value.0, at.value.1)] else []
  }

  /** The front of the opening: the identifier, preemption setup and profiling. */
  function Front(x: Envelope): seq<Packet> {
    [Nop(if x.drawctxt.Some? then CMD_IDENTIFIER else CMD_INTERNAL_IDENTIFIER)]
    + (if x.preempt.Some? then PreIbsubmit(x.preempt.value, Finegrain(x)) else [])
    + ProfilePackets(x.before)
  }

  /** What addcmds writes before its payload ... */
  function Opening(x: Envelope, timestamp: Word): seq<Packet> {
    Front(x)
    + (if x.drawctxt.Some? then [MemWrite(x.drawctxt.value.sop, [x.drawctxt.value.timestamp])] else [])
    + [MemWrite(x.ringSop, [timestamp])]
    + (if x.secure then [Secured(true)] else [])
    + (if x.notProtected then [Protected(false)] else [])
  }

  function EopPackets(x: Envelope, timestamp: Word): seq<Packet> {
    if x.drawctxt.Some? then
      [EventWrite(CACHE_FLUSH_TS + EVENT_IRQ, x.drawctxt.value.eop, x.drawctxt.value.timestamp)]
      + [EventWrite(CACHE_FLUSH_TS, x.ringEop, timestamp)]
    else
      [EventWrite(CACHE_FLUSH_TS + EVENT_IRQ, x.ringEop, timestamp)]
  }

  /** The closing up to its end-of-pipe timestamps. */
  function Back(x: Envelope, timestamp: Word): seq<Packet> {
    (if x.notProtected then [Protected(true)] else [])
    + ProfilePackets(x.after)
    + (if x.waitMemWrites then [Op(CP_WAIT_MEM_WRITES, [])] else [])
    + [MemWrite(x.refWait, [x.sequence])]
    + EopPackets(x, timestamp)
  }

  /** ... and after it. */
  function Closing(x: Envelope, timestamp: Word): seq<Packet> {
    Back(x, timestamp)
    + (if x.wfi then [Op(CP_WAIT_FOR_IDLE, [])] else [])
    + (if x.secure then [Secured(false)] else [])
    + (if x.preempt.Some? then [PostIbsubmit()] else [])
  }

  // ---------------------------------------------------------------- what they do

  const KERNEL: Modes := Modes(true, false)

  function PreSteps(record: Quad, finegrain: bool, m: Modes): seq<Step> {
    var off, on := m.(protected := false), m.(protected := true);
    [Step(Other(CP_PREEMPT_ENABLE_GLOBAL, [if finegrain then 2 else 0]), m)]
    + [Step(WriteRegs(A5XX_CP_CONTEXT_SWITCH_SAVE_ADDR_LO, [record.lo]), off)]
    + [Step(WriteRegs(A5XX_CP_CONTEXT_SWITCH_SAVE_ADDR_HI, [record.hi]), off)]
    + [Step(Other(CP_PREEMPT_ENABLE_LOCAL, [if finegrain then 1 else 0]), on)]
    + [Step(Other(CP_YIELD_ENABLE, [2]), on)]
  }

  function ProfileSteps(at: Option<(Quad, Word)>, m: Modes): seq<Step> {
    if at.Some? then [Step(RunIb(at.value.0, at.value.1), m)] else []
  }

  function FrontSteps(x: Envelope): seq<Step> {
    (if x.preempt.Some? then PreSteps(x.preempt.value, Finegrain(x), KERNEL) else []) + ProfileSteps(x.before, KERNEL)
  }

  /** Start-of-pipe timestamps, after the save address is set with protection lifted for just that. */
  function OpeningSteps(x: Envelope, timestamp: Word): seq<Step> {
    FrontSteps(x)
    + (if x.drawctxt.Some? then [Step(Store(x.drawctxt.value.sop, [x.drawctxt.value.timestamp]), KERNEL)] else [])
    + [Step(Store(x.ringSop, [timestamp]), KERNEL)]
  }

  function EopSteps(x: Envelope, timestamp: Word, m: Modes): seq<Step> {
    if x.drawctxt.Some? then
      [Step(Stamp(x.drawctxt.value.eop, x.drawctxt.value.timestamp, true), m)]
      + [Step(Stamp(x.ringEop, timestamp, false), m)]
    else
      [Step(Stamp(x.ringEop, timestamp, true), m)]
  }

  function BackSteps(x: Envelope, timestamp: Word, m: Modes): seq<Step> {
    ProfileSteps(x.after, m)
    + (if x.waitMemWrites then [Step(Other(CP_WAIT_MEM_WRITES, []), m)] else [])
    + [Step(Store(x.refWait, [x.sequence]), m)]
    + EopSteps(x, timestamp, m)
  }

  /** End-of-pipe timestamps, still secure if the payload was, and the yield once that is over. */
  function ClosingSteps(x: Envelope, timestamp: Word): seq<Step> {
    var m := Modes(true, x.secure);
    BackSteps(x, timestamp, m)
    + (if x.wfi then [Step(Other(CP_WAIT_FOR_IDLE, []), m)] else [])
    + (if x.preempt.Some? then [Step(Yield, KERNEL)] else [])
  }

  /** The modes the payload runs in. */
  function PayloadModes(x: Envelope): Modes {
    Modes(!x.notProtected, x.secure)
  }

  lemma PreDoes(record: Quad, finegrain: bool, m: Modes)
    ensures Does(m, PreIbsubmit(record, finegrain), m.(protected := true), PreSteps(record, finegrain, m))
  {
    var off, on := m.(protected := false), m.(protected := true);
    var global := Op(CP_PREEMPT_ENABLE_GLOBAL, [if finegrain then 2 else 0]);
    var lo := Packet(Type4, A5XX_CP_CONTEXT_SWITCH_SAVE_ADDR_LO, [record.lo]);
    var hi := Packet(Type4, A5XX_CP_CONTEXT_SWITCH_SAVE_ADDR_HI, [record.hi]);
    var s0 := [Step(Other(global.id, global.payload), m)];
    var s1 := s0 + [Step(WriteRegs(lo.id, lo.payload), off)];
    var s2 := s1 + [Step(WriteRegs(hi.id, hi.payload), off)];
    DoesOne(m, global, Other(global.id, global.payload));
    DoesSilent(m, [global], m, s0, Protected(false));
    DoesNext(m, [global] + [Protected(false)], off, s0, lo, WriteRegs(lo.id, lo.payload));
    DoesNext(m, [global] + [Protected(false)] + [lo], off, s1, hi, WriteRegs(hi.id, hi.payload));
    DoesSilent(m, [global] + [Protected(false)] + [lo] + [hi], off, s2, Protected(true));
    PreTailDoes(m, [global] + [Protected(false)] + [lo] + [hi] + [Protected(true)], on, s2, finegrain);
  }

  lemma PreTailDoes(m: Modes, ps: seq<Packet>, on: Modes, steps: seq<Step>, finegrain: bool)
    requires Does(m, ps, on, steps)
    ensures var flag := [if finegrain then 1 else 0];
            Does(m, ps + [Op(CP_PREEMPT_ENABLE_LOCAL, flag)] + [Op(CP_YIELD_ENABLE, [2])], on,
                 steps + [Step(Other(CP_PREEMPT_ENABLE_LOCAL, flag), on)] + [Step(Other(CP_YIELD_ENABLE, [2]), on)])
  {
    var flag := [if finegrain then 1 else 0];
    var s1 := Step(Other(CP_PREEMPT_ENABLE_LOCAL, flag), on);
    DoesNext(m, ps, on, steps, Op(CP_PREEMPT_ENABLE_LOCAL, flag), s1.action);
    DoesNext(m, ps + [Op(CP_PREEMPT_ENABLE_LOCAL, flag)], on, steps + [s1], Op(CP_YIELD_ENABLE, [2]), Other(CP_YIELD_ENABLE, [2]));
  }

  lemma ProfileDoes(at: Option<(Quad, Word)>, m: Modes)
    ensures Does(m, ProfilePackets(at), m, ProfileSteps(at, m))
  {
    if at.Some? {
      DoesOne(m, IbPacket(at.value.0, at.value.1), RunIb(at.value.0, at.value.1));
    } else {
      DoesNothing(m);
    }
  }

  lemma StoreDoes(m: Modes, addr: Quad, value: Word)
    ensures Act(MemWrite(addr, [value])) == Some(Store(addr, [value]))
  {
  }

  lemma EventDoes(event: Word, addr: Quad, value: Word)
    ensures Act(EventWrite(event, addr, value)) == Some(Stamp(addr, value, event >= EVENT_IRQ))
  {
  }

  lemma PreIf(x: Envelope)
    ensures Does(KERNEL, if x.preempt.Some? then PreIbsubmit(x.preempt.value, Finegrain(x)) else [], KERNEL,
                 if x.preempt.Some? then PreSteps(x.preempt.value, Finegrain(x), KERNEL) else [])
  {
    if x.preempt.Some? { PreDoes(x.preempt.value, Finegrain(x), KERNEL); } else { DoesNothing(KERNEL); }
  }

  lemma FrontDoes(x: Envelope)
    ensures Does(KERNEL, Front(x), KERNEL, FrontSteps(x))
  {
    var id := Nop(if x.drawctxt.Some? then CMD_IDENTIFIER else CMD_INTERNAL_IDENTIFIER);
    var pre := if x.preempt.Some? then PreIbsubmit(x.preempt.value, Finegrain(x)) else [];
    var steps := if x.preempt.Some? then PreSteps(x.preempt.value, Finegrain(x), KERNEL) else [];
    PreIf(x);
    ProfileDoes(x.before, KERNEL);
    ThreeDo(KERNEL, id, pre, steps, ProfilePackets(x.before), ProfileSteps(x.before, KERNEL));
  }

  lemma ThreeDo(m: Modes, id: Packet, a: seq<Packet>, s: seq<Step>, b: seq<Packet>, s': seq<Step>)
    requires Act(id) == None && NextModes(m, id) == m && Does(m, a, m, s) && Does(m, b, m, s')
    ensures Does(m, [id] + a + b, m, s + s')
  {
    DoesMode(m, id);
    DoesThen(m, [id], m, [], a, m, s);
    assert [] + s == s;
    DoesThen(m, [id] + a, m, s, b, m, s');
  }

  lemma OpeningDoes(x: Envelope, timestamp: Word)
    ensures Does(KERNEL, Opening(x, timestamp), PayloadModes(x), OpeningSteps(x, timestamp))
  {
    var sop := if x.drawctxt.Some? then [MemWrite(x.drawctxt.value.sop, [x.drawctxt.value.timestamp])] else [];
    var sopSteps := if x.drawctxt.Some? then [Step(Store(x.drawctxt.value.sop, [x.drawctxt.value.timestamp]), KERNEL)] else [];
    var ring := MemWrite(x.ringSop, [timestamp]);
    var stored := FrontSteps(x) + sopSteps + [Step(Store(x.ringSop, [timestamp]), KERNEL)];
    FrontDoes(x);
    if x.drawctxt.Some? { StoreDoes(KERNEL, x.drawctxt.value.sop, x.drawctxt.value.timestamp); DoesOne(KERNEL, sop[0], sopSteps[0].action); }
    StoreDoes(KERNEL, x.ringSop, timestamp);
    DoesThen(KERNEL, Front(x), KERNEL, FrontSteps(x), sop, KERNEL, sopSteps);
    DoesNext(KERNEL, Front(x) + sop, KERNEL, FrontSteps(x) + sopSteps, ring, Store(x.ringSop, [timestamp]));
    SwitchesDo(KERNEL, Front(x) + sop + [ring], KERNEL, stored, x.secure, Secured(true));
    var m := Modes(true, x.secure);
    SwitchesDo(KERNEL, Front(x) + sop + [ring] + (if x.secure then [Secured(true)] else []), m, stored,
               x.notProtected, Protected(false));
  }

  lemma EopDoes(x: Envelope, timestamp: Word, m: Modes)
    ensures Does(m, EopPackets(x, timestamp), m, EopSteps(x, timestamp, m))
  {
    var event := CACHE_FLUSH_TS + EVENT_IRQ;
    if x.drawctxt.Some? {
      var c := x.drawctxt.value;
      EventDoes(event, c.eop, c.timestamp);
      EventDoes(CACHE_FLUSH_TS, x.ringEop, timestamp);
      DoesOne(m, EventWrite(event, c.eop, c.timestamp), Stamp(c.eop, c.timestamp, true));
      DoesNext(m, [EventWrite(event, c.eop, c.timestamp)], m, [Step(Stamp(c.eop, c.timestamp, true), m)],
               EventWrite(CACHE_FLUSH_TS, x.ringEop, timestamp), Stamp(x.ringEop, timestamp, false));
    } else {
      EventDoes(event, x.ringEop, timestamp);
      DoesOne(m, EventWrite(event, x.ringEop, timestamp), Stamp(x.ringEop, timestamp, true));
    }
  }

  lemma BackDoes(x: Envelope, timestamp: Word, from: Modes)
    requires from.secure == x.secure && (x.notProtected || from.protected)
    ensures Does(from, Back(x, timestamp), Modes(true, x.secure), BackSteps(x, timestamp, Modes(true, x.secure)))
  {
    var m := Modes(true, x.secure);
    var on := if x.notProtected then [Protected(true)] else [];
    var profile, profiled := ProfilePackets(x.after), ProfileSteps(x.after, m);
    var wait := if x.waitMemWrites then [Op(CP_WAIT_MEM_WRITES, [])] else [];
    var waited := if x.waitMemWrites then [Step(Other(CP_WAIT_MEM_WRITES, []), m)] else [];
    var ref := MemWrite(x.refWait, [x.sequence]);
    ModeIf(from, x.notProtected, Protected(true));
    ProfileDoes(x.after, m);
    DoesThen(from, on, m, [], profile, m, profiled);
    assert [] + profiled == profiled;
    StepsIf(from, on + profile, m, profiled, x.waitMemWrites, Op(CP_WAIT_MEM_WRITES, []), Other(CP_WAIT_MEM_WRITES, []));
    StoreDoes(m, x.refWait, x.sequence);
    DoesNext(from, on + profile + wait, m, profiled + waited, ref, Store(x.refWait, [x.sequence]));
    EopDoes(x, timestamp, m);
    DoesThen(from, on + profile + wait + [ref], m, profiled + waited + [Step(Store(x.refWait, [x.sequence]), m)],
             EopPackets(x, timestamp), m, EopSteps(x, timestamp, m));
  }

  lemma BackIdles(x: Envelope, timestamp: Word, from: Modes)
    requires from.secure == x.secure && (x.notProtected || from.protected)
    ensures var m := Modes(true, x.secure);
            Does(from, Back(x, timestamp) + (if x.wfi then [Op(CP_WAIT_FOR_IDLE, [])] else []), m,
                 BackSteps(x, timestamp, m) + (if x.wfi then [Step(Other(CP_WAIT_FOR_IDLE, []), m)] else []))
  {
    var m := Modes(true, x.secure);
    BackDoes(x, timestamp, from);
    IdleIf(from, Back(x, timestamp), m, BackSteps(x, timestamp, m), x.wfi);
  }

  lemma IdleIf(from: Modes, ps: seq<Packet>, m: Modes, steps: seq<Step>, on: bool)
    requires Does(from, ps, m, steps)
    ensures Does(from, ps + (if on then [Op(CP_WAIT_FOR_IDLE, [])] else []), m,
                 steps + (if on then [Step(Other(CP_WAIT_FOR_IDLE, []), m)] else []))
  {
    StepsIf(from, ps, m, steps, on, Op(CP_WAIT_FOR_IDLE, []), Other(CP_WAIT_FOR_IDLE, []));
  }

  lemma UnsecureIf(from: Modes, ps: seq<Packet>, steps: seq<Step>, secure: bool)
    requires Does(from, ps, Modes(true, secure), steps)
    ensures Does(from, ps + (if secure then [Secured(false)] else []), KERNEL, steps)
  {
    SwitchesDo(from, ps, Modes(true, secure), steps, secure, Secured(false));
  }

  lemma YieldIf(from: Modes, ps: seq<Packet>, steps: seq<Step>, on: bool)
    requires Does(from, ps, KERNEL, steps)
    ensures Does(from, ps + (if on then [PostIbsubmit()] else []), KERNEL,
                 steps + (if on then [Step(Yield, KERNEL)] else []))
  {
    StepsIf(from, ps, KERNEL, steps, on, PostIbsubmit(), Yield);
  }

  /** Whatever the payload did to a mode that the envelope sets back, the closing ends in the kernel's modes. */
  lemma ClosingDoes(x: Envelope, timestamp: Word, from: Modes)
    requires from.secure == x.secure && (x.notProtected || from.protected)
    ensures Does(from, Closing(x, timestamp), KERNEL, ClosingSteps(x, timestamp))
  {
    var m := Modes(true, x.secure);
    var ps := Back(x, timestamp) + (if x.wfi then [Op(CP_WAIT_FOR_IDLE, [])] else []);
    var steps := BackSteps(x, timestamp, m) + (if x.wfi then [Step(Other(CP_WAIT_FOR_IDLE, []), m)] else []);
    BackIdles(x, timestamp, from);
    UnsecureIf(from, ps, steps, x.secure);
    YieldIf(from, ps + (if x.secure then [Secured(false)] else []), steps, x.preempt.Some?);
  }

  // ---------------------------------------------------------------- the same, written out

  /** All that the CP does before the payload, and the modes it then is in. Fine-grain preemption is asked for, by 2 and 1,
    for a context of that style that is not secure, and for no other; only the two save address writes are unprotected. */
  lemma OpeningExactly(x: Envelope, timestamp: Word)
    ensures var fine := x.drawctxt.Some? && x.drawctxt.value.style == 2 && !x.drawctxt.value.secure;
            var kernel, off := Modes(true, false), Modes(false, false);
            Does(kernel, Opening(x, timestamp), Modes(!x.notProtected, x.secure),
                 (if x.preempt.Some? then
                    [Step(Other(0x69, [if fine then 2 else 0]), kernel)]
                    + [Step(WriteRegs(0x83E, [x.preempt.value.lo]), off)] + [Step(WriteRegs(0x83F, [x.preempt.value.hi]), off)]
                    + [Step(Other(0x6A, [if fine then 1 else 0]), kernel)] + [Step(Other(0x1C, [2]), kernel)]
                  else [])
                 + (if x.before.Some? then [Step(RunIb(x.before.value.0, x.before.value.1), kernel)] else [])
                 + (if x.drawctxt.Some? then [Step(Store(x.drawctxt.value.sop, [x.drawctxt.value.timestamp]), kernel)] else [])
                 + [Step(Store(x.ringSop, [timestamp]), kernel)])
  {
    OpeningDoes(x, timestamp);
  }

  /** All that it does after a payload that leaves the modes alone: the profiling buffer, the wait, the reference write and
    the end-of-pipe stamps with protection on and still secure if the submission is, the yield when it is no longer. The
    context's stamp is the one that interrupts, if there is a context. */
  lemma ClosingExactly(x: Envelope, timestamp: Word)
    ensures var m := Modes(true, x.secure);
            Does(Modes(!x.notProtected, x.secure), Closing(x, timestamp), Modes(true, false),
                 (if x.after.Some? then [Step(RunIb(x.after.value.0, x.after.value.1), m)] else [])
                 + (if x.waitMemWrites then [Step(Other(0x12, []), m)] else [])
                 + [Step(Store(x.refWait, [x.sequence]), m)]
                 + (if x.drawctxt.Some? then
                      [Step(Stamp(x.drawctxt.value.eop, x.drawctxt.value.timestamp, true), m)]
                      + [Step(Stamp(x.ringEop, timestamp, false), m)]
                    else [Step(Stamp(x.ringEop, timestamp, true), m)])
                 + (if x.wfi then [Step(Other(0x26, []), m)] else [])
                 + (if x.preempt.Some? then [Step(Yield, Modes(true, false))] else []))
  {
    ClosingDoes(x, timestamp, PayloadModes(x));
  }

  // ---------------------------------------------------------------- sizes

  lemma PreSize(record: Quad, finegrain: bool)
    ensures AllFit(PreIbsubmit(record, finegrain)) && Size(PreIbsubmit(record, finegrain)) == 14
  {
    var global := Op(CP_PREEMPT_ENABLE_GLOBAL, [if finegrain then 2 else 0]);
    var lo := Packet(Type4, A5XX_CP_CONTEXT_SWITCH_SAVE_ADDR_LO, [record.lo]);
    var hi := Packet(Type4, A5XX_CP_CONTEXT_SWITCH_SAVE_ADDR_HI, [record.hi]);
    var local := Op(CP_PREEMPT_ENABLE_LOCAL, [if finegrain then 1 else 0]);
    var yielding := Op(CP_YIELD_ENABLE, [2]);
    SizeOne(global);
    SizeNext([global], 2, Protected(false));
    SizeNext([global] + [Protected(false)], 4, lo);
    SizeNext([global] + [Protected(false)] + [lo], 6, hi);
    SizeNext([global] + [Protected(false)] + [lo] + [hi], 8, Protected(true));
    SizeNext([global] + [Protected(false)] + [lo] + [hi] + [Protected(true)], 10, local);
    SizeNext([global] + [Protected(false)] + [lo] + [hi] + [Protected(true)] + [local], 12, yielding);
  }

  lemma SizeNext(ps: seq<Packet>, n: nat, p: Packet)
    requires AllFit(ps) && Size(ps) == n && Fits(p)
    ensures AllFit(ps + [p]) && Size(ps + [p]) == n + 1 + |p.payload|
  {
    SizeOne(p);
    SizeConcat(ps, [p]);
  }

  lemma ProfileWithin(at: Option<(Quad, Word)>)
    ensures Within(ProfilePackets(at), 4)
  {
    if at.Some? { SizeOne(IbPacket(at.value.0, at.value.1)); }
  }

  lemma FrontWithin(x: Envelope)
    ensures Within(Front(x), 20)
  {
    var id := Nop(if x.drawctxt.Some? then CMD_IDENTIFIER else CMD_INTERNAL_IDENTIFIER);
    var pre := if x.preempt.Some? then PreIbsubmit(x.preempt.value, Finegrain(x)) else [];
    WithinIf(true, id);
    if x.preempt.Some? { PreSize(x.preempt.value, Finegrain(x)); }
    ProfileWithin(x.before);
    WithinThen([id], 2, pre, 14);
    WithinThen([id] + pre, 16, ProfilePackets(x.before), 4);
  }

  lemma OpeningWithin(x: Envelope, timestamp: Word)
    ensures Within(Opening(x, timestamp), 32)
  {
    var sop := if x.drawctxt.Some? then [MemWrite(x.drawctxt.value.sop, [x.drawctxt.value.timestamp])] else [];
    var ring := MemWrite(x.ringSop, [timestamp]);
    var secure := if x.secure then [Secured(true)] else [];
    FrontWithin(x);
    if x.drawctxt.Some? { SizeOne(sop[0]); }
    WithinIf(true, ring);
    WithinIf(x.secure, Secured(true));
    WithinIf(x.notProtected, Protected(false));
    WithinThen(Front(x), 20, sop, 4);
    WithinThen(Front(x) + sop, 24, [ring], 4);
    WithinThen(Front(x) + sop + [ring], 28, secure, 2);
    WithinThen(Front(x) + sop + [ring] + secure, 30, if x.notProtected then [Protected(false)] else [], 2);
  }

  lemma EopWithin(x: Envelope, timestamp: Word)
    ensures Within(EopPackets(x, timestamp), 10)
  {
    if x.drawctxt.Some? {
      var first := EventWrite(CACHE_FLUSH_TS + EVENT_IRQ, x.drawctxt.value.eop, x.drawctxt.value.timestamp);
      WithinIf(true, first);
      WithinIf(true, EventWrite(CACHE_FLUSH_TS, x.ringEop, timestamp));
      WithinThen([first], 5, [EventWrite(CACHE_FLUSH_TS, x.ringEop, timestamp)], 5);
    } else {
      WithinIf(true, EventWrite(CACHE_FLUSH_TS + EVENT_IRQ, x.ringEop, timestamp));
    }
  }

  lemma BackWithin(x: Envelope, timestamp: Word)
    ensures Within(Back(x, timestamp), 21)
  {
    var on := if x.notProtected then [Protected(true)] else [];
    var profile := ProfilePackets(x.after);
    var wait := if x.waitMemWrites then [Op(CP_WAIT_MEM_WRITES, [])] else [];
    var ref := MemWrite(x.refWait, [x.sequence]);
    WithinIf(x.notProtected, Protected(true));
    ProfileWithin(x.after);
    WithinIf(x.waitMemWrites, Op(CP_WAIT_MEM_WRITES, []));
    WithinIf(true, ref);
    EopWithin(x, timestamp);
    WithinThen(on, 2, profile, 4);
    WithinThen(on + profile, 6, wait, 1);
    WithinThen(on + profile + wait, 7, [ref], 4);
    WithinThen(on + profile + wait + [ref], 11, EopPackets(x, timestamp), 10);
  }

  lemma ClosingWithin(x: Envelope, timestamp: Word)
    ensures Within(Closing(x, timestamp), 29)
  {
    var wfi := if x.wfi then [Op(CP_WAIT_FOR_IDLE, [])] else [];
    var secure := if x.secure then [Secured(false)] else [];
    BackWithin(x, timestamp);
    WithinIf(x.wfi, Op(CP_WAIT_FOR_IDLE, []));
    WithinIf(x.secure, Secured(false));
    WithinIf(x.preempt.Some?, PostIbsubmit());
    WithinThen(Back(x, timestamp), 21, wfi, 1);
    WithinThen(Back(x, timestamp) + wfi, 22, secure, 2);
    WithinThen(Back(x, timestamp) + wfi + secure, 24, if x.preempt.Some? then [PostIbsubmit()] else [], 5);
  }

  // ---------------------------------------------------------------- the whole stream

  /** What addcmds leaves in the ring. */
  function Stream(x: Envelope, payload: seq<Word>, timestamp: Word): seq<Word> {
    OpeningWithin(x, timestamp);
    ClosingWithin(x, timestamp);
    EncodeAll(Opening(x, timestamp)) + payload + EncodeAll(Closing(x, timestamp))
  }

  /** The payload leaves the CP secure or not as it found it, and protected unless the envelope restores that. */
  predicate Neutral(x: Envelope, payload: seq<Packet>) {
    var m := After(PayloadModes(x), payload);
    m.secure == x.secure && (x.notProtected || m.protected)
  }

  /** The stream fits what was asked of the ring (by three dwords more than it needs), whatever the payload. */
  lemma StreamFits(x: Envelope, payload: seq<Word>, timestamp: Word)
    ensures |Stream(x, payload, timestamp)| <= A5XX_SUBMIT_MAX + |payload| - 3
  {
    OpeningWithin(x, timestamp);
    ClosingWithin(x, timestamp);
    EncodedSize(Opening(x, timestamp));
    EncodedSize(Closing(x, timestamp));
  }

  lemma StreamTiles(x: Envelope, payload: seq<Word>, timestamp: Word)
    requires Parse(payload).Some?
    ensures Parse(Stream(x, payload, timestamp)) == Some(Opening(x, timestamp) + Parse(payload).value + Closing(x, timestamp))
  {
    OpeningWithin(x, timestamp);
    ClosingWithin(x, timestamp);
    ParseEncoded(Opening(x, timestamp));
    ParseEncoded(Closing(x, timestamp));
    ParseConcat(EncodeAll(Opening(x, timestamp)), payload);
    ParseConcat(EncodeAll(Opening(x, timestamp)) + payload, EncodeAll(Closing(x, timestamp)));
  }

  /** What the CP does for a submission, given what it does for the payload. */
  function StreamSteps(x: Envelope, payload: seq<Packet>, timestamp: Word): seq<Step> {
    OpeningSteps(x, timestamp) + Trace(PayloadModes(x), payload) + ClosingSteps(x, timestamp)
  }

  lemma PacketsDo(x: Envelope, payload: seq<Packet>, timestamp: Word)
    requires Neutral(x, payload)
    ensures Does(KERNEL, Opening(x, timestamp) + payload + Closing(x, timestamp), KERNEL, StreamSteps(x, payload, timestamp))
  {
    var opening, closing, m := Opening(x, timestamp), Closing(x, timestamp), After(PayloadModes(x), payload);
    var steps := Trace(PayloadModes(x), payload);
    OpeningDoes(x, timestamp);
    ClosingDoes(x, timestamp, m);
    DoesThen(KERNEL, opening, PayloadModes(x), OpeningSteps(x, timestamp), payload, m, steps);
    DoesThen(KERNEL, opening + payload, m, OpeningSteps(x, timestamp) + steps, closing, KERNEL, ClosingSteps(x, timestamp));
  }

  /** A submission. For every combination of flags and every payload that is a stream itself, the headers tile the whole
    stream; the CP first stores the start-of-pipe timestamps, then does the payload in the modes the flags ask for, then
    stores the end-of-pipe timestamps, and yields last of all; it ends protected and not secure. */
  lemma StreamMeaning(x: Envelope, payload: seq<Word>, timestamp: Word)
    requires Parse(payload).Some? && Neutral(x, Parse(payload).value)
    ensures var all := Parse(Stream(x, payload, timestamp));
            && all == Some(Opening(x, timestamp) + Parse(payload).value + Closing(x, timestamp))
            && Does(KERNEL, all.value, KERNEL,
                    OpeningSteps(x, timestamp) + Trace(PayloadModes(x), Parse(payload).value) + ClosingSteps(x, timestamp))
  {
    StreamTiles(x, payload, timestamp);
    PacketsDo(x, Parse(payload).value, timestamp);
  }

  // ---------------------------------------------------------------- end-of-pipe timestamps

  /** The context's end-of-pipe slot is not the ring's. */
  predicate OwnSlots(x: Envelope) {
    x.drawctxt.Some? ==> x.drawctxt.value.eop != x.ringEop
  }

  lemma FrontWithout(x: Envelope)
    ensures Without(CP_EVENT_WRITE, Front(x))
  {
    var id := Nop(if x.drawctxt.Some? then CMD_IDENTIFIER else CMD_INTERNAL_IDENTIFIER);
    var pre := if x.preempt.Some? then PreIbsubmit(x.preempt.value, Finegrain(x)) else [];
    WithoutThen(CP_EVENT_WRITE, [id] + pre, ProfilePackets(x.before));
  }

  lemma OpeningWithout(x: Envelope, timestamp: Word)
    ensures Without(CP_EVENT_WRITE, Opening(x, timestamp))
  {
    var sop := if x.drawctxt.Some? then [MemWrite(x.drawctxt.value.sop, [x.drawctxt.value.timestamp])] else [];
    FrontWithout(x);
    WithoutThen(CP_EVENT_WRITE, Front(x), sop);
    WithoutThen(CP_EVENT_WRITE, Front(x) + sop, [MemWrite(x.ringSop, [timestamp])]);
  }

  lemma OpeningStamps(x: Envelope, timestamp: Word)
    ensures StampsAt(x.ringEop, OpeningSteps(x, timestamp)) == []
  {
    OpeningWithout(x, timestamp);
    OpeningDoes(x, timestamp);
    StampsNothing(x.ringEop, KERNEL, Opening(x, timestamp));
  }

  lemma EopStamps(x: Envelope, timestamp: Word, m: Modes)
    requires OwnSlots(x)
    ensures StampsAt(x.ringEop, EopSteps(x, timestamp, m)) == [timestamp]
  {
    if x.drawctxt.Some? {
      StampsConcat(x.ringEop, [Step(Stamp(x.drawctxt.value.eop, x.drawctxt.value.timestamp, true), m)],
                   [Step(Stamp(x.ringEop, timestamp, false), m)]);
    }
  }

  lemma BackStamps(x: Envelope, timestamp: Word, m: Modes)
    requires OwnSlots(x)
    ensures StampsAt(x.ringEop, BackSteps(x, timestamp, m)) == [timestamp]
  {
    var profile := ProfileSteps(x.after, m);
    var wait := if x.waitMemWrites then [Step(Other(CP_WAIT_MEM_WRITES, []), m)] else [];
    var ref := Step(Store(x.refWait, [x.sequence]), m);
    StampsIf(x.ringEop, [], x.after.Some?, if x.after.Some? then profile[0] else ref);
    assert [] + profile == profile;
    StampsIf(x.ringEop, profile, x.waitMemWrites, Step(Other(CP_WAIT_MEM_WRITES, []), m));
    StampsIf(x.ringEop, profile + wait, true, ref);
    EopStamps(x, timestamp, m);
    StampsConcat(x.ringEop, profile + wait + [ref], EopSteps(x, timestamp, m));
  }

  lemma ClosingStamps(x: Envelope, timestamp: Word)
    requires OwnSlots(x)
    ensures StampsAt(x.ringEop, ClosingSteps(x, timestamp)) == [timestamp]
  {
    var m := Modes(true, x.secure);
    var back := BackSteps(x, timestamp, m);
    var idle := if x.wfi then [Step(Other(CP_WAIT_FOR_IDLE, []), m)] else [];
    BackStamps(x, timestamp, m);
    StampsIf(x.ringEop, back, x.wfi, Step(Other(CP_WAIT_FOR_IDLE, []), m));
    StampsIf(x.ringEop, back + idle, x.preempt.Some?, Step(Yield, KERNEL));
  }

  /** A submission whose payload stamps nothing there puts its own number, once, in the ring's end-of-pipe slot. */
  lemma StreamStamps(x: Envelope, payload: seq<Packet>, timestamp: Word)
    requires OwnSlots(x) && StampsAt(x.ringEop, Trace(PayloadModes(x), payload)) == []
    ensures StampsAt(x.ringEop, StreamSteps(x, payload, timestamp)) == [timestamp]
  {
    OpeningStamps(x, timestamp);
    ClosingStamps(x, timestamp);
    StampsConcat(x.ringEop, OpeningSteps(x, timestamp), Trace(PayloadModes(x), payload));
    StampsConcat(x.ringEop, OpeningSteps(x, timestamp) + Trace(PayloadModes(x), payload), ClosingSteps(x, timestamp));
  }

  // ---------------------------------------------------------------- a user submission

  /** A user command in its envelope: the whole way from the driver's list of indirect buffers to what the CP runs. Between
    the opening's steps and the closing's, it runs the wanted buffers in order, between those that sample the counter for
    the user, and does all of that in the modes the flags ask for. */
  lemma SubmissionMeaning(c: Command, x: Envelope, timestamp: Word)
    requires Verified(c.ibs)
    ensures AllFit(CommandPackets(c))
    ensures var middle := Trace(PayloadModes(x), CommandPackets(c));
            && Performs(KERNEL, Stream(x, EncodeAll(CommandPackets(c)), timestamp), KERNEL,
                        OpeningSteps(x, timestamp) + middle + ClosingSteps(x, timestamp))
            && Ibs(middle) == (if c.user.Some? then [RunIb(c.user.value.0, 4)] else [])
                              + Wanted(Entries(c), c.preamble)
                              + (if c.user.Some? then [RunIb(c.user.value.1, 4)] else [])
            && forall step :: step in middle ==> step.modes == PayloadModes(x)
  {
    CommandMeaning(c, PayloadModes(x));
    CommandWithout(CP_SET_PROTECTED_MODE, c);
    CommandWithout(CP_SET_SECURE_MODE, c);
    SteadyTrace(PayloadModes(x), CommandPackets(c));
    StreamMeaning(x, EncodeAll(CommandPackets(c)), timestamp);
  }
}
