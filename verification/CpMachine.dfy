/** What the command processor does with the packets of a stream: an abstract interpreter. */
module CpMachine {
  import opened Pm4

  const CP_NOP := 0x10
  const CP_WAIT_MEM_WRITES := 0x12
  const CP_WAIT_FOR_ME := 0x13
  const CP_YIELD_ENABLE := 0x1C
  const CP_REG_RMW := 0x21
  const CP_WAIT_FOR_IDLE := 0x26
  const CP_SET_CONSTANT := 0x2D
  const CP_INVALIDATE_STATE := 0x3B
  const CP_MEM_WRITE := 0x3D
  const CP_REG_TO_MEM := 0x3E
  const CP_INDIRECT_BUFFER_PFE := 0x3F
  const CP_EVENT_WRITE := 0x46
  const CP_WAIT_REG_EQ := 0x52
  const CP_SMMU_TABLE_UPDATE := 0x53
  const CP_SET_PROTECTED_MODE := 0x5F
  const CP_WHERE_AM_I := 0x62
  const CP_SET_SECURE_MODE := 0x66
  const CP_PREEMPT_ENABLE_GLOBAL := 0x69
  const CP_PREEMPT_ENABLE_LOCAL := 0x6A
  const CP_CONTEXT_SWITCH_YIELD := 0x6B
  const CP_SET_RENDER_MODE := 0x6C
  const CP_REG_WR_NO_CTXT := 0x78

  const CACHE_FLUSH_TS: Word := 4
  const EVENT_IRQ: Word := 0x8000_0000

  datatype Action =
    | RunIb(addr: Quad, dwords: nat)
    | Store(addr: Quad, data: seq<Word>)
    | Stamp(addr: Quad, value: Word, interrupt: bool)
    | SetTable(ttbr0: Quad, contextidr: Word)
    | WriteRegs(reg: nat, values: seq<Word>)
    | Sample(counter: Word, addr: Quad)
    | Report(addr: Quad)
    | Yield
    | Other(id: nat, payload: seq<Word>)

  /** Whether register protection is on, and whether the CP runs secure. */
  datatype Modes = Modes(protected: bool, secure: bool)

  datatype Step = Step(action: Action, modes: Modes)

  /** What a packet makes the CP do, apart from changing its modes. A NOP swallows its payload. Addresses are two dwords
    in type 7 packets, one in type 3 packets. */
  function Act(p: Packet): Option<Action> {
    match p.kind
    case Type0 => Some(WriteRegs(p.id, p.payload))
    case Type4 => Some(WriteRegs(p.id, p.payload))
    case Type7 =>
      var d, n := p.payload, |p.payload|;
      if p.id == CP_NOP || p.id == CP_SET_PROTECTED_MODE || p.id == CP_SET_SECURE_MODE then None
      else if p.id == CP_INDIRECT_BUFFER_PFE && n == 3 then Some(RunIb(Quad(d[0], d[1]), d[2]))
      else if p.id == CP_MEM_WRITE && n >= 2 then Some(Store(Quad(d[0], d[1]), d[2..]))
      else if p.id == CP_EVENT_WRITE && n == 4 then Some(Stamp(Quad(d[1], d[2]), d[3], d[0] >= EVENT_IRQ))
      else if p.id == CP_SMMU_TABLE_UPDATE && n == 3 then Some(SetTable(Quad(d[0], d[1]), d[2]))
      else if p.id == CP_REG_TO_MEM && n == 3 then Some(Sample(d[0], Quad(d[1], d[2])))
      else if p.id == CP_WHERE_AM_I && n == 2 then Some(Report(Quad(d[0], d[1])))
      else if p.id == CP_CONTEXT_SWITCH_YIELD then Some(Yield)
      else Some(Other(p.id, d))
    case Type3 =>
      var d, n := p.payload, |p.payload|;
      if p.id == CP_NOP || p.id == CP_SET_PROTECTED_MODE then None
      else if p.id == CP_INDIRECT_BUFFER_PFE && n == 2 then Some(RunIb(Quad(d[0], 0), d[1]))
      else if p.id == CP_MEM_WRITE && n >= 1 then Some(Store(Quad(d[0], 0), d[1..]))
      else if p.id == CP_EVENT_WRITE && n == 3 then Some(Stamp(Quad(d[1], 0), d[2], d[0] >= EVENT_IRQ))
      else if p.id == CP_REG_WR_NO_CTXT && n >= 1 then Some(WriteRegs(d[0], d[1..]))
      else Some(Other(p.id, d))
  }

  /** The packets of type 7 that the theorems tell apart, by opcode and payload. */
  lemma ActsSeven(a: Word, b: Word, n: Word, v: Word, data: seq<Word>)
    ensures Act(Packet(Type7, 0x3F, [a, b, n])) == Some(RunIb(Quad(a, b), n))
    ensures Act(Packet(Type7, 0x3D, [a, b] + data)) == Some(Store(Quad(a, b), data))
    ensures Act(Packet(Type7, 0x46, [n, a, b, v])) == Some(Stamp(Quad(a, b), v, n >= 0x8000_0000))
    ensures Act(Packet(Type7, 0x53, [a, b, n])) == Some(SetTable(Quad(a, b), n))
    ensures Act(Packet(Type7, 0x3E, [n, a, b])) == Some(Sample(n, Quad(a, b)))
    ensures Act(Packet(Type7, 0x62, [a, b])) == Some(Report(Quad(a, b)))
    ensures Act(Packet(Type7, 0x6B, data)) == Some(Yield) && Act(Packet(Type7, 0x10, data)) == None
    ensures Act(Packet(Type7, 0x5F, data)) == None && Act(Packet(Type7, 0x66, data)) == None
  {
    assert ([a, b] + data)[2..] == data;
  }

  /** ... and those of type 3, and of types 0 and 4, which only write registers. */
  lemma ActsOther(a: Word, n: Word, v: Word, data: seq<Word>, reg: nat)
    ensures Act(Packet(Type3, 0x3F, [a, n])) == Some(RunIb(Quad(a, 0), n))
    ensures Act(Packet(Type3, 0x3D, [a] + data)) == Some(Store(Quad(a, 0), data))
    ensures Act(Packet(Type3, 0x46, [n, a, v])) == Some(Stamp(Quad(a, 0), v, n >= 0x8000_0000))
    ensures Act(Packet(Type3, 0x78, [a] + data)) == Some(WriteRegs(a, data))
    ensures Act(Packet(Type3, 0x10, data)) == None && Act(Packet(Type3, 0x5F, data)) == None
    ensures Act(Packet(Type0, reg, data)) == Act(Packet(Type4, reg, data)) == Some(WriteRegs(reg, data))
  {
    assert ([a] + data)[1..] == data;
  }

  function NextModes(m: Modes, p: Packet): Modes {
    if (p.kind == Type7 || p.kind == Type3) && |p.payload| == 1 then
      if p.id == CP_SET_PROTECTED_MODE then m.(protected := p.payload[0] != 0)
      else if p.id == CP_SET_SECURE_MODE && p.kind == Type7 then m.(secure := p.payload[0] != 0)
      else m
    else m
  }

  /** The modes after some packets. */
  function After(m: Modes, ps: seq<Packet>): Modes {
    if ps == [] then m else NextModes(After(m, ps[..|ps| - 1]), ps[|ps| - 1])
  }

  /** All actions, each with the modes it is done in. */
  function Trace(m: Modes, ps: seq<Packet>): seq<Step> {
    if ps == [] then []
    else
      var before, last := ps[..|ps| - 1], ps[|ps| - 1];
      Trace(m, before) + (match Act(last) case None => [] case Some(a) => [Step(a, After(m, before))])
  }

  /** The indirect buffers among the actions, in order. */
  function Ibs(steps: seq<Step>): seq<Action> {
    if steps == [] then []
    else
      var last := steps[|steps| - 1].action;
      Ibs(steps[..|steps| - 1]) + (if last.RunIb? then [last] else [])
  }

  lemma {:induction false} AfterConcat(m: Modes, a: seq<Packet>, b: seq<Packet>)
    ensures After(m, a + b) == After(After(m, a), b)
  {
    if b == [] {
      assert a + b == a;
    } else {
      AfterConcat(m, a, b[..|b| - 1]);
      assert (a + b)[..|a + b| - 1] == a + b[..|b| - 1];
    }
  }

  lemma {:induction false} TraceConcat(m: Modes, a: seq<Packet>, b: seq<Packet>)
    ensures Trace(m, a + b) == Trace(m, a) + Trace(After(m, a), b)
  {
    if b == [] {
      assert a + b == a;
    } else {
      var before := b[..|b| - 1];
      TraceConcat(m, a, before);
      AfterConcat(m, a, before);
      assert (a + b)[..|a + b| - 1] == a + before;
    }
  }

  lemma {:induction false} IbsConcat(a: seq<Step>, b: seq<Step>)
    ensures Ibs(a + b) == Ibs(a) + Ibs(b)
  {
    if b == [] {
      assert a + b == a;
    } else {
      IbsConcat(a, b[..|b| - 1]);
      assert (a + b)[..|a + b| - 1] == a + b[..|b| - 1];
    }
  }

  lemma TraceOne(m: Modes, p: Packet)
    ensures After(m, [p]) == NextModes(m, p)
    ensures Trace(m, [p]) == (match Act(p) case None => [] case Some(a) => [Step(a, m)])
  {
    assert [p][..0] == [];
  }

  /** From modes m the packets do exactly these steps and end in modes m'. */
  predicate Does(m: Modes, ps: seq<Packet>, m': Modes, steps: seq<Step>) {
    After(m, ps) == m' && Trace(m, ps) == steps
  }

  lemma DoesNothing(m: Modes)
    ensures Does(m, [], m, [])
  {
  }

  lemma DoesThen(m: Modes, a: seq<Packet>, m1: Modes, s1: seq<Step>, b: seq<Packet>, m2: Modes, s2: seq<Step>)
    requires Does(m, a, m1, s1) && Does(m1, b, m2, s2)
    ensures Does(m, a + b, m2, s1 + s2)
  {
    AfterConcat(m, a, b);
    TraceConcat(m, a, b);
  }

  lemma DoesOne(m: Modes, p: Packet, a: Action)
    requires Act(p) == Some(a) && NextModes(m, p) == m
    ensures Does(m, [p], m, [Step(a, m)])
  {
    TraceOne(m, p);
  }

  lemma DoesMode(m: Modes, p: Packet)
    requires Act(p) == None
    ensures Does(m, [p], NextModes(m, p), [])
  {
    TraceOne(m, p);
  }

  /** One more packet that does a. */
  lemma DoesNext(m: Modes, ps: seq<Packet>, m1: Modes, steps: seq<Step>, p: Packet, a: Action)
    requires Does(m, ps, m1, steps) && Act(p) == Some(a) && NextModes(m1, p) == m1
    ensures Does(m, ps + [p], m1, steps + [Step(a, m1)])
  {
    DoesOne(m1, p, a);
    DoesThen(m, ps, m1, steps, [p], m1, [Step(a, m1)]);
  }

  /** One more packet that only sets modes, or nothing at all. */
  lemma DoesSilent(m: Modes, ps: seq<Packet>, m1: Modes, steps: seq<Step>, p: Packet)
    requires Does(m, ps, m1, steps) && Act(p) == None
    ensures Does(m, ps + [p], NextModes(m1, p), steps)
  {
    DoesMode(m1, p);
    DoesThen(m, ps, m1, steps, [p], NextModes(m1, p), []);
    assert steps + [] == steps;
  }

  lemma ModeIf(m: Modes, on: bool, p: Packet)
    requires Act(p) == None
    ensures Does(m, if on then [p] else [], if on then NextModes(m, p) else m, [])
  {
    if on { DoesMode(m, p); } else { DoesNothing(m); }
  }

  lemma StepIf(m: Modes, on: bool, p: Packet, a: Action)
    requires Act(p) == Some(a) && NextModes(m, p) == m
    ensures Does(m, if on then [p] else [], m, if on then [Step(a, m)] else [])
  {
    if on { DoesOne(m, p, a); } else { DoesNothing(m); }
  }

  lemma SwitchesDo(m: Modes, ps: seq<Packet>, m1: Modes, steps: seq<Step>, on: bool, p: Packet)
    requires Does(m, ps, m1, steps) && Act(p) == None
    ensures Does(m, ps + (if on then [p] else []), if on then NextModes(m1, p) else m1, steps)
  {
    ModeIf(m1, on, p);
    DoesThen(m, ps, m1, steps, if on then [p] else [], if on then NextModes(m1, p) else m1, []);
    assert steps + [] == steps;
  }

  lemma StepsIf(m: Modes, ps: seq<Packet>, m1: Modes, steps: seq<Step>, on: bool, p: Packet, a: Action)
    requires Does(m, ps, m1, steps) && Act(p) == Some(a) && NextModes(m1, p) == m1
    ensures Does(m, ps + (if on then [p] else []), m1, steps + (if on then [Step(a, m1)] else []))
  {
    StepIf(m1, on, p, a);
    DoesThen(m, ps, m1, steps, if on then [p] else [], m1, if on then [Step(a, m1)] else []);
  }

  /** No packet among these has this opcode. */
  predicate Without(id: nat, ps: seq<Packet>) {
    forall p :: p in ps ==> p.id != id
  }

  lemma WithoutThen(id: nat, a: seq<Packet>, b: seq<Packet>)
    requires Without(id, a) && Without(id, b)
    ensures Without(id, a + b)
  {
  }

  /** Packets that set no mode do all they do in one. */
  lemma {:induction false} SteadyTrace(m: Modes, ps: seq<Packet>)
    requires Without(CP_SET_PROTECTED_MODE, ps) && Without(CP_SET_SECURE_MODE, ps)
    ensures After(m, ps) == m && forall step :: step in Trace(m, ps) ==> step.modes == m
  {
    if ps != [] {
      SteadyTrace(m, ps[..|ps| - 1]);
    }
  }

  /** What is stamped at one address, in order. */
  function StampsAt(addr: Quad, steps: seq<Step>): seq<Word> {
    if steps == [] then []
    else
      var last := steps[|steps| - 1].action;
      StampsAt(addr, steps[..|steps| - 1]) + (if last.Stamp? && last.addr == addr then [last.value] else [])
  }

  lemma {:induction false} StampsConcat(addr: Quad, a: seq<Step>, b: seq<Step>)
    ensures StampsAt(addr, a + b) == StampsAt(addr, a) + StampsAt(addr, b)
  {
    if b == [] {
      assert a + b == a;
    } else {
      StampsConcat(addr, a, b[..|b| - 1]);
      LastOfBoth(a, b);
    }
  }

  lemma StampsOne(addr: Quad, step: Step)
    ensures StampsAt(addr, [step])
         == if step.action.Stamp? && step.action.addr == addr then [step.action.value] else []
  {
    assert [step][..0] == [];
  }

  /** Any other step leaves them as they are. */
  lemma StampsIf(addr: Quad, steps: seq<Step>, on: bool, step: Step)
    requires !step.action.Stamp?
    ensures StampsAt(addr, steps + (if on then [step] else [])) == StampsAt(addr, steps)
  {
    if on {
      StampsOne(addr, step);
      StampsConcat(addr, steps, [step]);
    } else {
      assert steps + [] == steps;
    }
  }

  lemma EventlessAct(p: Packet)
    requires p.id != CP_EVENT_WRITE && Act(p).Some?
    ensures !Act(p).value.Stamp?
  {
  }

  lemma {:induction false} StampsNothing(addr: Quad, m: Modes, ps: seq<Packet>)
    requires Without(CP_EVENT_WRITE, ps)
    ensures StampsAt(addr, Trace(m, ps)) == []
  {
    if ps != [] {
      var before, last := ps[..|ps| - 1], ps[|ps| - 1];
      StampsNothing(addr, m, before);
      if Act(last).Some? {
        EventlessAct(last);
        var step := Step(Act(last).value, After(m, before));
        StampsOne(addr, step);
        StampsConcat(addr, Trace(m, before), [step]);
      } else {
        assert Trace(m, ps) == Trace(m, before);
      }
    }
  }

  /** From modes m the CP parses exactly these dwords, does exactly these steps and ends in modes m'. */
  predicate Performs(m: Modes, dwords: seq<Word>, m': Modes, steps: seq<Step>) {
    Parse(dwords).Some? && Does(m, Parse(dwords).value, m', steps)
  }

  lemma PerformsThen(m: Modes, a: seq<Word>, m1: Modes, s1: seq<Step>, b: seq<Word>, m2: Modes, s2: seq<Step>)
    requires Performs(m, a, m1, s1) && Performs(m1, b, m2, s2)
    ensures Performs(m, a + b, m2, s1 + s2)
  {
    ParseConcat(a, b);
    DoesThen(m, Parse(a).value, m1, s1, Parse(b).value, m2, s2);
  }

  /** ... and nothing, behind what it does. */
  lemma PerformsIdly(m: Modes, a: seq<Word>, m1: Modes, s1: seq<Step>, b: seq<Word>)
    requires Performs(m, a, m1, s1) && Performs(m1, b, m1, [])
    ensures Performs(m, a + b, m1, s1)
  {
    PerformsThen(m, a, m1, s1, b, m1, []);
    assert s1 + [] == s1;
  }

  /** Actions that are all done in one mode. */
  function StepsIn(m: Modes, actions: seq<Action>): seq<Step> {
    if actions == [] then [] else StepsIn(m, actions[..|actions| - 1]) + [Step(actions[|actions| - 1], m)]
  }

  lemma StepsNext(m: Modes, actions: seq<Action>, a: Action)
    ensures StepsIn(m, actions + [a]) == StepsIn(m, actions) + [Step(a, m)]
  {
    assert (actions + [a])[..|actions|] == actions;
  }

  lemma {:induction false} IbsIn(m: Modes, actions: seq<Action>)
    requires forall a :: a in actions ==> a.RunIb?
    ensures Ibs(StepsIn(m, actions)) == actions
  {
    if actions != [] {
      IbsIn(m, actions[..|actions| - 1]);
    }
  }

  /** One step more, if any. */
  lemma IbsIf(steps: seq<Step>, on: bool, step: Step)
    ensures Ibs(steps + (if on then [step] else []))
         == Ibs(steps) + (if on && step.action.RunIb? then [step.action] else [])
  {
    if on {
      assert (steps + [step])[..|steps|] == steps;
    } else {
      assert steps + [] == steps && Ibs(steps) + [] == Ibs(steps);
    }
  }
}
