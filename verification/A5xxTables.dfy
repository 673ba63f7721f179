/** Context switches on a5xx, and how the streams of dwords appear to the preemption protocol. */
module A5xxTables {
  import opened Pm4
  import opened CpMachine
  import opened A5xxPackets
  import opened A5xxSubmit
  import PM = PreemptModel
  import PreemptTables

  // ---------------------------------------------------------------- the context switch

  /** Where a switch to a pagetable other than the default one goes: its ttbr0, and the ring's scratch slot for it. */
  datatype Pagetable = Pagetable(ttbr0: Quad, scratch: Quad)

  /** a5xx_rb_pagetable_switch; None is the default pagetable. */
  function PagetableSwitch(to: Option<Pagetable>, id: Word): seq<Packet> {
    if to == None then []
    else
      [Op(CP_SMMU_TABLE_UPDATE, [to.value.ttbr0.lo, to.value.ttbr0.hi, id])]
      + [Op(CP_WAIT_FOR_IDLE, [])]
      + [Op(CP_WAIT_FOR_ME, [])]
      + [Packet(Type4, A5XX_CP_CNTL, [1])]
      + [MemWrite(to.value.scratch, [to.value.ttbr0.lo, to.value.ttbr0.hi, id])]
      + [Op(CP_WAIT_FOR_IDLE, [])]
      + [Op(CP_WAIT_FOR_ME, [])]
      + [Packet(Type4, A5XX_CP_CNTL, [0])]
  }

  function ContextNotes(ringNote: Quad, globalNote: Quad, id: Word): seq<Packet> {
    [Nop(CONTEXT_TO_MEM_IDENTIFIER)]
    + [MemWrite(ringNote, [id])]
    + [MemWrite(globalNote, [id])]
    + [Packet(Type4, A5XX_UCHE_INVALIDATE0, [0x12])]
  }

  /** The payload of a5xx_rb_context_switch; `differs` is whether the active context has another pagetable. */
  function ContextSwitch(differs: bool, to: Option<Pagetable>, ringNote: Quad, globalNote: Quad, id: Word): seq<Packet> {
    (if differs then PagetableSwitch(to, id) else []) + ContextNotes(ringNote, globalNote, id)
  }

  /** Whose pagetable a context uses: the default one, or its process's, which is known by its ttbr0. */
  datatype Space = Default | Own(ttbr0: Quad)

  /** A draw context, as far as switching to it goes. */
  datatype Client = Client(id: Word, space: Space)

  /** The ring's slots: its ttbr0 words in scratch memory, and where the ring's and the device's current context are noted. */
  datatype Slots = Slots(scratch: Quad, ringNote: Quad, globalNote: Quad)

  predicate Differs(active: Option<Client>, c: Client) {
    active == None || active.value.space != c.space
  }

  /** The payload that switches a ring from its active context, if any, to c. */
  function SwitchTo(active: Option<Client>, c: Client, slots: Slots): seq<Packet> {
    ContextSwitch(Differs(active, c), if c.space == Default then None else Some(Pagetable(c.space.ttbr0, slots.scratch)),
                  slots.ringNote, slots.globalNote, c.id)
  }

  lemma SwitchToWithin(active: Option<Client>, c: Client, slots: Slots)
    ensures Within(SwitchTo(active, c, slots), 30)
  {
    ContextSwitchWithin(Differs(active, c), if c.space == Default then None else Some(Pagetable(c.space.ttbr0, slots.scratch)),
                        slots.ringNote, slots.globalNote, c.id);
  }

  lemma SwitchWithin(to: Option<Pagetable>, id: Word)
    ensures Within(PagetableSwitch(to, id), 18)
  {
    if to != None {
      var update := Op(CP_SMMU_TABLE_UPDATE, [to.value.ttbr0.lo, to.value.ttbr0.hi, id]);
      var idle, me := Op(CP_WAIT_FOR_IDLE, []), Op(CP_WAIT_FOR_ME, []);
      var on, off := Packet(Type4, A5XX_CP_CNTL, [1]), Packet(Type4, A5XX_CP_CNTL, [0]);
      var write := MemWrite(to.value.scratch, [to.value.ttbr0.lo, to.value.ttbr0.hi, id]);
      WithinIf(true, update); WithinIf(true, idle); WithinIf(true, me);
      WithinIf(true, on); WithinIf(true, off); WithinIf(true, write);
      WithinThen([update], 4, [idle], 1);
      WithinThen([update] + [idle], 5, [me], 1);
      WithinThen([update] + [idle] + [me], 6, [on], 2);
      WithinThen([update] + [idle] + [me] + [on], 8, [write], 6);
      WithinThen([update] + [idle] + [me] + [on] + [write], 14, [idle], 1);
      WithinThen([update] + [idle] + [me] + [on] + [write] + [idle], 15, [me], 1);
      WithinThen([update] + [idle] + [me] + [on] + [write] + [idle] + [me], 16, [off], 2);
    }
  }

  lemma NotesWithin(ringNote: Quad, globalNote: Quad, id: Word)
    ensures Within(ContextNotes(ringNote, globalNote, id), 12)
  {
    var nop, uche := Nop(CONTEXT_TO_MEM_IDENTIFIER), Packet(Type4, A5XX_UCHE_INVALIDATE0, [0x12]);
    var ring, global := MemWrite(ringNote, [id]), MemWrite(globalNote, [id]);
    WithinIf(true, nop); WithinIf(true, ring); WithinIf(true, global); WithinIf(true, uche);
    WithinThen([nop], 2, [ring], 4);
    WithinThen([nop] + [ring], 6, [global], 4);
    WithinThen([nop] + [ring] + [global], 10, [uche], 2);
  }

  /** The 32 dwords on the stack are enough. */
  lemma ContextSwitchWithin(differs: bool, to: Option<Pagetable>, ringNote: Quad, globalNote: Quad, id: Word)
    ensures Within(ContextSwitch(differs, to, ringNote, globalNote, id), 30)
  {
    SwitchWithin(to, id);
    NotesWithin(ringNote, globalNote, id);
    WithinThen(if differs then PagetableSwitch(to, id) else [], 18, ContextNotes(ringNote, globalNote, id), 12);
  }

  // ---------------------------------------------------------------- all steps of a context switch

  /** Up to the scratch write ... */
  lemma UpdateDoes(m: Modes, t: Pagetable, id: Word)
    ensures Does(m, [Op(CP_SMMU_TABLE_UPDATE, [t.ttbr0.lo, t.ttbr0.hi, id])] + [Op(CP_WAIT_FOR_IDLE, [])]
                    + [Op(CP_WAIT_FOR_ME, [])] + [Packet(Type4, A5XX_CP_CNTL, [1])], m,
                 [Step(SetTable(t.ttbr0, id), m)] + [Step(Other(0x26, []), m)] + [Step(Other(0x13, []), m)]
                 + [Step(WriteRegs(0x831, [1]), m)])
  {
    var update := Op(CP_SMMU_TABLE_UPDATE, [t.ttbr0.lo, t.ttbr0.hi, id]);
    var idle, me, on := Op(CP_WAIT_FOR_IDLE, []), Op(CP_WAIT_FOR_ME, []), Packet(Type4, A5XX_CP_CNTL, [1]);
    var s1 := [Step(SetTable(t.ttbr0, id), m)];
    var s2 := s1 + [Step(Other(0x26, []), m)];
    DoesOne(m, update, SetTable(t.ttbr0, id));
    DoesNext(m, [update], m, s1, idle, Other(0x26, []));
    DoesNext(m, [update] + [idle], m, s2, me, Other(0x13, []));
    DoesNext(m, [update] + [idle] + [me], m, s2 + [Step(Other(0x13, []), m)], on, WriteRegs(0x831, [1]));
  }

  /** ... and from there on. */
  lemma MirrorDoes(m: Modes, ps: seq<Packet>, steps: seq<Step>, t: Pagetable, id: Word)
    requires Does(m, ps, m, steps)
    ensures Does(m, ps + [MemWrite(t.scratch, [t.ttbr0.lo, t.ttbr0.hi, id])] + [Op(CP_WAIT_FOR_IDLE, [])]
                    + [Op(CP_WAIT_FOR_ME, [])] + [Packet(Type4, A5XX_CP_CNTL, [0])], m,
                 steps + [Step(Store(t.scratch, [t.ttbr0.lo, t.ttbr0.hi, id]), m)] + [Step(Other(0x26, []), m)]
                 + [Step(Other(0x13, []), m)] + [Step(WriteRegs(0x831, [0]), m)])
  {
    var write := MemWrite(t.scratch, [t.ttbr0.lo, t.ttbr0.hi, id]);
    var idle, me, off := Op(CP_WAIT_FOR_IDLE, []), Op(CP_WAIT_FOR_ME, []), Packet(Type4, A5XX_CP_CNTL, [0]);
    var s1 := steps + [Step(Store(t.scratch, [t.ttbr0.lo, t.ttbr0.hi, id]), m)];
    var s2 := s1 + [Step(Other(0x26, []), m)];
    DoesNext(m, ps, m, steps, write, Store(t.scratch, [t.ttbr0.lo, t.ttbr0.hi, id]));
    DoesNext(m, ps + [write], m, s1, idle, Other(0x26, []));
    DoesNext(m, ps + [write] + [idle], m, s2, me, Other(0x13, []));
    DoesNext(m, ps + [write] + [idle] + [me], m, s2 + [Step(Other(0x13, []), m)], off, WriteRegs(0x831, [0]));
  }

  lemma NotesDo(m: Modes, ps: seq<Packet>, steps: seq<Step>, slots: Slots, id: Word)
    requires Does(m, ps, m, steps)
    ensures Does(m, ps + ContextNotes(slots.ringNote, slots.globalNote, id), m,
                 steps + [Step(Store(slots.ringNote, [id]), m)] + [Step(Store(slots.globalNote, [id]), m)]
                 + [Step(WriteRegs(0xE95, [0x12]), m)])
  {
    var nop, uche := Nop(CONTEXT_TO_MEM_IDENTIFIER), Packet(Type4, A5XX_UCHE_INVALIDATE0, [0x12]);
    var ring, global := MemWrite(slots.ringNote, [id]), MemWrite(slots.globalNote, [id]);
    var s1 := steps + [Step(Store(slots.ringNote, [id]), m)];
    StoreDoes(m, slots.ringNote, id);
    StoreDoes(m, slots.globalNote, id);
    DoesSilent(m, ps, m, steps, nop);
    DoesNext(m, ps + [nop], m, steps, ring, Store(slots.ringNote, [id]));
    DoesNext(m, ps + [nop] + [ring], m, s1, global, Store(slots.globalNote, [id]));
    DoesNext(m, ps + [nop] + [ring] + [global], m, s1 + [Step(Store(slots.globalNote, [id]), m)], uche, WriteRegs(0xE95, [0x12]));
    FourBehind(ps, nop, ring, global, uche);
  }

  lemma FourBehind<T>(s: seq<T>, a: T, b: T, c: T, d: T)
    ensures s + [a] + [b] + [c] + [d] == s + ([a] + [b] + [c] + [d])
  {
  }

  /** All that a context switch has the CP do. To an own pagetable that the active context does not have: the table is
    installed, the CP idles, and CP_CNTL is 1 while the new values are mirrored in the ring's scratch slot. In any case the
    context is noted for the ring and for the device, and the UCHE invalidated. */
  lemma SwitchSteps(active: Option<Client>, c: Client, slots: Slots, m: Modes)
    ensures Does(m, SwitchTo(active, c, slots), m,
                 (if c.space.Own? && (active == None || active.value.space != c.space) then
                    [Step(SetTable(c.space.ttbr0, c.id), m)] + [Step(Other(0x26, []), m)] + [Step(Other(0x13, []), m)]
                    + [Step(WriteRegs(0x831, [1]), m)]
                    + [Step(Store(slots.scratch, [c.space.ttbr0.lo, c.space.ttbr0.hi, c.id]), m)]
                    + [Step(Other(0x26, []), m)] + [Step(Other(0x13, []), m)] + [Step(WriteRegs(0x831, [0]), m)]
                  else [])
                 + [Step(Store(slots.ringNote, [c.id]), m)] + [Step(Store(slots.globalNote, [c.id]), m)]
                 + [Step(WriteRegs(0xE95, [0x12]), m)])
  {
    if c.space.Own? && Differs(active, c) {
      OwnSwitchSteps(c, slots, m);
    } else {
      DoesNothing(m);
      NotesDo(m, [], [], slots, c.id);
    }
  }

  lemma OwnSwitchSteps(c: Client, slots: Slots, m: Modes)
    requires c.space.Own?
    ensures Does(m, PagetableSwitch(Some(Pagetable(c.space.ttbr0, slots.scratch)), c.id)
                    + ContextNotes(slots.ringNote, slots.globalNote, c.id), m,
                 [Step(SetTable(c.space.ttbr0, c.id), m)] + [Step(Other(0x26, []), m)] + [Step(Other(0x13, []), m)]
                 + [Step(WriteRegs(0x831, [1]), m)]
                 + [Step(Store(slots.scratch, [c.space.ttbr0.lo, c.space.ttbr0.hi, c.id]), m)]
                 + [Step(Other(0x26, []), m)] + [Step(Other(0x13, []), m)] + [Step(WriteRegs(0x831, [0]), m)]
                 + [Step(Store(slots.ringNote, [c.id]), m)] + [Step(Store(slots.globalNote, [c.id]), m)]
                 + [Step(WriteRegs(0xE95, [0x12]), m)])
  {
    var t := Pagetable(c.space.ttbr0, slots.scratch);
    var half := [Op(CP_SMMU_TABLE_UPDATE, [t.ttbr0.lo, t.ttbr0.hi, c.id])] + [Op(CP_WAIT_FOR_IDLE, [])]
      + [Op(CP_WAIT_FOR_ME, [])] + [Packet(Type4, A5XX_CP_CNTL, [1])];
    var halfSteps := [Step(SetTable(t.ttbr0, c.id), m)] + [Step(Other(0x26, []), m)] + [Step(Other(0x13, []), m)]
      + [Step(WriteRegs(0x831, [1]), m)];
    var steps := halfSteps + [Step(Store(t.scratch, [t.ttbr0.lo, t.ttbr0.hi, c.id]), m)] + [Step(Other(0x26, []), m)]
      + [Step(Other(0x13, []), m)] + [Step(WriteRegs(0x831, [0]), m)];
    UpdateDoes(m, t, c.id);
    MirrorDoes(m, half, halfSteps, t, c.id);
    NotesDo(m, PagetableSwitch(Some(t), c.id), steps, slots, c.id);
  }

  // ---------------------------------------------------------------- seen from the preemption protocol

  /** How a packet appears in PreemptModel; `scratch` is the address of the ring's ttbr0 slot, with contextidr behind it. */
  function Seen(scratch: Quad, p: Packet): PM.Packet {
    match Act(p)
    case Some(SetTable(t, id)) => PM.TableUpdate(PM.Table(t.lo, t.hi, id))
    case Some(Store(addr, data)) =>
      if addr == scratch && |data| == 3 then PM.ScratchWrite(PM.Table(data[0], data[1], data[2])) else PM.Work
    case Some(Yield) => PM.Yield
    case _ => PM.Work
  }

  function SeenAll(scratch: Quad, ps: seq<Packet>): seq<PM.Packet> {
    if ps == [] then [] else SeenAll(scratch, ps[..|ps| - 1]) + [Seen(scratch, ps[|ps| - 1])]
  }

  predicate Plain(scratch: Quad, ps: seq<Packet>) {
    forall p :: p in ps ==> Seen(scratch, p) == PM.Work
  }

  lemma {:induction false} SeenConcat(scratch: Quad, a: seq<Packet>, b: seq<Packet>)
    ensures SeenAll(scratch, a + b) == SeenAll(scratch, a) + SeenAll(scratch, b)
  {
    if b == [] {
      assert a + b == a;
    } else {
      var before := b[..|b| - 1];
      SeenConcat(scratch, a, before);
      LastOfBoth(a, b);
      Regroup(SeenAll(scratch, a), SeenAll(scratch, before), [Seen(scratch, b[|b| - 1])]);
    }
  }

  lemma WorkAfter(a: seq<PM.Packet>, initial: PM.Table)
    ensures PM.Open(a + [PM.Work]) == PM.Open(a) && PM.LastTable(a + [PM.Work], initial) == PM.LastTable(a, initial)
    ensures PM.Yield in a + [PM.Work] ==> PM.Yield in a
  {
    assert (a + [PM.Work])[..|a|] == a;
  }

  lemma {:induction false} PlainSeen(scratch: Quad, ps: seq<Packet>, initial: PM.Table)
    requires Plain(scratch, ps)
    ensures PM.WellFormed(SeenAll(scratch, ps)) && PM.LastTable(SeenAll(scratch, ps), initial) == initial
    ensures PM.Yield !in SeenAll(scratch, ps)
  {
    if ps != [] {
      var before := ps[..|ps| - 1];
      assert Plain(scratch, before);
      PlainSeen(scratch, before, initial);
      assert SeenAll(scratch, ps) == SeenAll(scratch, before) + [PM.Work];
      WorkAfter(SeenAll(scratch, before), initial);
    }
  }

  lemma {:induction false} LastTableConcat(a: seq<PM.Packet>, b: seq<PM.Packet>, initial: PM.Table)
    ensures PM.LastTable(a + b, initial) == PM.LastTable(b, PM.LastTable(a, initial))
  {
    if b == [] {
      assert a + b == a;
    } else {
      LastTableConcat(a, b[..|b| - 1], initial);
      assert (a + b)[..|a + b| - 1] == a + b[..|b| - 1];
    }
  }

  lemma {:induction false} OpenPlain(a: seq<PM.Packet>, b: seq<PM.Packet>, initial: PM.Table)
    requires forall i :: 0 <= i < |b| ==> b[i] == PM.Work
    ensures PM.Open(a + b) == PM.Open(a) && PM.LastTable(a + b, initial) == PM.LastTable(a, initial)
  {
    if b == [] {
      assert a + b == a;
    } else {
      OpenPlain(a, b[..|b| - 1], initial);
      assert (a + b)[..|a + b| - 1] == a + b[..|b| - 1];
    }
  }

  lemma {:induction false} PlainIsWork(scratch: Quad, ps: seq<Packet>)
    requires Plain(scratch, ps)
    ensures forall i :: 0 <= i < |SeenAll(scratch, ps)| ==> SeenAll(scratch, ps)[i] == PM.Work
  {
    if ps != [] {
      PlainIsWork(scratch, ps[..|ps| - 1]);
    }
  }

  lemma SeenOne(scratch: Quad, p: Packet)
    ensures SeenAll(scratch, [p]) == [Seen(scratch, p)]
  {
    assert [p][..0] == [];
  }

  /** One plain run of packets behind a. */
  lemma ThenPlain(scratch: Quad, a: seq<Packet>, b: seq<Packet>, initial: PM.Table)
    requires Plain(scratch, b) && PM.Yield !in SeenAll(scratch, a)
    ensures PM.Open(SeenAll(scratch, a + b)) == PM.Open(SeenAll(scratch, a))
    ensures PM.LastTable(SeenAll(scratch, a + b), initial) == PM.LastTable(SeenAll(scratch, a), initial)
    ensures PM.Yield !in SeenAll(scratch, a + b)
  {
    SeenConcat(scratch, a, b);
    PlainIsWork(scratch, b);
    OpenPlain(SeenAll(scratch, a), SeenAll(scratch, b), initial);
  }

  lemma SwitchSeen(to: Pagetable, id: Word, initial: PM.Table)
    ensures var seen := SeenAll(to.scratch, PagetableSwitch(Some(to), id));
            && PM.WellFormed(seen) && PM.Yield !in seen
            && PM.LastTable(seen, initial) == PM.Table(to.ttbr0.lo, to.ttbr0.hi, id)
  {
    var update := Op(CP_SMMU_TABLE_UPDATE, [to.ttbr0.lo, to.ttbr0.hi, id]);
    var idle, me := Op(CP_WAIT_FOR_IDLE, []), Op(CP_WAIT_FOR_ME, []);
    var on, off := Packet(Type4, A5XX_CP_CNTL, [1]), Packet(Type4, A5XX_CP_CNTL, [0]);
    var write := MemWrite(to.scratch, [to.ttbr0.lo, to.ttbr0.hi, id]);
    var table := PM.Table(to.ttbr0.lo, to.ttbr0.hi, id);
    EightGrouped(update, idle, me, on, write, idle, me, off);
    ThreePlain(to.scratch, idle, me, on);
    ThreePlain(to.scratch, idle, me, off);
    UpdateMirrored(to.scratch, update, [idle] + [me] + [on], write, [idle] + [me] + [off], table, initial);
  }

  lemma EightGrouped<T>(a: T, b: T, c: T, d: T, e: T, f: T, g: T, h: T)
    ensures [a] + [b] + [c] + [d] + [e] + [f] + [g] + [h] == [a] + ([b] + [c] + [d]) + [e] + ([f] + [g] + [h])
  {
  }

  lemma ThreePlain(scratch: Quad, p: Packet, q: Packet, r: Packet)
    requires Seen(scratch, p) == PM.Work && Seen(scratch, q) == PM.Work && Seen(scratch, r) == PM.Work
    ensures Plain(scratch, [p] + [q] + [r])
  {
  }

  lemma UpdateMirrored(scratch: Quad, update: Packet, a: seq<Packet>, write: Packet, b: seq<Packet>,
                       table: PM.Table, initial: PM.Table)
    requires Seen(scratch, update) == PM.TableUpdate(table) && Seen(scratch, write) == PM.ScratchWrite(table)
    requires Plain(scratch, a) && Plain(scratch, b)
    ensures var seen := SeenAll(scratch, [update] + a + [write] + b);
            PM.WellFormed(seen) && PM.Yield !in seen && PM.LastTable(seen, initial) == table
  {
    SeenOne(scratch, update);
    assert [PM.TableUpdate(table)][..0] == [];
    ThenPlain(scratch, [update], a, initial);
    var open := SeenAll(scratch, [update] + a);
    SeenOne(scratch, write);
    SeenConcat(scratch, [update] + a, [write]);
    assert (open + [PM.ScratchWrite(table)])[..|open|] == open;
    ThenPlain(scratch, [update] + a + [write], b, initial);
  }

  /** A context switch leaves no table update without its mirror in scratch memory, and installs the new table if
    there is one to install. */
  lemma ContextSwitchSeen(differs: bool, to: Option<Pagetable>, ringNote: Quad, globalNote: Quad, id: Word,
                          scratch: Quad, initial: PM.Table)
    requires to.Some? ==> to.value.scratch == scratch
    ensures var seen := SeenAll(scratch, ContextSwitch(differs, to, ringNote, globalNote, id));
            && PM.WellFormed(seen) && PM.Yield !in seen
            && PM.LastTable(seen, initial)
               == if differs && to.Some? then PM.Table(to.value.ttbr0.lo, to.value.ttbr0.hi, id) else initial
  {
    var change := if differs then PagetableSwitch(to, id) else [];
    var notes := ContextNotes(ringNote, globalNote, id);
    if differs && to.Some? { SwitchSeen(to.value, id, initial); }
    ThenPlain(scratch, change, notes, initial);
  }

  lemma PlainThen(scratch: Quad, a: seq<Packet>, b: seq<Packet>)
    requires Plain(scratch, a) && Plain(scratch, b)
    ensures Plain(scratch, a + b)
  {
  }

  lemma PlainIf(scratch: Quad, on: bool, p: Packet)
    requires Seen(scratch, p) == PM.Work
    ensures Plain(scratch, if on then [p] else [])
  {
  }

  lemma PrePlain(record: Quad, finegrain: bool, scratch: Quad)
    ensures Plain(scratch, PreIbsubmit(record, finegrain))
  {
    var global := Op(CP_PREEMPT_ENABLE_GLOBAL, [if finegrain then 2 else 0]);
    var lo := Packet(Type4, A5XX_CP_CONTEXT_SWITCH_SAVE_ADDR_LO, [record.lo]);
    var hi := Packet(Type4, A5XX_CP_CONTEXT_SWITCH_SAVE_ADDR_HI, [record.hi]);
    var local := Op(CP_PREEMPT_ENABLE_LOCAL, [if finegrain then 1 else 0]);
    PlainIf(scratch, true, global); PlainIf(scratch, true, Protected(false)); PlainIf(scratch, true, lo);
    PlainIf(scratch, true, hi); PlainIf(scratch, true, Protected(true)); PlainIf(scratch, true, local);
    PlainIf(scratch, true, Op(CP_YIELD_ENABLE, [2]));
    PlainThen(scratch, [global], [Protected(false)]);
    PlainThen(scratch, [global] + [Protected(false)], [lo]);
    PlainThen(scratch, [global] + [Protected(false)] + [lo], [hi]);
    PlainThen(scratch, [global] + [Protected(false)] + [lo] + [hi], [Protected(true)]);
    PlainThen(scratch, [global] + [Protected(false)] + [lo] + [hi] + [Protected(true)], [local]);
    PlainThen(scratch, [global] + [Protected(false)] + [lo] + [hi] + [Protected(true)] + [local], [Op(CP_YIELD_ENABLE, [2])]);
  }

  lemma FrontPlain(x: Envelope, scratch: Quad)
    ensures Plain(scratch, Front(x))
  {
    var id := Nop(if x.drawctxt.Some? then CMD_IDENTIFIER else CMD_INTERNAL_IDENTIFIER);
    var pre := if x.preempt.Some? then PreIbsubmit(x.preempt.value, Finegrain(x)) else [];
    PlainIf(scratch, true, id);
    if x.preempt.Some? { PrePlain(x.preempt.value, Finegrain(x), scratch); }
    ProfilePlain(x.before, scratch);
    PlainThen(scratch, [id], pre);
    PlainThen(scratch, [id] + pre, ProfilePackets(x.before));
  }

  lemma OpeningPlain(x: Envelope, timestamp: Word, scratch: Quad)
    ensures Plain(scratch, Opening(x, timestamp))
  {
    var sop := if x.drawctxt.Some? then [MemWrite(x.drawctxt.value.sop, [x.drawctxt.value.timestamp])] else [];
    var ring := MemWrite(x.ringSop, [timestamp]);
    var secure := if x.secure then [Secured(true)] else [];
    FrontPlain(x, scratch);
    if x.drawctxt.Some? { PlainIf(scratch, true, sop[0]); }
    PlainIf(scratch, true, ring);
    PlainIf(scratch, x.secure, Secured(true));
    PlainIf(scratch, x.notProtected, Protected(false));
    PlainThen(scratch, Front(x), sop);
    PlainThen(scratch, Front(x) + sop, [ring]);
    PlainThen(scratch, Front(x) + sop + [ring], secure);
    PlainThen(scratch, Front(x) + sop + [ring] + secure, if x.notProtected then [Protected(false)] else []);
  }

  /** The closing without its yield. */
  function Quiet(x: Envelope, timestamp: Word): seq<Packet> {
    Back(x, timestamp)
    + (if x.wfi then [Op(CP_WAIT_FOR_IDLE, [])] else [])
    + (if x.secure then [Secured(false)] else [])
  }

  lemma ProfilePlain(at: Option<(Quad, Word)>, scratch: Quad)
    ensures Plain(scratch, ProfilePackets(at))
  {
  }

  lemma EopPlain(x: Envelope, timestamp: Word, scratch: Quad)
    ensures Plain(scratch, EopPackets(x, timestamp))
  {
  }

  lemma BackPlain(x: Envelope, timestamp: Word, scratch: Quad)
    ensures Plain(scratch, Back(x, timestamp))
  {
    var on := if x.notProtected then [Protected(true)] else [];
    var profile := ProfilePackets(x.after);
    var wait := if x.waitMemWrites then [Op(CP_WAIT_MEM_WRITES, [])] else [];
    var ref := MemWrite(x.refWait, [x.sequence]);
    PlainIf(scratch, x.notProtected, Protected(true));
    ProfilePlain(x.after, scratch);
    PlainIf(scratch, x.waitMemWrites, Op(CP_WAIT_MEM_WRITES, []));
    PlainIf(scratch, true, ref);
    EopPlain(x, timestamp, scratch);
    PlainThen(scratch, on, profile);
    PlainThen(scratch, on + profile, wait);
    PlainThen(scratch, on + profile + wait, [ref]);
    PlainThen(scratch, on + profile + wait + [ref], EopPackets(x, timestamp));
  }

  lemma QuietPlain(x: Envelope, timestamp: Word, scratch: Quad)
    ensures Plain(scratch, Quiet(x, timestamp))
  {
    var wfi := if x.wfi then [Op(CP_WAIT_FOR_IDLE, [])] else [];
    BackPlain(x, timestamp, scratch);
    PlainIf(scratch, x.wfi, Op(CP_WAIT_FOR_IDLE, []));
    PlainIf(scratch, x.secure, Secured(false));
    PlainThen(scratch, Back(x, timestamp), wfi);
    PlainThen(scratch, Back(x, timestamp) + wfi, if x.secure then [Secured(false)] else []);
  }

  /** In whatever envelope, a payload that mirrors its table updates makes a submission that does: the block of packets
    that PreemptModel's Emit takes. Its only yield, if preemption is enabled, is its last packet, and it installs the
    table its payload does. */
  lemma SubmissionIsBlock(x: Envelope, ps: seq<Packet>, timestamp: Word, scratch: Quad, initial: PM.Table)
    requires PM.WellFormed(SeenAll(scratch, ps)) && PM.Yield !in SeenAll(scratch, ps)
    ensures var all := SeenAll(scratch, Opening(x, timestamp) + ps + Closing(x, timestamp));
            && PM.WellFormed(all) && |all| > 0
            && PM.LastTable(all, initial) == PM.LastTable(SeenAll(scratch, ps), initial)
            && PM.Yield !in all[..|all| - 1]
            && (all[|all| - 1] == PM.Yield <==> x.preempt.Some?)
  {
    var opening, quiet := Opening(x, timestamp), Quiet(x, timestamp);
    OpeningPlain(x, timestamp, scratch);
    QuietPlain(x, timestamp, scratch);
    BetweenPlain(scratch, opening, ps, quiet, initial);
    var last := if x.preempt.Some? then [PostIbsubmit()] else [];
    assert opening + ps + Closing(x, timestamp) == opening + ps + quiet + last;
    YieldLast(scratch, opening + ps + quiet, x.preempt.Some?, initial);
  }

  lemma BetweenPlain(scratch: Quad, a: seq<Packet>, ps: seq<Packet>, b: seq<Packet>, initial: PM.Table)
    requires Plain(scratch, a) && Plain(scratch, b)
    requires PM.WellFormed(SeenAll(scratch, ps)) && PM.Yield !in SeenAll(scratch, ps)
    ensures var all := SeenAll(scratch, a + ps + b);
            && PM.WellFormed(all) && PM.Yield !in all
            && PM.LastTable(all, initial) == PM.LastTable(SeenAll(scratch, ps), initial)
  {
    PlainSeen(scratch, a, initial);
    SeenConcat(scratch, a, ps);
    PreemptTables.OpenConcat(SeenAll(scratch, a), SeenAll(scratch, ps));
    LastTableConcat(SeenAll(scratch, a), SeenAll(scratch, ps), initial);
    ThenPlain(scratch, a + ps, b, initial);
  }

  lemma YieldLast(scratch: Quad, ps: seq<Packet>, preempt: bool, initial: PM.Table)
    requires PM.WellFormed(SeenAll(scratch, ps)) && PM.Yield !in SeenAll(scratch, ps) && |ps| > 0
    ensures var all := SeenAll(scratch, ps + (if preempt then [PostIbsubmit()] else []));
            && PM.WellFormed(all) && |all| > 0
            && PM.LastTable(all, initial) == PM.LastTable(SeenAll(scratch, ps), initial)
            && PM.Yield !in all[..|all| - 1]
            && (all[|all| - 1] == PM.Yield <==> preempt)
  {
    var most := SeenAll(scratch, ps);
    if preempt {
      SeenConcat(scratch, ps, [PostIbsubmit()]);
      SeenOne(scratch, PostIbsubmit());
      assert (most + [PM.Yield])[..|most|] == most;
    } else {
      assert ps + [] == ps;
    }
  }

  /** The submission that switches to a context is such a block, and installs the context's own pagetable exactly if the
    context active before it used another; a switch to the default pagetable installs nothing. */
  lemma SwitchIsBlock(active: Option<Client>, c: Client, slots: Slots, x: Envelope, timestamp: Word, initial: PM.Table)
    ensures var all := SeenAll(slots.scratch, Opening(x, timestamp) + SwitchTo(active, c, slots) + Closing(x, timestamp));
            && PM.WellFormed(all) && |all| > 0
            && PM.LastTable(all, initial)
               == (if Differs(active, c) && c.space.Own? then PM.Table(c.space.ttbr0.lo, c.space.ttbr0.hi, c.id) else initial)
            && PM.Yield !in all[..|all| - 1]
            && (all[|all| - 1] == PM.Yield <==> x.preempt.Some?)
  {
    ContextSwitchSeen(Differs(active, c), if c.space == Default then None else Some(Pagetable(c.space.ttbr0, slots.scratch)),
                      slots.ringNote, slots.globalNote, c.id, slots.scratch, initial);
    SubmissionIsBlock(x, SwitchTo(active, c, slots), timestamp, slots.scratch, initial);
  }

  /** A switch sets no protection and no secure mode, and stamps nothing. */
  lemma SwitchToWithout(id: nat, active: Option<Client>, c: Client, slots: Slots)
    requires id == CP_SET_PROTECTED_MODE || id == CP_SET_SECURE_MODE || id == CP_EVENT_WRITE
    ensures Without(id, SwitchTo(active, c, slots))
  {
    if Differs(active, c) && c.space != Default {
      PagetableWithout(id, Pagetable(c.space.ttbr0, slots.scratch), c.id);
      WithoutThen(id, PagetableSwitch(Some(Pagetable(c.space.ttbr0, slots.scratch)), c.id),
                  ContextNotes(slots.ringNote, slots.globalNote, c.id));
    }
  }

  lemma PagetableWithout(id: nat, to: Pagetable, contextidr: Word)
    requires id == CP_SET_PROTECTED_MODE || id == CP_SET_SECURE_MODE || id == CP_EVENT_WRITE
    ensures Without(id, PagetableSwitch(Some(to), contextidr))
  {
  }

  lemma {:induction false} EntriesPlain(ibs: seq<Ib>, preamble: bool, scratch: Quad)
    ensures Plain(scratch, EntryPackets(ibs, preamble))
  {
    if ibs != [] {
      EntriesPlain(ibs[..|ibs| - 1], preamble, scratch);
      PlainIf(scratch, true, EntryPacket(ibs[|ibs| - 1], preamble));
      PlainThen(scratch, EntryPackets(ibs[..|ibs| - 1], preamble), [EntryPacket(ibs[|ibs| - 1], preamble)]);
    }
  }

  lemma CounterPlain(at: Option<Quad>, wide: bool, scratch: Quad)
    ensures Plain(scratch, if at.Some? then [CounterPacket(at.value, wide)] else [])
  {
  }

  lemma UserPlain(at: Option<Quad>, scratch: Quad)
    ensures Plain(scratch, if at.Some? then [IbPacket(at.value, 4)] else [])
  {
  }

  lemma StartedPlain(c: Command, scratch: Quad)
    ensures Plain(scratch, Started(c))
  {
    var kernel := if c.kernel.Some? then [CounterPacket(c.kernel.value.0, c.wide)] else [];
    PlainIf(scratch, true, Nop(START_IB_IDENTIFIER));
    CounterPlain(First(c.kernel), c.wide, scratch);
    UserPlain(First(c.user), scratch);
    PlainThen(scratch, [Nop(START_IB_IDENTIFIER)], kernel);
    PlainThen(scratch, [Nop(START_IB_IDENTIFIER)] + kernel, if c.user.Some? then [IbPacket(c.user.value.0, 4)] else []);
  }

  lemma FinishingPlain(c: Command, scratch: Quad)
    ensures Plain(scratch, Finishing(c))
  {
    var mode, enable := Op(CP_SET_RENDER_MODE, [0, 0, 0, 0, 0]), Op(CP_YIELD_ENABLE, [1]);
    PlainIf(scratch, true, mode);
    PlainIf(scratch, true, enable);
    CounterPlain(Second(c.kernel), c.wide, scratch);
    PlainThen(scratch, [mode], [enable]);
    PlainThen(scratch, [mode] + [enable], if c.kernel.Some? then [CounterPacket(c.kernel.value.1, c.wide)] else []);
  }

  lemma RetiredPlain(c: Command, scratch: Quad)
    ensures Plain(scratch, Retired(c))
  {
    var user := if c.user.Some? then [IbPacket(c.user.value.1, 4)] else [];
    FinishingPlain(c, scratch);
    UserPlain(Second(c.user), scratch);
    PlainIf(scratch, true, Nop(END_IB_IDENTIFIER));
    PlainThen(scratch, Finishing(c), user);
    PlainThen(scratch, Finishing(c) + user, [Nop(END_IB_IDENTIFIER)]);
  }

  /** A user submission, in whatever envelope, is a block of work that leaves the ring's table as it is. */
  lemma UserSubmissionIsBlock(c: Command, x: Envelope, timestamp: Word, scratch: Quad, initial: PM.Table)
    ensures var all := SeenAll(scratch, Opening(x, timestamp) + CommandPackets(c) + Closing(x, timestamp));
            && PM.WellFormed(all) && |all| > 0 && PM.LastTable(all, initial) == initial
            && PM.Yield !in all[..|all| - 1]
            && (all[|all| - 1] == PM.Yield <==> x.preempt.Some?)
  {
    StartedPlain(c, scratch);
    RetiredPlain(c, scratch);
    EntriesPlain(Entries(c), c.preamble, scratch);
    PlainThen(scratch, Started(c), EntryPackets(Entries(c), c.preamble));
    PlainThen(scratch, Started(c) + EntryPackets(Entries(c), c.preamble), Retired(c));
    PlainSeen(scratch, CommandPackets(c), initial);
    SubmissionIsBlock(x, CommandPackets(c), timestamp, scratch, initial);
  }
}
