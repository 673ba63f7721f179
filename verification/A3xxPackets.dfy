/** The streams the a3xx ringbuffer code builds, and what they mean: 32-bit addresses and type 3 packets. */
module A3xxPackets {
  import opened Pm4
  import opened CpMachine
  import A5xxPackets

  type Ib = A5xxPackets.Ib

  const A3XX_CP_WFI_PEND_CTR: Word := 0x01F5
  const A3XX_UCHE_CACHE_INVALIDATE0_REG := 0xEA0
  const HALT_CTRL0: Word := 0x3800 // A3XX_VBIF_DDR_OUTPUT_RECOVERABLE_HALT_CTRL0
  const HALT_CTRL1: Word := 0x3801
  const A3XX_HLSQ_CL_KERNEL_GROUP_X_REG := 0x2215
  const A3XX_COMMAND_DWORDS := 4
  const A3XX_SUBMIT_MAX := 55

  const IOMMU_TTBR0 := 0x020
  const IOMMU_TLBIALL := 0x618
  const IOMMU_TLBSYNC := 0x7F0
  const IOMMU_TLBSTATUS := 0x7F4
  const PWRON_FIXUP_IDENTIFIER: Word := 0x2AFAFAFA

  function Op(id: nat, payload: seq<Word>): Packet {
    Packet(Type3, id, payload)
  }

  function Nop(id: Word): Packet {
    Op(CP_NOP, [id])
  }

  function IbPacket(addr: Word, dwords: Word): Packet {
    Op(CP_INDIRECT_BUFFER_PFE, [addr, dwords])
  }

  // ---------------------------------------------------------------- a user submission

  function EntryPacket(ib: Ib, preamble: bool): Packet
    requires A5xxPackets.VerifyIb(ib, true)
  {
    var packet := IbPacket(ib.gpuaddr.lo, ib.size / 4);
    if A5xxPackets.Skipped(ib, preamble) then Op(CP_NOP, Encode(packet)) else packet
  }

  function EntryPackets(ibs: seq<Ib>, preamble: bool): seq<Packet>
    requires A5xxPackets.Verified(ibs)
  {
    if ibs == [] then []
    else EntryPackets(ibs[..|ibs| - 1], preamble) + [EntryPacket(ibs[|ibs| - 1], preamble)]
  }

  /** a3xx_ringbuffer_submitcmd's stream. */
  function CommandPackets(ibs: seq<Ib>, skip: bool, preamble: bool): seq<Packet>
    requires A5xxPackets.Verified(ibs)
  {
    [Nop(A5xxPackets.START_IB_IDENTIFIER)]
    + EntryPackets(if skip then [] else ibs, preamble)
    + [Nop(A5xxPackets.END_IB_IDENTIFIER)]
  }

  function Wanted(ibs: seq<Ib>, preamble: bool): seq<Action> {
    if ibs == [] then []
    else
      var last := ibs[|ibs| - 1];
      Wanted(ibs[..|ibs| - 1], preamble)
      + (if A5xxPackets.Skipped(last, preamble) then [] else [RunIb(Quad(last.gpuaddr.lo, 0), last.size / 4)])
  }

  lemma EntrySize(ib: Ib, preamble: bool)
    requires A5xxPackets.VerifyIb(ib, true)
    ensures Fits(EntryPacket(ib, preamble))
    ensures |EntryPacket(ib, preamble).payload| == if A5xxPackets.Skipped(ib, preamble) then 3 else 2
  {
  }

  lemma {:induction false} EntriesFit(ibs: seq<Ib>, preamble: bool)
    requires A5xxPackets.Verified(ibs)
    ensures Within(EntryPackets(ibs, preamble), 4 * |ibs|)
  {
    if ibs != [] {
      EntriesFit(ibs[..|ibs| - 1], preamble);
      EntrySize(ibs[|ibs| - 1], preamble);
    }
  }

  predicate AllSkipped(ibs: seq<Ib>, preamble: bool) {
    forall k :: 0 <= k < |ibs| ==> A5xxPackets.Skipped(ibs[k], preamble)
  }

  lemma {:induction false} EntriesFill(ibs: seq<Ib>, preamble: bool)
    requires A5xxPackets.Verified(ibs)
    ensures Size(EntryPackets(ibs, preamble)) == 4 * |ibs| <==> AllSkipped(ibs, preamble)
  {
    if ibs != [] {
      var n := |ibs| - 1;
      EntriesFit(ibs[..n], preamble);
      EntriesFill(ibs[..n], preamble);
      EntrySize(ibs[n], preamble);
      assert AllSkipped(ibs, preamble) <==> AllSkipped(ibs[..n], preamble) && A5xxPackets.Skipped(ibs[n], preamble);
    }
  }

  /** Which buffers are wanted, one at a time. */
  lemma WantedNext(ibs: seq<Ib>, ib: Ib, preamble: bool)
    ensures Wanted([], preamble) == []
    ensures Wanted(ibs + [ib], preamble)
         == Wanted(ibs, preamble)
            + (if ib.skip || (ib.preamble && !preamble) then [] else [RunIb(Quad(ib.gpuaddr.lo, 0), ib.size / 4)])
  {
    assert (ibs + [ib])[..|ibs|] == ibs;
  }

  lemma {:induction false} EntriesDo(m: Modes, ibs: seq<Ib>, preamble: bool)
    requires A5xxPackets.Verified(ibs)
    ensures Does(m, EntryPackets(ibs, preamble), m, StepsIn(m, Wanted(ibs, preamble)))
  {
    if ibs == [] {
      DoesNothing(m);
    } else {
      var before, last := ibs[..|ibs| - 1], ibs[|ibs| - 1];
      var p, wanted := EntryPacket(last, preamble), Wanted(before, preamble);
      EntriesDo(m, before, preamble);
      if A5xxPackets.Skipped(last, preamble) {
        DoesSilent(m, EntryPackets(before, preamble), m, StepsIn(m, wanted), p);
        assert wanted + [] == wanted;
      } else {
        var ib := RunIb(Quad(last.gpuaddr.lo, 0), last.size / 4);
        DoesNext(m, EntryPackets(before, preamble), m, StepsIn(m, wanted), p, ib);
        StepsNext(m, wanted, ib);
      }
    }
  }

  lemma {:induction false} WantedBuffers(ibs: seq<Ib>, preamble: bool)
    ensures forall a :: a in Wanted(ibs, preamble) ==> a.RunIb?
  {
    if ibs != [] {
      WantedBuffers(ibs[..|ibs| - 1], preamble);
    }
  }

  lemma CommandSize(ibs: seq<Ib>, skip: bool, preamble: bool)
    requires A5xxPackets.Verified(ibs)
    ensures AllFit(CommandPackets(ibs, skip, preamble))
    ensures Size(CommandPackets(ibs, skip, preamble))
         == A3XX_COMMAND_DWORDS + Size(EntryPackets(if skip then [] else ibs, preamble))
  {
    var start, end := [Nop(A5xxPackets.START_IB_IDENTIFIER)], [Nop(A5xxPackets.END_IB_IDENTIFIER)];
    var middle := EntryPackets(if skip then [] else ibs, preamble);
    EntriesFit(if skip then [] else ibs, preamble);
    SizeOne(start[0]);
    SizeOne(end[0]);
    SizeConcat(start, middle);
    SizeConcat(start + middle, end);
  }

  lemma CommandDoes(ibs: seq<Ib>, skip: bool, preamble: bool, m: Modes)
    requires A5xxPackets.Verified(ibs)
    ensures Does(m, CommandPackets(ibs, skip, preamble), m, StepsIn(m, Wanted(if skip then [] else ibs, preamble)))
  {
    var entries := if skip then [] else ibs;
    var start, end := Nop(A5xxPackets.START_IB_IDENTIFIER), Nop(A5xxPackets.END_IB_IDENTIFIER);
    var middle, steps := EntryPackets(entries, preamble), StepsIn(m, Wanted(entries, preamble));
    DoesMode(m, start);
    EntriesDo(m, entries, preamble);
    DoesThen(m, [start], m, [], middle, m, steps);
    assert [] + steps == steps;
    DoesSilent(m, [start] + middle, m, steps, end);
  }

  /** A user submission fits the buffer of 4 + 4 * numibs dwords, and fills it exactly when every indirect buffer is
    skipped; it parses, and does nothing but run those that are not, in order and in full. */
  lemma CommandMeaning(ibs: seq<Ib>, skip: bool, preamble: bool, m: Modes)
    requires A5xxPackets.Verified(ibs)
    ensures var entries := if skip then [] else ibs;
            var ps := CommandPackets(ibs, skip, preamble);
            && AllFit(ps) && Parse(EncodeAll(ps)) == Some(ps)
            && |EncodeAll(ps)| <= A3XX_COMMAND_DWORDS + 4 * |entries|
            && (|EncodeAll(ps)| == A3XX_COMMAND_DWORDS + 4 * |entries|
                <==> AllSkipped(entries, preamble))
            && Does(m, ps, m, StepsIn(m, Wanted(entries, preamble)))
            && Ibs(Trace(m, ps)) == Wanted(entries, preamble)
  {
    var entries := if skip then [] else ibs;
    CommandSize(ibs, skip, preamble);
    EntriesFit(entries, preamble);
    EntriesFill(entries, preamble);
    ParseEncoded(CommandPackets(ibs, skip, preamble));
    EncodedSize(CommandPackets(ibs, skip, preamble));
    CommandDoes(ibs, skip, preamble, m);
    WantedBuffers(entries, preamble);
    IbsIn(m, Wanted(entries, preamble));
  }

  // ---------------------------------------------------------------- the pagetable switch

  function WaitReg(addr: Word, val: Word, mask: Word): Packet {
    Op(CP_WAIT_REG_EQ, [addr, val, mask, 0xF])
  }

  /** CP_REG_RMW of the halt control: clear the halt bit, then set it or not. */
  function Halt(on: bool): Packet {
    Op(CP_REG_RMW, [HALT_CTRL0, 0xFFFF_FFFE, if on then 1 else 0])
  }

  /** a3xx_cp_smmu_reg and its values: a register of the SMMU, by its dword address in the GPU's window. */
  function SmmuReg(reg: nat, values: seq<Word>): Packet
    requires reg < 0x1000
  {
    Op(CP_REG_WR_NO_CTXT, [(0xA000 + reg) / 4] + values)
  }

  function Wait(): seq<Packet> {
    [Op(CP_WAIT_FOR_ME, [0])]
  }

  function VbifLock(): seq<Packet> {
    [WaitReg(A3XX_CP_WFI_PEND_CTR, 1, 0xFFFF_FFFF)] + [Halt(true)] + [WaitReg(HALT_CTRL1, 1, 0xFFFF_FFFF)]
  }

  function VbifUnlock(): seq<Packet> {
    [Halt(false)] + Wait()
  }

  function Tlbiall(): seq<Packet> {
    [SmmuReg(IOMMU_TLBIALL, [1])] + [SmmuReg(IOMMU_TLBSYNC, [0])] + [WaitReg((0xA000 + IOMMU_TLBSTATUS) / 4, 0, 1)]
  }

  /** The stall ahead of the switch: an indirect buffer of two dwords that does nothing. */
  function Stall(setstate: Word): seq<Packet> {
    Wait() + [IbPacket(setstate, 2)] + [Op(CP_WAIT_FOR_IDLE, [0])] + Wait()
  }

  function Settle(): seq<Packet> {
    Wait() + [Op(CP_WAIT_FOR_IDLE, [0])] + [Op(CP_INVALIDATE_STATE, [0x7FFFF])]
  }

  /** a3xx_rb_pagetable_switch; None is the default pagetable. */
  function PagetableSwitch(to: Option<Quad>, setstate: Word): seq<Packet> {
    if to == None then []
    else
      Stall(setstate) + VbifLock() + [SmmuReg(IOMMU_TTBR0, [to.value.lo, to.value.hi])] + VbifUnlock() + Tlbiall() + Settle()
  }

  /** The payload of a3xx_rb_context_switch. */
  function ContextSwitch(differs: bool, to: Option<Quad>, setstate: Word, ringNote: Word, globalNote: Word, id: Word): seq<Packet> {
    (if differs then PagetableSwitch(to, setstate) else []) + ContextNotes(ringNote, globalNote, id)
  }

  function ContextNotes(ringNote: Word, globalNote: Word, id: Word): seq<Packet> {
    [Nop(A5xxPackets.CONTEXT_TO_MEM_IDENTIFIER)]
    + [Op(CP_MEM_WRITE, [ringNote, id])]
    + [Op(CP_MEM_WRITE, [globalNote, id])]
    + [Packet(Type0, A3XX_UCHE_CACHE_INVALIDATE0_REG, [0, 0x9000_0000])]
  }

  /** Bus and SMMU as the packets leave them: `halted` is the VBIF's halt bit, `stale` whether TLB entries of an older
    table may be left, `unsafe` whether the table was ever changed with the bus running. */
  datatype Bus = Bus(halted: bool, ttbr0: Quad, stale: bool, unsafe: bool)

  function NextBus(b: Bus, p: Packet): Bus {
    match Act(p)
    case Some(Other(id, d)) =>
      if id == CP_REG_RMW && |d| == 3 && d[0] == HALT_CTRL0 && d[1] == 0xFFFF_FFFE then b.(halted := d[2] == 1) else b
    case Some(WriteRegs(reg, values)) =>
      if p.kind != Type3 then b
      else if reg == (0xA000 + IOMMU_TTBR0) / 4 && |values| == 2 then
        b.(ttbr0 := Quad(values[0], values[1]), stale := true, unsafe := b.unsafe || !b.halted)
      else if reg == (0xA000 + IOMMU_TLBIALL) / 4 then b.(stale := false)
      else b
    case _ => b
  }

  function BusAfter(b: Bus, ps: seq<Packet>): Bus {
    if ps == [] then b else NextBus(BusAfter(b, ps[..|ps| - 1]), ps[|ps| - 1])
  }

  lemma {:induction false} BusConcat(b: Bus, x: seq<Packet>, y: seq<Packet>)
    ensures BusAfter(b, x + y) == BusAfter(BusAfter(b, x), y)
  {
    if y == [] {
      assert x + y == x;
    } else {
      BusConcat(b, x, y[..|y| - 1]);
      LastOfBoth(x, y);
    }
  }

  lemma BusOne(b: Bus, p: Packet)
    ensures BusAfter(b, [p]) == NextBus(b, p)
  {
    assert [p][..0] == [];
  }

  lemma BusThree(b: Bus, p: Packet, q: Packet, r: Packet)
    ensures BusAfter(b, [p] + [q] + [r]) == NextBus(NextBus(NextBus(b, p), q), r)
  {
    BusOne(b, p);
    BusConcat(b, [p], [q]);
    BusOne(NextBus(b, p), q);
    BusConcat(b, [p] + [q], [r]);
    BusOne(NextBus(NextBus(b, p), q), r);
  }

  lemma StallBus(b: Bus, setstate: Word)
    ensures BusAfter(b, Stall(setstate)) == b
  {
    BusThree(b, Wait()[0], IbPacket(setstate, 2), Op(CP_WAIT_FOR_IDLE, [0]));
    BusConcat(b, Wait() + [IbPacket(setstate, 2)] + [Op(CP_WAIT_FOR_IDLE, [0])], Wait());
    BusOne(b, Wait()[0]);
  }

  lemma UnlockBus(b: Bus)
    ensures BusAfter(b, VbifUnlock()) == b.(halted := false)
  {
    BusConcat(b, [Halt(false)], Wait());
    BusOne(b, Halt(false));
    BusOne(b.(halted := false), Wait()[0]);
  }

  lemma TlbiallBus(b: Bus)
    ensures BusAfter(b, Tlbiall()) == b.(stale := false)
  {
    BusThree(b, SmmuReg(IOMMU_TLBIALL, [1]), SmmuReg(IOMMU_TLBSYNC, [0]), WaitReg((0xA000 + IOMMU_TLBSTATUS) / 4, 0, 1));
  }

  lemma LockBus(b: Bus)
    ensures BusAfter(b, VbifLock()) == b.(halted := true)
  {
    BusThree(b, WaitReg(A3XX_CP_WFI_PEND_CTR, 1, 0xFFFF_FFFF), Halt(true), WaitReg(HALT_CTRL1, 1, 0xFFFF_FFFF));
  }

  lemma InstallBus(b: Bus, to: Quad)
    requires b.halted
    ensures BusAfter(b, [SmmuReg(IOMMU_TTBR0, [to.lo, to.hi])]) == b.(ttbr0 := to, stale := true)
  {
    BusOne(b, SmmuReg(IOMMU_TTBR0, [to.lo, to.hi]));
  }

  lemma BusThen(b: Bus, x: seq<Packet>, b1: Bus, y: seq<Packet>, b2: Bus)
    requires BusAfter(b, x) == b1 && BusAfter(b1, y) == b2
    ensures BusAfter(b, x + y) == b2
  {
    BusConcat(b, x, y);
  }

  /** Up to the unlock. */
  lemma LockedBus(b: Bus, to: Quad, setstate: Word)
    ensures BusAfter(b, Stall(setstate) + VbifLock() + [SmmuReg(IOMMU_TTBR0, [to.lo, to.hi])] + VbifUnlock())
         == Bus(false, to, true, b.unsafe)
  {
    var b1 := b.(halted := true);
    var b2 := b1.(ttbr0 := to, stale := true);
    StallBus(b, setstate);
    LockBus(b);
    BusThen(b, Stall(setstate), b, VbifLock(), b1);
    InstallBus(b1, to);
    BusThen(b, Stall(setstate) + VbifLock(), b1, [SmmuReg(IOMMU_TTBR0, [to.lo, to.hi])], b2);
    UnlockBus(b2);
    BusThen(b, Stall(setstate) + VbifLock() + [SmmuReg(IOMMU_TTBR0, [to.lo, to.hi])], b2, VbifUnlock(), b2.(halted := false));
  }

  /** The new table is installed with the bus halted; the bus runs again afterwards, and no stale translation is left. */
  lemma SwitchBus(b: Bus, to: Quad, setstate: Word)
    ensures BusAfter(b, PagetableSwitch(Some(to), setstate)) == Bus(false, to, false, b.unsafe)
  {
    var b3 := Bus(false, to, true, b.unsafe);
    var b4 := b3.(stale := false);
    var locked := Stall(setstate) + VbifLock() + [SmmuReg(IOMMU_TTBR0, [to.lo, to.hi])] + VbifUnlock();
    LockedBus(b, to, setstate);
    TlbiallBus(b3);
    BusThen(b, locked, b3, Tlbiall(), b4);
    SettleBus(b4);
    BusThen(b, locked + Tlbiall(), b4, Settle(), b4);
  }

  lemma SettleBus(b: Bus)
    ensures BusAfter(b, Settle()) == b
  {
    BusThree(b, Wait()[0], Op(CP_WAIT_FOR_IDLE, [0]), Op(CP_INVALIDATE_STATE, [0x7FFFF]));
  }

  /** A context switch leaves the SMMU walking the new context's table, with no stale translation and the bus running again,
    exactly if the pagetables differ and the new one is not the default; else it leaves bus and SMMU alone. */
  lemma ContextSwitchBus(b: Bus, differs: bool, to: Option<Quad>, setstate: Word, ringNote: Word, globalNote: Word, id: Word)
    ensures BusAfter(b, ContextSwitch(differs, to, setstate, ringNote, globalNote, id))
         == if differs && to.Some? then Bus(false, to.value, false, b.unsafe) else b
  {
    var notes := ContextNotes(ringNote, globalNote, id);
    if differs && to.Some? {
      SwitchBus(b, to.value, setstate);
      BusConcat(b, PagetableSwitch(to, setstate), notes);
      NotesBus(Bus(false, to.value, false, b.unsafe), ringNote, globalNote, id);
    } else {
      assert [] + notes == notes;
      NotesBus(b, ringNote, globalNote, id);
    }
  }

  lemma NotesBus(b: Bus, ringNote: Word, globalNote: Word, id: Word)
    ensures BusAfter(b, ContextNotes(ringNote, globalNote, id)) == b
  {
    var nop, uche := Nop(A5xxPackets.CONTEXT_TO_MEM_IDENTIFIER), Packet(Type0, A3XX_UCHE_CACHE_INVALIDATE0_REG, [0, 0x9000_0000]);
    var ring, global := Op(CP_MEM_WRITE, [ringNote, id]), Op(CP_MEM_WRITE, [globalNote, id]);
    BusThree(b, nop, ring, global);
    BusConcat(b, [nop] + [ring] + [global], [uche]);
    BusOne(b, uche);
  }

  // ---------------------------------------------------------------- all steps of a context switch

  /** Three packets that do one thing each. */
  lemma ThreeDo(m: Modes, p: Packet, a: Action, q: Packet, b: Action, r: Packet, c: Action)
    requires Act(p) == Some(a) && Act(q) == Some(b) && Act(r) == Some(c)
    requires NextModes(m, p) == NextModes(m, q) == NextModes(m, r) == m
    ensures Does(m, [p] + [q] + [r], m, [Step(a, m)] + [Step(b, m)] + [Step(c, m)])
  {
    DoesOne(m, p, a);
    DoesNext(m, [p], m, [Step(a, m)], q, b);
    DoesNext(m, [p] + [q], m, [Step(a, m)] + [Step(b, m)], r, c);
  }

  lemma StallDoes(m: Modes, setstate: Word)
    ensures Does(m, Stall(setstate), m,
                 [Step(Other(0x13, [0]), m)] + [Step(RunIb(Quad(setstate, 0), 2), m)] + [Step(Other(0x26, [0]), m)]
                 + [Step(Other(0x13, [0]), m)])
  {
    var wait, idle := Wait()[0], Op(CP_WAIT_FOR_IDLE, [0]);
    ThreeDo(m, wait, Other(0x13, [0]), IbPacket(setstate, 2), RunIb(Quad(setstate, 0), 2), idle, Other(0x26, [0]));
    DoesNext(m, [wait] + [IbPacket(setstate, 2)] + [idle], m,
             [Step(Other(0x13, [0]), m)] + [Step(RunIb(Quad(setstate, 0), 2), m)] + [Step(Other(0x26, [0]), m)],
             wait, Other(0x13, [0]));
  }

  /** With the bus halted from the second step on: the table. */
  lemma InstallDoes(m: Modes, to: Quad)
    ensures Does(m, VbifLock() + [SmmuReg(IOMMU_TTBR0, [to.lo, to.hi])] + VbifUnlock(), m,
                 [Step(Other(0x52, [0x1F5, 1, 0xFFFF_FFFF, 0xF]), m)] + [Step(Other(0x21, [0x3800, 0xFFFF_FFFE, 1]), m)]
                 + [Step(Other(0x52, [0x3801, 1, 0xFFFF_FFFF, 0xF]), m)] + [Step(WriteRegs(0x2808, [to.lo, to.hi]), m)]
                 + ([Step(Other(0x21, [0x3800, 0xFFFF_FFFE, 0]), m)] + [Step(Other(0x13, [0]), m)]))
  {
    var write, off, wait := SmmuReg(IOMMU_TTBR0, [to.lo, to.hi]), Halt(false), Wait()[0];
    var locked := [Step(Other(0x52, [0x1F5, 1, 0xFFFF_FFFF, 0xF]), m)] + [Step(Other(0x21, [0x3800, 0xFFFF_FFFE, 1]), m)]
      + [Step(Other(0x52, [0x3801, 1, 0xFFFF_FFFF, 0xF]), m)];
    ThreeDo(m, VbifLock()[0], Other(0x52, [0x1F5, 1, 0xFFFF_FFFF, 0xF]), Halt(true), Other(0x21, [0x3800, 0xFFFF_FFFE, 1]),
            VbifLock()[2], Other(0x52, [0x3801, 1, 0xFFFF_FFFF, 0xF]));
    DoesNext(m, VbifLock(), m, locked, write, WriteRegs(0x2808, [to.lo, to.hi]));
    DoesOne(m, off, Other(0x21, [0x3800, 0xFFFF_FFFE, 0]));
    DoesNext(m, [off], m, [Step(Other(0x21, [0x3800, 0xFFFF_FFFE, 0]), m)], wait, Other(0x13, [0]));
    DoesThen(m, VbifLock() + [write], m, locked + [Step(WriteRegs(0x2808, [to.lo, to.hi]), m)], VbifUnlock(), m,
             [Step(Other(0x21, [0x3800, 0xFFFF_FFFE, 0]), m)] + [Step(Other(0x13, [0]), m)]);
  }

  lemma FlushDoes(m: Modes)
    ensures Does(m, Tlbiall() + Settle(), m,
                 [Step(WriteRegs(0x2986, [1]), m)] + [Step(WriteRegs(0x29FC, [0]), m)] + [Step(Other(0x52, [0x29FD, 0, 1, 0xF]), m)]
                 + ([Step(Other(0x13, [0]), m)] + [Step(Other(0x26, [0]), m)] + [Step(Other(0x3B, [0x7FFFF]), m)]))
  {
    ThreeDo(m, SmmuReg(IOMMU_TLBIALL, [1]), WriteRegs(0x2986, [1]), SmmuReg(IOMMU_TLBSYNC, [0]), WriteRegs(0x29FC, [0]),
            WaitReg((0xA000 + IOMMU_TLBSTATUS) / 4, 0, 1), Other(0x52, [0x29FD, 0, 1, 0xF]));
    ThreeDo(m, Wait()[0], Other(0x13, [0]), Op(CP_WAIT_FOR_IDLE, [0]), Other(0x26, [0]),
            Op(CP_INVALIDATE_STATE, [0x7FFFF]), Other(0x3B, [0x7FFFF]));
    DoesThen(m, Tlbiall(), m,
             [Step(WriteRegs(0x2986, [1]), m)] + [Step(WriteRegs(0x29FC, [0]), m)] + [Step(Other(0x52, [0x29FD, 0, 1, 0xF]), m)],
             Settle(), m, [Step(Other(0x13, [0]), m)] + [Step(Other(0x26, [0]), m)] + [Step(Other(0x3B, [0x7FFFF]), m)]);
  }

  lemma PagetableGrouped<T>(a: seq<T>, b: seq<T>, c: seq<T>, d: seq<T>, e: seq<T>, f: seq<T>)
    ensures a + b + c + d + e + f == a + (b + c + d) + (e + f)
  {
  }

  lemma PagetableDoes(m: Modes, to: Quad, setstate: Word)
    ensures Does(m, PagetableSwitch(Some(to), setstate), m,
                 [Step(Other(0x13, [0]), m)] + [Step(RunIb(Quad(setstate, 0), 2), m)] + [Step(Other(0x26, [0]), m)]
                 + [Step(Other(0x13, [0]), m)]
                 + ([Step(Other(0x52, [0x1F5, 1, 0xFFFF_FFFF, 0xF]), m)] + [Step(Other(0x21, [0x3800, 0xFFFF_FFFE, 1]), m)]
                    + [Step(Other(0x52, [0x3801, 1, 0xFFFF_FFFF, 0xF]), m)] + [Step(WriteRegs(0x2808, [to.lo, to.hi]), m)]
                    + ([Step(Other(0x21, [0x3800, 0xFFFF_FFFE, 0]), m)] + [Step(Other(0x13, [0]), m)]))
                 + ([Step(WriteRegs(0x2986, [1]), m)] + [Step(WriteRegs(0x29FC, [0]), m)]
                    + [Step(Other(0x52, [0x29FD, 0, 1, 0xF]), m)]
                    + ([Step(Other(0x13, [0]), m)] + [Step(Other(0x26, [0]), m)] + [Step(Other(0x3B, [0x7FFFF]), m)])))
  {
    var install := VbifLock() + [SmmuReg(IOMMU_TTBR0, [to.lo, to.hi])] + VbifUnlock();
    var stalled := [Step(Other(0x13, [0]), m)] + [Step(RunIb(Quad(setstate, 0), 2), m)] + [Step(Other(0x26, [0]), m)]
      + [Step(Other(0x13, [0]), m)];
    StallDoes(m, setstate);
    InstallDoes(m, to);
    FlushDoes(m);
    PagetableGrouped(Stall(setstate), VbifLock(), [SmmuReg(IOMMU_TTBR0, [to.lo, to.hi])], VbifUnlock(), Tlbiall(), Settle());
    DoesThen(m, Stall(setstate), m, stalled, install, m, Trace(m, install));
    DoesThen(m, Stall(setstate) + install, m, stalled + Trace(m, install), Tlbiall() + Settle(), m, Trace(m, Tlbiall() + Settle()));
  }

  /** What follows in any case: the context is noted for the ring and for the device, and the UCHE invalidated. */
  lemma NotesDo(m: Modes, ringNote: Word, globalNote: Word, id: Word)
    ensures Does(m, ContextNotes(ringNote, globalNote, id), m,
                 [Step(Store(Quad(ringNote, 0), [id]), m)] + [Step(Store(Quad(globalNote, 0), [id]), m)]
                 + [Step(WriteRegs(0xEA0, [0, 0x9000_0000]), m)])
  {
    var nop, uche := Nop(A5xxPackets.CONTEXT_TO_MEM_IDENTIFIER), Packet(Type0, A3XX_UCHE_CACHE_INVALIDATE0_REG, [0, 0x9000_0000]);
    var ring, global := Op(CP_MEM_WRITE, [ringNote, id]), Op(CP_MEM_WRITE, [globalNote, id]);
    var s1 := [Step(Store(Quad(ringNote, 0), [id]), m)];
    DoesMode(m, nop);
    DoesNext(m, [nop], m, [], ring, Store(Quad(ringNote, 0), [id]));
    assert [] + s1 == s1;
    DoesNext(m, [nop] + [ring], m, s1, global, Store(Quad(globalNote, 0), [id]));
    DoesNext(m, [nop] + [ring] + [global], m, s1 + [Step(Store(Quad(globalNote, 0), [id]), m)], uche,
             WriteRegs(0xEA0, [0, 0x9000_0000]));
  }

  /** All that a context switch has the CP do: the pagetable switch, exactly if the pagetables differ and the new one is not
    the default, and the notes. */
  lemma SwitchSteps(m: Modes, differs: bool, to: Option<Quad>, setstate: Word, ringNote: Word, globalNote: Word, id: Word)
    ensures Does(m, ContextSwitch(differs, to, setstate, ringNote, globalNote, id), m,
                 (if differs && to.Some? then Trace(m, PagetableSwitch(to, setstate)) else [])
                 + ([Step(Store(Quad(ringNote, 0), [id]), m)] + [Step(Store(Quad(globalNote, 0), [id]), m)]
                    + [Step(WriteRegs(0xEA0, [0, 0x9000_0000]), m)]))
  {
    var change := if differs && to.Some? then PagetableSwitch(to, setstate) else [];
    NotesDo(m, ringNote, globalNote, id);
    if differs && to.Some? { PagetableDoes(m, to.value, setstate); } else { DoesNothing(m); }
    DoesThen(m, change, m, Trace(m, change), ContextNotes(ringNote, globalNote, id), m,
             Trace(m, ContextNotes(ringNote, globalNote, id)));
  }

  lemma ThreeWithin(p: Packet, q: Packet, r: Packet)
    requires Fits(p) && Fits(q) && Fits(r)
    ensures Within([p] + [q] + [r], 3 + |p.payload| + |q.payload| + |r.payload|)
  {
    WithinIf(true, p);
    WithinIf(true, q);
    WithinIf(true, r);
    WithinThen([p], 1 + |p.payload|, [q], 1 + |q.payload|);
    WithinThen([p] + [q], 2 + |p.payload| + |q.payload|, [r], 1 + |r.payload|);
  }

  lemma PartsWithin(setstate: Word)
    ensures Within(Stall(setstate), 9) && Within(VbifLock(), 14) && Within(VbifUnlock(), 6)
    ensures Within(Tlbiall(), 11) && Within(Settle(), 6)
  {
    ThreeWithin(Wait()[0], IbPacket(setstate, 2), Op(CP_WAIT_FOR_IDLE, [0]));
    WithinIf(true, Wait()[0]);
    WithinThen(Wait() + [IbPacket(setstate, 2)] + [Op(CP_WAIT_FOR_IDLE, [0])], 7, Wait(), 2);
    ThreeWithin(VbifLock()[0], Halt(true), VbifLock()[2]);
    WithinIf(true, Halt(false));
    WithinThen([Halt(false)], 4, Wait(), 2);
    ThreeWithin(SmmuReg(IOMMU_TLBIALL, [1]), SmmuReg(IOMMU_TLBSYNC, [0]), WaitReg((0xA000 + IOMMU_TLBSTATUS) / 4, 0, 1));
    ThreeWithin(Wait()[0], Op(CP_WAIT_FOR_IDLE, [0]), Op(CP_INVALIDATE_STATE, [0x7FFFF]));
  }

  lemma SwitchWithin(to: Option<Quad>, setstate: Word)
    ensures Within(PagetableSwitch(to, setstate), 50)
  {
    if to != None {
      var write := SmmuReg(IOMMU_TTBR0, [to.value.lo, to.value.hi]);
      PartsWithin(setstate);
      WithinIf(true, write);
      WithinThen(Stall(setstate), 9, VbifLock(), 14);
      WithinThen(Stall(setstate) + VbifLock(), 23, [write], 4);
      WithinThen(Stall(setstate) + VbifLock() + [write], 27, VbifUnlock(), 6);
      WithinThen(Stall(setstate) + VbifLock() + [write] + VbifUnlock(), 33, Tlbiall(), 11);
      WithinThen(Stall(setstate) + VbifLock() + [write] + VbifUnlock() + Tlbiall(), 44, Settle(), 6);
    }
  }

  /** The 64 dwords on the stack are enough for a context switch, and its headers tile it. */
  lemma ContextSwitchWithin(differs: bool, to: Option<Quad>, setstate: Word, ringNote: Word, globalNote: Word, id: Word)
    ensures var ps := ContextSwitch(differs, to, setstate, ringNote, globalNote, id);
            AllFit(ps) && |EncodeAll(ps)| <= 61 && Parse(EncodeAll(ps)) == Some(ps)
  {
    var nop, uche := Nop(A5xxPackets.CONTEXT_TO_MEM_IDENTIFIER), Packet(Type0, A3XX_UCHE_CACHE_INVALIDATE0_REG, [0, 0x9000_0000]);
    var ring, global := Op(CP_MEM_WRITE, [ringNote, id]), Op(CP_MEM_WRITE, [globalNote, id]);
    var change := if differs then PagetableSwitch(to, setstate) else [];
    SwitchWithin(to, setstate);
    ThreeWithin(nop, ring, global);
    WithinIf(true, uche);
    WithinThen([nop] + [ring] + [global], 8, [uche], 3);
    WithinThen(change, 50, ContextNotes(ringNote, globalNote, id), 11);
    EncodedSize(change + ContextNotes(ringNote, globalNote, id));
    ParseEncoded(change + ContextNotes(ringNote, globalNote, id));
  }
}
