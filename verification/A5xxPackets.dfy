/** The streams the a5xx ringbuffer code builds, packet by packet, and what they mean to the CP. */
module A5xxPackets {
  import opened Pm4
  import opened CpMachine

  const A5XX_RBBM_ALWAYSON_COUNTER_LO: Word := 0x4D2
  const A5XX_CP_CONTEXT_SWITCH_SAVE_ADDR_LO := 0x83E
  const A5XX_CP_CONTEXT_SWITCH_SAVE_ADDR_HI := 0x83F
  const A5XX_CP_CNTL := 0x831
  const A5XX_UCHE_INVALIDATE0 := 0xE95

  const CONTEXT_TO_MEM_IDENTIFIER: Word := 0x2EADBEEF
  const CMD_IDENTIFIER: Word := 0x2EEDFACE
  const CMD_INTERNAL_IDENTIFIER: Word := 0x2EEDD00D
  const START_IB_IDENTIFIER: Word := 0x2EADEABE
  const END_IB_IDENTIFIER: Word := 0x2ABEDEAD

  const A5XX_SUBMIT_MAX := 64
  const A5XX_COMMAND_DWORDS := 32

  // ---------------------------------------------------------------- single packets

  function Op(id: nat, payload: seq<Word>): (p: Packet) {
    Packet(Type7, id, payload)
  }

  function Nop(id: Word): Packet {
    Op(CP_NOP, [id])
  }

  function IbPacket(addr: Quad, dwords: Word): Packet {
    Op(CP_INDIRECT_BUFFER_PFE, [addr.lo, addr.hi, dwords])
  }

  function MemWrite(addr: Quad, data: seq<Word>): Packet {
    Op(CP_MEM_WRITE, [addr.lo, addr.hi] + data)
  }

  function EventWrite(event: Word, addr: Quad, value: Word): Packet {
    Op(CP_EVENT_WRITE, [event, addr.lo, addr.hi, value])
  }

  /** a5xx_get_alwayson_counter; `wide` is ADRENO_GPUREV > ADRENO_REV_A530. */
  function CounterPacket(addr: Quad, wide: bool): Packet {
    var counter := if wide then A5XX_RBBM_ALWAYSON_COUNTER_LO + 0x4008_0000 else A5XX_RBBM_ALWAYSON_COUNTER_LO;
    Op(CP_REG_TO_MEM, [counter, addr.lo, addr.hi])
  }

  // ---------------------------------------------------------------- a user submission

  /** A kgsl_memobj_node: `skip` is MEMOBJ_SKIP, `preamble` KGSL_CMDLIST_CTXTSWITCH_PREAMBLE. */
  datatype Ib = Ib(gpuaddr: Quad, size: nat, skip: bool, preamble: bool)

  /** _verify_ib: the size is neither zero nor more than 0xFFFFF dwords, and the address is aligned. That the address
    lies in the process's range is the caller's argument. */
  predicate VerifyIb(ib: Ib, inRange: bool) {
    ib.size != 0 && ib.size / 4 <= 0xFFFFF && inRange && ib.gpuaddr.lo % 4 == 0
  }

  /** adreno_verify_cmdobj has let the list pass. */
  predicate Verified(ibs: seq<Ib>) {
    forall ib :: ib in ibs ==> VerifyIb(ib, true)
  }

  predicate Skipped(ib: Ib, preamble: bool) {
    ib.skip || (ib.preamble && !preamble)
  }

  function Masked(size: nat): Word {
    size / 4 % 0x10_0000
  }

  /** One list entry: an indirect buffer, swallowed by a NOP of four if it is to be skipped. */
  function EntryPacket(ib: Ib, preamble: bool): (p: Packet) {
    var packet := IbPacket(ib.gpuaddr, Masked(ib.size));
    if Skipped(ib, preamble) then Op(CP_NOP, Encode(packet)) else packet
  }

  function EntryPackets(ibs: seq<Ib>, preamble: bool): seq<Packet> {
    if ibs == [] then []
    else EntryPackets(ibs[..|ibs| - 1], preamble) + [EntryPacket(ibs[|ibs| - 1], preamble)]
  }

  /** The flags of a submission, and where its profiling samples go (None: flag clear, or for `user` no buffer). */
  datatype Command = Command(
    ibs: seq<Ib>, skip: bool, preamble: bool, wide: bool,
    kernel: Option<(Quad, Quad)>, user: Option<(Quad, Quad)>)

  function Entries(c: Command): seq<Ib> {
    if c.skip then [] else c.ibs
  }

  function Started(c: Command): seq<Packet> {
    [Nop(START_IB_IDENTIFIER)]
    + (if c.kernel.Some? then [CounterPacket(c.kernel.value.0, c.wide)] else [])
    + (if c.user.Some? then [IbPacket(c.user.value.0, 4)] else [])
  }

  function Finishing(c: Command): seq<Packet> {
    [Op(CP_SET_RENDER_MODE, [0, 0, 0, 0, 0])]
    + [Op(CP_YIELD_ENABLE, [1])]
    + (if c.kernel.Some? then [CounterPacket(c.kernel.value.1, c.wide)] else [])
  }

  function Retired(c: Command): seq<Packet> {
    Finishing(c)
    + (if c.user.Some? then [IbPacket(c.user.value.1, 4)] else [])
    + [Nop(END_IB_IDENTIFIER)]
  }

  /** a5xx_ringbuffer_submitcmd's stream. */
  function CommandPackets(c: Command): seq<Packet> {
    Started(c) + EntryPackets(Entries(c), c.preamble) + Retired(c)
  }

  /** What the list of indirect buffers means: those not skipped, in order, each in full. */
  function Wanted(ibs: seq<Ib>, preamble: bool): seq<Action> {
    if ibs == [] then []
    else
      var last := ibs[|ibs| - 1];
      Wanted(ibs[..|ibs| - 1], preamble) + (if Skipped(last, preamble) then [] else [RunIb(last.gpuaddr, last.size / 4)])
  }

  lemma EntryFits(ib: Ib, preamble: bool)
    ensures Fits(EntryPacket(ib, preamble))
    ensures |EntryPacket(ib, preamble).payload| == if Skipped(ib, preamble) then 4 else 3
  {
  }

  /** A skipped entry is a NOP header in front of the very dwords that would run it. */
  lemma SkippedDwords(ib: Ib, preamble: bool)
    requires Skipped(ib, preamble)
    ensures Fits(EntryPacket(ib, preamble))
    ensures Encode(EntryPacket(ib, preamble)) == [Header(Type7, CP_NOP, 4)] + Encode(IbPacket(ib.gpuaddr, Masked(ib.size)))
  {
    EntryFits(ib, preamble);
  }

  lemma {:induction false} EntriesFit(ibs: seq<Ib>, preamble: bool)
    ensures AllFit(EntryPackets(ibs, preamble)) && Size(EntryPackets(ibs, preamble)) <= 5 * |ibs|
    ensures (forall ib :: ib in ibs ==> Skipped(ib, preamble)) ==> Size(EntryPackets(ibs, preamble)) == 5 * |ibs|
  {
    if ibs != [] {
      EntriesFit(ibs[..|ibs| - 1], preamble);
      EntryFits(ibs[|ibs| - 1], preamble);
    }
  }

  lemma EntryRuns(m: Modes, ib: Ib, preamble: bool)
    requires VerifyIb(ib, true)
    ensures var p := EntryPacket(ib, preamble);
            && NextModes(m, p) == m
            && Act(p) == if ib.skip || (ib.preamble && !preamble) then None else Some(RunIb(ib.gpuaddr, ib.size / 4))
  {
  }

  lemma StartedFits(c: Command)
    ensures AllFit(Started(c)) && Size(Started(c)) <= 10
  {
    var first := [Nop(START_IB_IDENTIFIER)];
    var kernel := if c.kernel.Some? then [CounterPacket(c.kernel.value.0, c.wide)] else [];
    var user := if c.user.Some? then [IbPacket(c.user.value.0, 4)] else [];
    SizeConcat(first, kernel);
    SizeConcat(first + kernel, user);
    SizeOne(first[0]);
    if c.kernel.Some? { SizeOne(kernel[0]); }
    if c.user.Some? { SizeOne(user[0]); }
  }

  lemma FinishingFits(c: Command)
    ensures AllFit(Finishing(c)) && Size(Finishing(c)) <= 12
  {
    var mode := [Op(CP_SET_RENDER_MODE, [0, 0, 0, 0, 0])];
    var enable := [Op(CP_YIELD_ENABLE, [1])];
    var kernel := if c.kernel.Some? then [CounterPacket(c.kernel.value.1, c.wide)] else [];
    SizeConcat(mode, enable);
    SizeConcat(mode + enable, kernel);
    SizeOne(mode[0]);
    SizeOne(enable[0]);
    if c.kernel.Some? { SizeOne(kernel[0]); }
  }

  lemma RetiredFits(c: Command)
    ensures AllFit(Retired(c)) && Size(Retired(c)) <= 18
  {
    var user := if c.user.Some? then [IbPacket(c.user.value.1, 4)] else [];
    FinishingFits(c);
    SizeConcat(Finishing(c), user);
    SizeConcat(Finishing(c) + user, [Nop(END_IB_IDENTIFIER)]);
    SizeOne(Nop(END_IB_IDENTIFIER));
    if c.user.Some? { SizeOne(user[0]); }
  }

  lemma CommandFits(c: Command)
    ensures AllFit(CommandPackets(c)) && Size(CommandPackets(c)) <= A5XX_COMMAND_DWORDS + 5 * |Entries(c)|
  {
    var entries := EntryPackets(Entries(c), c.preamble);
    StartedFits(c);
    EntriesFit(Entries(c), c.preamble);
    RetiredFits(c);
    SizeConcat(Started(c), entries);
    SizeConcat(Started(c) + entries, Retired(c));
  }

  function First(o: Option<(Quad, Quad)>): Option<Quad> {
    if o.Some? then Some(o.value.0) else None
  }

  function Second(o: Option<(Quad, Quad)>): Option<Quad> {
    if o.Some? then Some(o.value.1) else None
  }

  lemma {:induction false} EntriesWithout(id: nat, ibs: seq<Ib>, preamble: bool)
    requires id != CP_NOP && id != CP_INDIRECT_BUFFER_PFE
    ensures Without(id, EntryPackets(ibs, preamble))
  {
    if ibs != [] {
      EntriesWithout(id, ibs[..|ibs| - 1], preamble);
    }
  }

  /** A user command sets no protection and no secure mode, stamps nothing and installs no pagetable. */
  lemma CommandWithout(id: nat, c: Command)
    requires id in {CP_SET_PROTECTED_MODE, CP_SET_SECURE_MODE, CP_EVENT_WRITE, CP_SMMU_TABLE_UPDATE}
    ensures Without(id, CommandPackets(c))
  {
    EntriesWithout(id, Entries(c), c.preamble);
    WithoutThen(id, Started(c), EntryPackets(Entries(c), c.preamble));
    WithoutThen(id, Started(c) + EntryPackets(Entries(c), c.preamble), Retired(c));
  }

  /** Without the check the mask would cut a length off: the mask loses nothing exactly when the IB has at most 0xFFFFF
    dwords. */
  lemma MaskLosesNothing(size: nat)
    ensures Masked(size) == size / 4 <==> size / 4 <= 0xFFFFF
  {
  }

  // ---------------------------------------------------------------- all steps of a user submission

  /** Which buffers are wanted, one at a time. */
  lemma WantedNext(ibs: seq<Ib>, ib: Ib, preamble: bool)
    ensures Wanted([], preamble) == []
    ensures Wanted(ibs + [ib], preamble)
         == Wanted(ibs, preamble)
            + (if ib.skip || (ib.preamble && !preamble) then [] else [RunIb(ib.gpuaddr, ib.size / 4)])
  {
    assert (ibs + [ib])[..|ibs|] == ibs;
  }

  lemma {:induction false} EntriesDo(m: Modes, ibs: seq<Ib>, preamble: bool)
    requires Verified(ibs)
    ensures Does(m, EntryPackets(ibs, preamble), m, StepsIn(m, Wanted(ibs, preamble)))
  {
    if ibs == [] {
      DoesNothing(m);
    } else {
      var before, last := ibs[..|ibs| - 1], ibs[|ibs| - 1];
      EntriesDo(m, before, preamble);
      EntryDoes(m, EntryPackets(before, preamble), Wanted(before, preamble), last, preamble);
    }
  }

  /** One entry more. */
  lemma EntryDoes(m: Modes, ps: seq<Packet>, wanted: seq<Action>, ib: Ib, preamble: bool)
    requires VerifyIb(ib, true) && Does(m, ps, m, StepsIn(m, wanted))
    ensures Does(m, ps + [EntryPacket(ib, preamble)], m,
                 StepsIn(m, wanted + (if Skipped(ib, preamble) then [] else [RunIb(ib.gpuaddr, ib.size / 4)])))
  {
    EntryRuns(m, ib, preamble);
    if Skipped(ib, preamble) {
      DoesSilent(m, ps, m, StepsIn(m, wanted), EntryPacket(ib, preamble));
      assert wanted + [] == wanted;
    } else {
      DoesNext(m, ps, m, StepsIn(m, wanted), EntryPacket(ib, preamble), RunIb(ib.gpuaddr, ib.size / 4));
      StepsNext(m, wanted, RunIb(ib.gpuaddr, ib.size / 4));
    }
  }

  /** A sample for the kernel reads RBBM_ALWAYSON_COUNTER_LO, and on parts behind A530 both of its halves. */
  lemma CounterSamples(at: Quad, wide: bool)
    ensures Act(CounterPacket(at, wide)) == Some(Sample(if wide then 0x4008_04D2 else 0x4D2, at))
  {
  }

  /** The steps around the wanted buffers. */
  function StartedSteps(m: Modes, c: Command): seq<Step> {
    (if c.kernel.Some? then [Step(Sample(if c.wide then 0x4008_04D2 else 0x4D2, c.kernel.value.0), m)] else [])
    + (if c.user.Some? then [Step(RunIb(c.user.value.0, 4), m)] else [])
  }

  function RetiredSteps(m: Modes, c: Command): seq<Step> {
    [Step(Other(0x6C, [0, 0, 0, 0, 0]), m)] + [Step(Other(0x1C, [1]), m)]
    + (if c.kernel.Some? then [Step(Sample(if c.wide then 0x4008_04D2 else 0x4D2, c.kernel.value.1), m)] else [])
    + (if c.user.Some? then [Step(RunIb(c.user.value.1, 4), m)] else [])
  }

  lemma StartedDoes(m: Modes, c: Command)
    ensures Does(m, Started(c), m, StartedSteps(m, c))
  {
    var start := Nop(START_IB_IDENTIFIER);
    var counter := if c.kernel.Some? then CounterPacket(c.kernel.value.0, c.wide) else start;
    var sampled := if c.kernel.Some? then [Step(Sample(if c.wide then 0x4008_04D2 else 0x4D2, c.kernel.value.0), m)] else [];
    DoesMode(m, start);
    if c.kernel.Some? {
      CounterSamples(c.kernel.value.0, c.wide);
      DoesNext(m, [start], m, [], counter, sampled[0].action);
      assert [] + sampled == sampled;
    } else {
      assert [start] + [] == [start];
    }
    var first := [start] + (if c.kernel.Some? then [counter] else []);
    if c.user.Some? {
      DoesNext(m, first, m, sampled, IbPacket(c.user.value.0, 4), RunIb(c.user.value.0, 4));
    } else {
      assert first + [] == first && sampled + [] == sampled;
    }
  }

  lemma FinishingDoes(m: Modes, c: Command)
    ensures Does(m, Finishing(c), m,
                 [Step(Other(0x6C, [0, 0, 0, 0, 0]), m)] + [Step(Other(0x1C, [1]), m)]
                 + (if c.kernel.Some? then [Step(Sample(if c.wide then 0x4008_04D2 else 0x4D2, c.kernel.value.1), m)] else []))
  {
    var mode, enable := Op(CP_SET_RENDER_MODE, [0, 0, 0, 0, 0]), Op(CP_YIELD_ENABLE, [1]);
    DoesOne(m, mode, Other(0x6C, [0, 0, 0, 0, 0]));
    DoesNext(m, [mode], m, [Step(Other(0x6C, [0, 0, 0, 0, 0]), m)], enable, Other(0x1C, [1]));
    var done := [Step(Other(0x6C, [0, 0, 0, 0, 0]), m)] + [Step(Other(0x1C, [1]), m)];
    if c.kernel.Some? {
      CounterSamples(c.kernel.value.1, c.wide);
      DoesNext(m, [mode] + [enable], m, done, CounterPacket(c.kernel.value.1, c.wide),
               Sample(if c.wide then 0x4008_04D2 else 0x4D2, c.kernel.value.1));
    } else {
      assert [mode] + [enable] + [] == [mode] + [enable] && done + [] == done;
    }
  }

  lemma RetiredDoes(m: Modes, c: Command)
    ensures Does(m, Retired(c), m, RetiredSteps(m, c))
  {
    var done := [Step(Other(0x6C, [0, 0, 0, 0, 0]), m)] + [Step(Other(0x1C, [1]), m)]
      + (if c.kernel.Some? then [Step(Sample(if c.wide then 0x4008_04D2 else 0x4D2, c.kernel.value.1), m)] else []);
    var user := if c.user.Some? then [IbPacket(c.user.value.1, 4)] else [];
    var ran := if c.user.Some? then [Step(RunIb(c.user.value.1, 4), m)] else [];
    FinishingDoes(m, c);
    if c.user.Some? {
      DoesNext(m, Finishing(c), m, done, user[0], RunIb(c.user.value.1, 4));
    } else {
      assert Finishing(c) + [] == Finishing(c) && done + [] == done;
    }
    DoesSilent(m, Finishing(c) + user, m, done + ran, Nop(END_IB_IDENTIFIER));
  }

  /** All that a user submission has the CP do, in order: the kernel's sample at the start goes to its `started` slot, the
    user's sample and the wanted buffers follow, and behind those the render mode is cleared, yields are enabled, and the
    kernel's and the user's samples at the end go to their `retired` slots. */
  lemma CommandSteps(c: Command, m: Modes)
    requires Verified(c.ibs)
    ensures var counter: Word := if c.wide then 0x4008_04D2 else 0x4D2;
            Does(m, CommandPackets(c), m,
                 ((if c.kernel.Some? then [Step(Sample(counter, c.kernel.value.0), m)] else [])
                  + (if c.user.Some? then [Step(RunIb(c.user.value.0, 4), m)] else []))
                 + StepsIn(m, Wanted(if c.skip then [] else c.ibs, c.preamble))
                 + ([Step(Other(0x6C, [0, 0, 0, 0, 0]), m)] + [Step(Other(0x1C, [1]), m)]
                    + (if c.kernel.Some? then [Step(Sample(counter, c.kernel.value.1), m)] else [])
                    + (if c.user.Some? then [Step(RunIb(c.user.value.1, 4), m)] else [])))
  {
    var entries, middle := EntryPackets(Entries(c), c.preamble), StepsIn(m, Wanted(Entries(c), c.preamble));
    StartedDoes(m, c);
    EntriesDo(m, Entries(c), c.preamble);
    RetiredDoes(m, c);
    DoesThen(m, Started(c), m, StartedSteps(m, c), entries, m, middle);
    DoesThen(m, Started(c) + entries, m, StartedSteps(m, c) + middle, Retired(c), m, RetiredSteps(m, c));
  }

  lemma {:induction false} WantedBuffers(ibs: seq<Ib>, preamble: bool)
    ensures forall a :: a in Wanted(ibs, preamble) ==> a.RunIb?
  {
    if ibs != [] {
      WantedBuffers(ibs[..|ibs| - 1], preamble);
    }
  }

  lemma StartedIbs(m: Modes, c: Command)
    ensures Ibs(StartedSteps(m, c)) == if c.user.Some? then [RunIb(c.user.value.0, 4)] else []
  {
    SampledIbs([], m, First(c.kernel), if c.wide then 0x4008_04D2 else 0x4D2, First(c.user));
  }

  lemma PairIbs(a: Step, b: Step)
    requires !a.action.RunIb? && !b.action.RunIb?
    ensures Ibs([a] + [b]) == []
  {
    assert [a][..0] == [];
    IbsIf([a], true, b);
  }

  lemma RetiredIbs(m: Modes, c: Command)
    ensures Ibs(RetiredSteps(m, c)) == if c.user.Some? then [RunIb(c.user.value.1, 4)] else []
  {
    var idle := [Step(Other(0x6C, [0, 0, 0, 0, 0]), m)] + [Step(Other(0x1C, [1]), m)];
    PairIbs(Step(Other(0x6C, [0, 0, 0, 0, 0]), m), Step(Other(0x1C, [1]), m));
    SampledIbs(idle, m, Second(c.kernel), if c.wide then 0x4008_04D2 else 0x4D2, Second(c.user));
  }

  /** A sample for the kernel and one for the user run the latter's buffer. */
  lemma SampledIbs(steps: seq<Step>, m: Modes, kernel: Option<Quad>, counter: Word, user: Option<Quad>)
    requires Ibs(steps) == []
    ensures Ibs(steps + (if kernel.Some? then [Step(Sample(counter, kernel.value), m)] else [])
                + (if user.Some? then [Step(RunIb(user.value, 4), m)] else []))
         == if user.Some? then [RunIb(user.value, 4)] else []
  {
    var sampled := steps + (if kernel.Some? then [Step(Sample(counter, kernel.value), m)] else []);
    IbsIf(steps, kernel.Some?, Step(Sample(counter, if kernel.Some? then kernel.value else Quad(0, 0)), m));
    IbsIf(sampled, user.Some?, Step(RunIb(if user.Some? then user.value else Quad(0, 0), 4), m));
  }

  lemma CommandIbs(c: Command, m: Modes)
    requires Verified(c.ibs)
    ensures After(m, CommandPackets(c)) == m
    ensures Ibs(Trace(m, CommandPackets(c)))
         == (if c.user.Some? then [RunIb(c.user.value.0, 4)] else [])
            + Wanted(Entries(c), c.preamble)
            + (if c.user.Some? then [RunIb(c.user.value.1, 4)] else [])
  {
    var middle := StepsIn(m, Wanted(Entries(c), c.preamble));
    CommandSteps(c, m);
    StartedIbs(m, c);
    RetiredIbs(m, c);
    WantedBuffers(Entries(c), c.preamble);
    IbsIn(m, Wanted(Entries(c), c.preamble));
    IbsThree(StartedSteps(m, c), middle, RetiredSteps(m, c));
  }

  lemma IbsThree(a: seq<Step>, b: seq<Step>, c: seq<Step>)
    ensures Ibs(a + b + c) == Ibs(a) + Ibs(b) + Ibs(c)
  {
    IbsConcat(a, b);
    IbsConcat(a + b, c);
  }

  /** A user submission. The stream parses exactly, fits the buffer allocated for it, leaves the CP's modes as they were
    and runs exactly the indirect buffers that are not skipped, in list order, each with its whole length, between the
    two that sample the counter for the user. */
  lemma CommandMeaning(c: Command, m: Modes)
    requires Verified(c.ibs)
    ensures AllFit(CommandPackets(c))
    ensures Parse(EncodeAll(CommandPackets(c))) == Some(CommandPackets(c))
    ensures |EncodeAll(CommandPackets(c))| <= A5XX_COMMAND_DWORDS + 5 * |Entries(c)|
    ensures After(m, CommandPackets(c)) == m
    ensures Ibs(Trace(m, CommandPackets(c)))
         == (if c.user.Some? then [RunIb(c.user.value.0, 4)] else [])
            + Wanted(Entries(c), c.preamble)
            + (if c.user.Some? then [RunIb(c.user.value.1, 4)] else [])
  {
    CommandFits(c);
    ParseEncoded(CommandPackets(c));
    EncodedSize(CommandPackets(c));
    CommandIbs(c, m);
  }
}
