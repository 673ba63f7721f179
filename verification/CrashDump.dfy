/** The crash dump script: what the tables compile to, what the CP's dumper does with it, and what the readers find. */
module CrashDump {
  import opened Pm4
  import opened CommandWriting

  const A5XX_HLSQ_DBG_READ_SEL := 0xBC00
  const A5XX_HLSQ_DBG_AHB_READ_APERTURE := 0xA000
  const A5XX_NUM_SHADER_BANKS := 4

  /** A register range, both ends included. */
  datatype Range = Range(first: nat, last: nat)
  datatype ShaderBlock = ShaderBlock(statetype: nat, sz: nat)
  datatype HlsqRegs = HlsqRegs(statetype: nat, ahbaddr: nat, size: nat)

  /** What the registers read as: by the value in the debug select register, and the register. */
  type Hardware = (nat, nat) -> Word

  // ---------------------------------------------------------------- the script

  datatype Instr = Select(value: nat) | Read(at: nat, reg: nat, count: nat)

  predicate Encodable(i: Instr) {
    match i
    case Select(value) => value < 0x1_0000_0000_0000_0000
    case Read(_, reg, count) => reg < 0x10_0000 && 0 < count < 0x20_0000
  }

  /** The two qwords of an instruction, for a data buffer at `base`: value or address, then register and flags or count.
    Positions in the buffer are in dwords, addresses in bytes. */
  function Qwords(i: Instr, base: nat): (q: (nat, nat)) {
    match i
    case Select(value) => (value, A5XX_HLSQ_DBG_READ_SEL * 0x1000_0000_0000 + 0x20_0000 + 1)
    case Read(at, reg, count) => (base + 4 * at, reg * 0x1000_0000_0000 + count)
  }

  /** How the dumper takes two qwords: bit 21 marks a write, and only writes of the debug select register occur. */
  function Meaning(q0: nat, q1: nat, base: nat): Option<Instr> {
    if q1 / 0x20_0000 % 2 == 1 then
      if q1 / 0x1000_0000_0000 == A5XX_HLSQ_DBG_READ_SEL && q1 % 0x20_0000 == 1 then Some(Select(q0)) else None
    else if base <= q0 && (q0 - base) % 4 == 0 then
      Some(Read((q0 - base) / 4, q1 / 0x1000_0000_0000, q1 % 0x20_0000))
    else None
  }

  /** The bits of both qwords, and that the dumper takes them for what they were made of. */
  lemma MeaningOfQwords(i: Instr, base: nat)
    requires Encodable(i)
    ensures Qwords(i, base)
         == match i
            case Select(value) => (value, 0xBC00 * 0x1000_0000_0000 + 0x20_0001)
            case Read(at, reg, count) => (base + 4 * at, reg * 0x1000_0000_0000 + count)
    ensures Meaning(Qwords(i, base).0, Qwords(i, base).1, base) == Some(i) && Qwords(i, base).1 != 0
  {
    match i
    case Select(value) =>
    case Read(at, reg, count) =>
      var q := reg * 0x1000_0000_0000 + count;
      assert q / 0x20_0000 == reg * 0x80_0000;
      assert q / 0x1000_0000_0000 == reg;
  }

  function Pair(i: Instr, base: nat): (pair: seq<nat>)
    ensures |pair| == 2
  {
    [Qwords(i, base).0, Qwords(i, base).1]
  }

  function Body(instrs: seq<Instr>, base: nat): (qwords: seq<nat>)
    ensures |qwords| == 2 * |instrs|
  {
    if instrs == [] then [] else Pair(instrs[0], base) + Body(instrs[1..], base)
  }

  /** A pair of zeroes ends a script. */
  function Script(instrs: seq<Instr>, base: nat): seq<nat> {
    Body(instrs, base) + [0, 0]
  }

  /** The instructions up to the terminating pair of zeroes. */
  function Understood(qwords: seq<nat>, base: nat): Option<seq<Instr>> {
    if |qwords| < 2 then None
    else if qwords[0] == 0 && qwords[1] == 0 then if |qwords| == 2 then Some([]) else None
    else
      var first, rest := Meaning(qwords[0], qwords[1], base), Understood(qwords[2..], base);
      if first.Some? && rest.Some? then Some([first.value] + rest.value) else None
  }

  predicate AllEncodable(instrs: seq<Instr>) {
    forall k :: 0 <= k < |instrs| ==> Encodable(instrs[k])
  }

  lemma UnderstoodNext(q0: nat, q1: nat, rest: seq<nat>, base: nat, i: Instr, more: seq<Instr>)
    requires Meaning(q0, q1, base) == Some(i) && q1 != 0 && Understood(rest, base) == Some(more)
    ensures Understood([q0, q1] + rest, base) == Some([i] + more)
  {
    assert ([q0, q1] + rest)[2..] == rest;
  }

  /** The dumper understands a script as what it was made of. */
  lemma {:induction false} ScriptUnderstood(instrs: seq<Instr>, base: nat)
    requires AllEncodable(instrs)
    ensures Understood(Script(instrs, base), base) == Some(instrs)
  {
    if instrs != [] {
      var first, rest := instrs[0], instrs[1..];
      ScriptUnderstood(rest, base);
      MeaningOfQwords(first, base);
      UnderstoodNext(Qwords(first, base).0, Qwords(first, base).1, Script(rest, base), base, first, rest);
      Regroup(Pair(first, base), Body(rest, base), [0, 0]);
      assert [first] + rest == instrs;
    }
  }

  lemma {:induction false} BodyConcat(a: seq<Instr>, b: seq<Instr>, base: nat)
    ensures Body(a + b, base) == Body(a, base) + Body(b, base)
  {
    if a == [] {
      assert a + b == b;
    } else {
      BodyConcat(a[1..], b, base);
      assert (a + b)[0] == a[0] && (a + b)[1..] == a[1..] + b;
      Regroup(Pair(a[0], base), Body(a[1..], base), Body(b, base));
    }
  }

  // ---------------------------------------------------------------- the dumper

  datatype Dumper = Dumper(select: nat, data: seq<Word>)

  function Values(hw: Hardware, select: nat, reg: nat, count: nat): (values: seq<Word>)
    ensures |values| == count
  {
    if count == 0 then [] else Values(hw, select, reg, count - 1) + [hw(select, reg + count - 1)]
  }

  lemma {:induction false} ValuesAt(hw: Hardware, select: nat, reg: nat, count: nat, k: nat)
    requires k < count
    ensures Values(hw, select, reg, count)[k] == hw(select, reg + k)
  {
    if k < count - 1 {
      ValuesAt(hw, select, reg, count - 1, k);
    }
  }

  predicate InBounds(instrs: seq<Instr>, size: nat) {
    forall k :: 0 <= k < |instrs| ==> instrs[k].Read? ==> instrs[k].at + instrs[k].count <= size
  }

  function Execute(hw: Hardware, instrs: seq<Instr>, d: Dumper): (r: Dumper)
    requires InBounds(instrs, |d.data|)
    ensures |r.data| == |d.data|
    decreases |instrs|
  {
    if instrs == [] then d
    else
      Execute(hw, instrs[1..],
              match instrs[0]
              case Select(value) => d.(select := value)
              case Read(at, reg, count) => d.(data := Splice(d.data, at, Values(hw, d.select, reg, count))))
  }

  lemma {:induction false} ExecuteConcat(hw: Hardware, a: seq<Instr>, b: seq<Instr>, d: Dumper)
    requires InBounds(a, |d.data|) && InBounds(b, |d.data|)
    ensures InBounds(a + b, |d.data|) && Execute(hw, a + b, d) == Execute(hw, b, Execute(hw, a, d))
    decreases |a|
  {
    if a == [] {
      assert a + b == b;
    } else {
      var next := match a[0]
        case Select(value) => d.(select := value)
        case Read(at, reg, count) => d.(data := Splice(d.data, at, Values(hw, d.select, reg, count)));
      ExecuteConcat(hw, a[1..], b, next);
      assert (a + b)[1..] == a[1..] + b;
    }
  }

  /** Started with this selection on this data, the instructions fill the window from `at` on with just these values, touch
    nothing else, and leave that selection. */
  predicate Dumps(hw: Hardware, instrs: seq<Instr>, from: nat, data: seq<Word>, at: nat, values: seq<Word>, to: nat) {
    && at + |values| <= |data| && InBounds(instrs, |data|)
    && Execute(hw, instrs, Dumper(from, data)) == Dumper(to, Splice(data, at, values))
  }

  lemma DumpsThen(hw: Hardware, a: seq<Instr>, s0: nat, data: seq<Word>, at: nat, v: seq<Word>, s1: nat,
                  b: seq<Instr>, w: seq<Word>, s2: nat)
    requires Dumps(hw, a, s0, data, at, v, s1)
    requires Dumps(hw, b, s1, Splice(data, at, v), at + |v|, w, s2)
    ensures Dumps(hw, a + b, s0, data, at, v + w, s2)
  {
    ExecuteConcat(hw, a, b, Dumper(s0, data));
    SpliceThen(data, at, v, w);
  }

  lemma DumpsNothing(hw: Hardware, select: nat, data: seq<Word>, at: nat)
    requires at <= |data|
    ensures Dumps(hw, [], select, data, at, [], select)
  {
    assert Splice(data, at, []) == data;
  }

  lemma DumpsRead(hw: Hardware, select: nat, data: seq<Word>, at: nat, reg: nat, count: nat)
    requires at + count <= |data|
    ensures Dumps(hw, [Read(at, reg, count)], select, data, at, Values(hw, select, reg, count), select)
  {
    assert [Read(at, reg, count)][1..] == [];
  }

  lemma DumpsSelect(hw: Hardware, select: nat, data: seq<Word>, at: nat, value: nat)
    requires at <= |data|
    ensures Dumps(hw, [Select(value)], select, data, at, [], value)
  {
    assert [Select(value)][1..] == [];
    assert Splice(data, at, []) == data;
  }

  // ---------------------------------------------------------------- what the tables compile to

  function Count(r: Range): nat
    requires r.first <= r.last
  {
    r.last - r.first + 1
  }

  /** Ends in order, and both fields of the control word wide enough. */
  predicate RangesOk(ranges: seq<Range>) {
    forall k :: 0 <= k < |ranges| ==> ranges[k].first <= ranges[k].last < 0x10_0000
  }

  function RangesTotal(ranges: seq<Range>): nat
    requires RangesOk(ranges)
  {
    if ranges == [] then 0 else Count(ranges[0]) + RangesTotal(ranges[1..])
  }

  function RangesScript(ranges: seq<Range>, at: nat): seq<Instr>
    requires RangesOk(ranges)
  {
    if ranges == [] then []
    else [Read(at, ranges[0].first, Count(ranges[0]))] + RangesScript(ranges[1..], at + Count(ranges[0]))
  }

  function RangesData(hw: Hardware, select: nat, ranges: seq<Range>): (data: seq<Word>)
    requires RangesOk(ranges)
    ensures |data| == RangesTotal(ranges)
  {
    if ranges == [] then [] else Values(hw, select, ranges[0].first, Count(ranges[0])) + RangesData(hw, select, ranges[1..])
  }

  lemma {:induction false} RangesDump(hw: Hardware, ranges: seq<Range>, select: nat, data: seq<Word>, at: nat)
    requires RangesOk(ranges) && at + RangesTotal(ranges) <= |data|
    ensures Dumps(hw, RangesScript(ranges, at), select, data, at, RangesData(hw, select, ranges), select)
    decreases |ranges|
  {
    if ranges == [] {
      DumpsNothing(hw, select, data, at);
    } else {
      var n := Count(ranges[0]);
      var first := Values(hw, select, ranges[0].first, n);
      DumpsRead(hw, select, data, at, ranges[0].first, n);
      RangesDump(hw, ranges[1..], select, Splice(data, at, first), at + n);
      DumpsThen(hw, [Read(at, ranges[0].first, n)], select, data, at, first, select,
                RangesScript(ranges[1..], at + n), RangesData(hw, select, ranges[1..]), select);
    }
  }

  // one window behind the debug aperture

  function WindowScript(select: nat, at: nat, count: nat): seq<Instr> {
    [Select(select)] + [Read(at, A5XX_HLSQ_DBG_AHB_READ_APERTURE, count)]
  }

  function WindowData(hw: Hardware, select: nat, count: nat): (data: seq<Word>)
    ensures |data| == count
  {
    Values(hw, select, A5XX_HLSQ_DBG_AHB_READ_APERTURE, count)
  }

  lemma WindowDump(hw: Hardware, from: nat, select: nat, data: seq<Word>, at: nat, count: nat)
    requires at + count <= |data|
    ensures Dumps(hw, WindowScript(select, at, count), from, data, at, WindowData(hw, select, count), select)
  {
    DumpsSelect(hw, from, data, at, select);
    assert Splice(data, at, []) == data;
    DumpsRead(hw, select, data, at, A5XX_HLSQ_DBG_AHB_READ_APERTURE, count);
    DumpsThen(hw, [Select(select)], from, data, at, [], select,
              [Read(at, A5XX_HLSQ_DBG_AHB_READ_APERTURE, count)], WindowData(hw, select, count), select);
    assert [] + WindowData(hw, select, count) == WindowData(hw, select, count);
  }

  // shader blocks: bank j of a block is selected by its state type and j

  function BankSelect(b: ShaderBlock, j: nat): nat {
    b.statetype * 0x100 + j
  }

  predicate BlocksOk(blocks: seq<ShaderBlock>) {
    forall k :: 0 <= k < |blocks| ==> 0 < blocks[k].sz < 0x20_0000 && blocks[k].statetype < 0x100_0000
  }

  /** The banks from j on. */
  function BanksScript(b: ShaderBlock, banks: nat, j: nat, at: nat): seq<Instr>
    requires j <= banks
    decreases banks - j
  {
    if j == banks then []
    else WindowScript(BankSelect(b, j), at, b.sz) + BanksScript(b, banks, j + 1, at + b.sz)
  }

  function BanksData(hw: Hardware, b: ShaderBlock, banks: nat, j: nat): (data: seq<Word>)
    requires j <= banks
    decreases banks - j
  {
    if j == banks then [] else WindowData(hw, BankSelect(b, j), b.sz) + BanksData(hw, b, banks, j + 1)
  }

  lemma {:induction false} BanksSize(hw: Hardware, b: ShaderBlock, banks: nat, j: nat)
    requires j <= banks
    ensures |BanksData(hw, b, banks, j)| == (banks - j) * b.sz
    decreases banks - j
  {
    if j < banks {
      BanksSize(hw, b, banks, j + 1);
      assert (banks - j) * b.sz == b.sz + (banks - (j + 1)) * b.sz;
    }
  }

  lemma {:induction false} BanksDump(hw: Hardware, b: ShaderBlock, banks: nat, j: nat, from: nat, data: seq<Word>, at: nat)
    requires j <= banks && at + |BanksData(hw, b, banks, j)| <= |data|
    ensures Dumps(hw, BanksScript(b, banks, j, at), from, data, at, BanksData(hw, b, banks, j),
                  if j == banks then from else BankSelect(b, banks - 1))
    decreases banks - j
  {
    if j == banks {
      DumpsNothing(hw, from, data, at);
    } else {
      var select, window := BankSelect(b, j), WindowData(hw, BankSelect(b, j), b.sz);
      WindowDump(hw, from, select, data, at, b.sz);
      BanksDump(hw, b, banks, j + 1, select, Splice(data, at, window), at + b.sz);
      DumpsThen(hw, WindowScript(select, at, b.sz), from, data, at, window, select,
                BanksScript(b, banks, j + 1, at + b.sz), BanksData(hw, b, banks, j + 1), BankSelect(b, banks - 1));
    }
  }

  function BlocksTotal(blocks: seq<ShaderBlock>, banks: nat): nat {
    if blocks == [] then 0 else banks * blocks[0].sz + BlocksTotal(blocks[1..], banks)
  }

  function BlocksScript(blocks: seq<ShaderBlock>, banks: nat, at: nat): seq<Instr> {
    if blocks == [] then []
    else BanksScript(blocks[0], banks, 0, at) + BlocksScript(blocks[1..], banks, at + banks * blocks[0].sz)
  }

  function BlocksData(hw: Hardware, blocks: seq<ShaderBlock>, banks: nat): (data: seq<Word>)
    ensures |data| == BlocksTotal(blocks, banks)
  {
    if blocks == [] then []
    else
      BanksSize(hw, blocks[0], banks, 0);
      BanksData(hw, blocks[0], banks, 0) + BlocksData(hw, blocks[1..], banks)
  }

  function LastSelect(blocks: seq<ShaderBlock>, banks: nat, from: nat): nat {
    if blocks == [] || banks == 0 then from else BankSelect(blocks[|blocks| - 1], banks - 1)
  }

  lemma LastSelectNext(blocks: seq<ShaderBlock>, banks: nat, from: nat)
    requires blocks != [] && banks > 0
    ensures LastSelect(blocks[1..], banks, BankSelect(blocks[0], banks - 1)) == LastSelect(blocks, banks, from)
  {
  }

  lemma WholeBlockDump(hw: Hardware, b: ShaderBlock, banks: nat, from: nat, data: seq<Word>, at: nat)
    requires banks > 0 && at + banks * b.sz <= |data|
    ensures |BanksData(hw, b, banks, 0)| == banks * b.sz
    ensures Dumps(hw, BanksScript(b, banks, 0, at), from, data, at, BanksData(hw, b, banks, 0), BankSelect(b, banks - 1))
  {
    BanksSize(hw, b, banks, 0);
    BanksDump(hw, b, banks, 0, from, data, at);
  }

  lemma BlockThenRest(hw: Hardware, blocks: seq<ShaderBlock>, banks: nat, from: nat, data: seq<Word>, at: nat)
    requires banks > 0 && blocks != [] && at + banks * blocks[0].sz <= |data|
    requires var b, next := blocks[0], at + banks * blocks[0].sz;
             Dumps(hw, BlocksScript(blocks[1..], banks, next), BankSelect(b, banks - 1),
                   SpliceBlock(hw, b, banks, data, at), next, BlocksData(hw, blocks[1..], banks),
                   LastSelect(blocks[1..], banks, BankSelect(b, banks - 1)))
    ensures Dumps(hw, BlocksScript(blocks, banks, at), from, data, at, BlocksData(hw, blocks, banks), LastSelect(blocks, banks, from))
  {
    var b, rest, select := blocks[0], blocks[1..], BankSelect(blocks[0], banks - 1);
    WholeBlockDump(hw, b, banks, from, data, at);
    LastSelectNext(blocks, banks, from);
    DumpsThen(hw, BanksScript(b, banks, 0, at), from, data, at, BanksData(hw, b, banks, 0), select,
              BlocksScript(rest, banks, at + banks * b.sz), BlocksData(hw, rest, banks), LastSelect(rest, banks, select));
  }

  /** The data once a block has been dumped. */
  function SpliceBlock(hw: Hardware, b: ShaderBlock, banks: nat, data: seq<Word>, at: nat): (r: seq<Word>)
    requires at + banks * b.sz <= |data|
    ensures |r| == |data|
  {
    BanksSize(hw, b, banks, 0);
    Splice(data, at, BanksData(hw, b, banks, 0))
  }

  lemma {:induction false} BlocksDump(hw: Hardware, blocks: seq<ShaderBlock>, banks: nat, from: nat, data: seq<Word>, at: nat)
    requires banks > 0 && at + BlocksTotal(blocks, banks) <= |data|
    ensures Dumps(hw, BlocksScript(blocks, banks, at), from, data, at, BlocksData(hw, blocks, banks), LastSelect(blocks, banks, from))
    decreases |blocks|
  {
    if blocks == [] {
      DumpsNothing(hw, from, data, at);
    } else {
      var b := blocks[0];
      BlocksDump(hw, blocks[1..], banks, BankSelect(b, banks - 1), SpliceBlock(hw, b, banks, data, at), at + banks * b.sz);
      BlockThenRest(hw, blocks, banks, from, data, at);
    }
  }

  // HLSQ, SP and TP registers

  function HlsqSelect(r: HlsqRegs): nat {
    r.statetype * 0x100
  }

  predicate HlsqOk(regs: seq<HlsqRegs>) {
    forall k :: 0 <= k < |regs| ==> 0 < regs[k].size < 0x20_0000 && regs[k].statetype < 0x100_0000
  }

  function HlsqTotal(regs: seq<HlsqRegs>): nat {
    if regs == [] then 0 else regs[0].size + HlsqTotal(regs[1..])
  }

  function HlsqScript(regs: seq<HlsqRegs>, at: nat): seq<Instr> {
    if regs == [] then []
    else WindowScript(HlsqSelect(regs[0]), at, regs[0].size) + HlsqScript(regs[1..], at + regs[0].size)
  }

  function HlsqData(hw: Hardware, regs: seq<HlsqRegs>): (data: seq<Word>)
    ensures |data| == HlsqTotal(regs)
  {
    if regs == [] then [] else WindowData(hw, HlsqSelect(regs[0]), regs[0].size) + HlsqData(hw, regs[1..])
  }

  function LastHlsq(regs: seq<HlsqRegs>, from: nat): nat {
    if regs == [] then from else HlsqSelect(regs[|regs| - 1])
  }

  lemma {:induction false} HlsqDump(hw: Hardware, regs: seq<HlsqRegs>, from: nat, data: seq<Word>, at: nat)
    requires at + HlsqTotal(regs) <= |data|
    ensures Dumps(hw, HlsqScript(regs, at), from, data, at, HlsqData(hw, regs), LastHlsq(regs, from))
    decreases |regs|
  {
    if regs == [] {
      DumpsNothing(hw, from, data, at);
    } else {
      var r := regs[0];
      var select, window := HlsqSelect(r), WindowData(hw, HlsqSelect(r), r.size);
      WindowDump(hw, from, select, data, at, r.size);
      HlsqDump(hw, regs[1..], select, Splice(data, at, window), at + r.size);
      DumpsThen(hw, WindowScript(select, at, r.size), from, data, at, window, select,
                HlsqScript(regs[1..], at + r.size), HlsqData(hw, regs[1..]), LastHlsq(regs[1..], select));
    }
  }

  // ---------------------------------------------------------------- the whole

  /** a5xx_registers, a5xx_gpmu_registers (none without a GPMU), a5xx_shader_blocks and a5xx_hlsq_sp_tp_registers. */
  datatype Tables = Tables(regs: seq<Range>, gpmu: seq<Range>, blocks: seq<ShaderBlock>, hlsq: seq<HlsqRegs>)

  predicate TablesOk(t: Tables) {
    RangesOk(t.regs) && RangesOk(t.gpmu) && BlocksOk(t.blocks) && HlsqOk(t.hlsq)
  }

  /** Where the shader blocks and the HLSQ registers go, and the size of the data, in dwords. */
  function GpmuAt(t: Tables): nat
    requires TablesOk(t)
  {
    RangesTotal(t.regs)
  }

  function BlocksAt(t: Tables): nat
    requires TablesOk(t)
  {
    GpmuAt(t) + RangesTotal(t.gpmu)
  }

  function HlsqAt(t: Tables): nat
    requires TablesOk(t)
  {
    BlocksAt(t) + BlocksTotal(t.blocks, A5XX_NUM_SHADER_BANKS)
  }

  function DataSize(t: Tables): nat
    requires TablesOk(t)
  {
    HlsqAt(t) + HlsqTotal(t.hlsq)
  }

  /** script_size, in bytes. */
  function ScriptSize(t: Tables): nat {
    16 * |t.regs| + 16 * |t.gpmu| + 32 * A5XX_NUM_SHADER_BANKS * |t.blocks| + 32 * |t.hlsq|
  }

  function Compiled(t: Tables): seq<Instr>
    requires TablesOk(t)
  {
    RangesScript(t.regs, 0) + RangesScript(t.gpmu, GpmuAt(t))
    + BlocksScript(t.blocks, A5XX_NUM_SHADER_BANKS, BlocksAt(t)) + HlsqScript(t.hlsq, HlsqAt(t))
  }

  function Captured(hw: Hardware, select: nat, t: Tables): (data: seq<Word>)
    requires TablesOk(t)
    ensures |data| == DataSize(t)
  {
    RangesData(hw, select, t.regs) + RangesData(hw, select, t.gpmu)
    + BlocksData(hw, t.blocks, A5XX_NUM_SHADER_BANKS) + HlsqData(hw, t.hlsq)
  }

  lemma {:induction false} RangesSize(ranges: seq<Range>, at: nat)
    requires RangesOk(ranges)
    ensures |RangesScript(ranges, at)| == |ranges| && AllEncodable(RangesScript(ranges, at))
  {
    if ranges != [] {
      RangesSize(ranges[1..], at + Count(ranges[0]));
    }
  }

  lemma {:induction false} BanksCount(b: ShaderBlock, banks: nat, j: nat, at: nat)
    requires j <= banks <= 0x100 && 0 < b.sz < 0x20_0000 && b.statetype < 0x100_0000
    ensures |BanksScript(b, banks, j, at)| == 2 * (banks - j) && AllEncodable(BanksScript(b, banks, j, at))
    decreases banks - j
  {
    if j < banks {
      BanksCount(b, banks, j + 1, at + b.sz);
    }
  }

  lemma Multiply(a: nat, n: nat)
    requires n > 0
    ensures a * n == a + a * (n - 1)
  {
  }

  lemma {:induction false} BlocksCount(blocks: seq<ShaderBlock>, banks: nat, at: nat)
    requires BlocksOk(blocks) && banks <= 0x100
    ensures |BlocksScript(blocks, banks, at)| == 2 * banks * |blocks| && AllEncodable(BlocksScript(blocks, banks, at))
  {
    if blocks != [] {
      BanksCount(blocks[0], banks, 0, at);
      BlocksCount(blocks[1..], banks, at + banks * blocks[0].sz);
      Multiply(2 * banks, |blocks|);
    }
  }

  lemma {:induction false} HlsqCount(regs: seq<HlsqRegs>, at: nat)
    requires HlsqOk(regs)
    ensures |HlsqScript(regs, at)| == 2 * |regs| && AllEncodable(HlsqScript(regs, at))
  {
    if regs != [] {
      HlsqCount(regs[1..], at + regs[0].size);
    }
  }

  /** The script takes exactly script_size and 16 bytes, and the dumper understands it as compiled. */
  lemma ScriptFits(t: Tables, base: nat)
    requires TablesOk(t)
    ensures AllEncodable(Compiled(t)) && 8 * |Script(Compiled(t), base)| == ScriptSize(t) + 16
    ensures Understood(Script(Compiled(t), base), base) == Some(Compiled(t))
  {
    RangesSize(t.regs, 0);
    RangesSize(t.gpmu, GpmuAt(t));
    BlocksCount(t.blocks, A5XX_NUM_SHADER_BANKS, BlocksAt(t));
    HlsqCount(t.hlsq, HlsqAt(t));
    ScriptUnderstood(Compiled(t), base);
  }

  lemma RangesPart(hw: Hardware, select: nat, t: Tables, data: seq<Word>)
    requires TablesOk(t) && |data| == DataSize(t)
    ensures Dumps(hw, RangesScript(t.regs, 0) + RangesScript(t.gpmu, GpmuAt(t)), select, data, 0,
                  RangesData(hw, select, t.regs) + RangesData(hw, select, t.gpmu), select)
  {
    var regs, gpmu := RangesData(hw, select, t.regs), RangesData(hw, select, t.gpmu);
    RangesDump(hw, t.regs, select, data, 0);
    RangesDump(hw, t.gpmu, select, Splice(data, 0, regs), GpmuAt(t));
    DumpsThen(hw, RangesScript(t.regs, 0), select, data, 0, regs, select, RangesScript(t.gpmu, GpmuAt(t)), gpmu, select);
  }

  lemma BlocksPart(hw: Hardware, select: nat, t: Tables, data: seq<Word>)
    requires TablesOk(t) && |data| == DataSize(t)
    ensures Dumps(hw, RangesScript(t.regs, 0) + RangesScript(t.gpmu, GpmuAt(t))
                      + BlocksScript(t.blocks, A5XX_NUM_SHADER_BANKS, BlocksAt(t)), select, data, 0,
                  RangesData(hw, select, t.regs) + RangesData(hw, select, t.gpmu)
                  + BlocksData(hw, t.blocks, A5XX_NUM_SHADER_BANKS), LastSelect(t.blocks, A5XX_NUM_SHADER_BANKS, select))
  {
    var ranges := RangesData(hw, select, t.regs) + RangesData(hw, select, t.gpmu);
    RangesPart(hw, select, t, data);
    BlocksDump(hw, t.blocks, A5XX_NUM_SHADER_BANKS, select, Splice(data, 0, ranges), BlocksAt(t));
    DumpsThen(hw, RangesScript(t.regs, 0) + RangesScript(t.gpmu, GpmuAt(t)), select, data, 0, ranges, select,
              BlocksScript(t.blocks, A5XX_NUM_SHADER_BANKS, BlocksAt(t)), BlocksData(hw, t.blocks, A5XX_NUM_SHADER_BANKS),
              LastSelect(t.blocks, A5XX_NUM_SHADER_BANKS, select));
  }

  lemma SpliceAll(data: seq<Word>, all: seq<Word>)
    requires |data| == |all|
    ensures Splice(data, 0, all) == all
  {
  }

  /** Running the script replaces the whole buffer, whatever it held: the windows of its reads are disjoint and tile it, and
    each holds what its registers read as, behind the selection made for it. */
  lemma DumpIsCaptured(hw: Hardware, select: nat, t: Tables, data: seq<Word>)
    requires TablesOk(t) && |data| == DataSize(t)
    ensures InBounds(Compiled(t), |data|)
    ensures Execute(hw, Compiled(t), Dumper(select, data)).data == Captured(hw, select, t)
  {
    var most := RangesData(hw, select, t.regs) + RangesData(hw, select, t.gpmu) + BlocksData(hw, t.blocks, A5XX_NUM_SHADER_BANKS);
    var script := RangesScript(t.regs, 0) + RangesScript(t.gpmu, GpmuAt(t))
      + BlocksScript(t.blocks, A5XX_NUM_SHADER_BANKS, BlocksAt(t));
    var s1 := LastSelect(t.blocks, A5XX_NUM_SHADER_BANKS, select);
    BlocksPart(hw, select, t, data);
    HlsqDump(hw, t.hlsq, s1, Splice(data, 0, most), HlsqAt(t));
    DumpsThen(hw, script, select, data, 0, most, s1, HlsqScript(t.hlsq, HlsqAt(t)), HlsqData(hw, t.hlsq), LastHlsq(t.hlsq, s1));
    SpliceAll(data, Captured(hw, select, t));
  }

  // ---------------------------------------------------------------- a5xx_crashdump_init

  class ScriptWriter {
    const ptr: array<nat>
    const base: nat
    var index: nat
    ghost var instrs: seq<Instr>

    ghost predicate Valid()
      reads this, ptr
    {
      index == 2 * |instrs| <= ptr.Length && ptr[..index] == Body(instrs, base)
    }

    constructor (ptr: array<nat>, base: nat)
      ensures Valid() && this.ptr == ptr && this.base == base && instrs == []
    {
      this.ptr := ptr;
      this.base := base;
      index := 0;
      instrs := [];
    }

    /** Two qwords: `*ptr++ = ...; *ptr++ = ...`. */
    method Add(i: Instr)
      requires Valid() && index + 2 <= ptr.Length
      modifies this, ptr
      ensures Valid() && instrs == old(instrs) + [i]
    {
      ghost var before := ptr[..index];
      ptr[index] := Qwords(i, base).0;
      ptr[index + 1] := Qwords(i, base).1;
      BodyConcat(instrs, [i], base);
      assert [i][1..] == [];
      assert ptr[..index + 2] == before + Pair(i, base);
      index := index + 2;
      instrs := instrs + [i];
    }
  }

  lemma RangesScriptNext(ps: seq<Instr>, ranges: seq<Range>, at: nat)
    requires RangesOk(ranges) && ranges != []
    ensures ps + RangesScript(ranges, at)
         == (ps + [Read(at, ranges[0].first, Count(ranges[0]))]) + RangesScript(ranges[1..], at + Count(ranges[0]))
  {
  }

  /** A read for each pair of a register list. */
  method RangesInto(w: ScriptWriter, ranges: seq<Range>, at: nat) returns (end: nat)
    requires w.Valid() && RangesOk(ranges) && w.index + 2 * |ranges| <= w.ptr.Length
    modifies w, w.ptr
    ensures w.Valid() && w.instrs == old(w.instrs) + RangesScript(ranges, at) && end == at + RangesTotal(ranges)
  {
    end := at;
    var j := 0;
    assert ranges[0..] == ranges;
    while j < |ranges|
      invariant j <= |ranges| && w.Valid() && RangesOk(ranges[j..]) && w.index + 2 * (|ranges| - j) <= w.ptr.Length
      invariant w.instrs + RangesScript(ranges[j..], end) == old(w.instrs) + RangesScript(ranges, at)
      invariant end + RangesTotal(ranges[j..]) == at + RangesTotal(ranges)
    {
      var r := Count(ranges[j]);
      RangesScriptNext(w.instrs, ranges[j..], end);
      assert ranges[j..][1..] == ranges[j + 1..];
      w.Add(Read(end, ranges[j].first, r));
      end := end + r;
      j := j + 1;
    }
    assert w.instrs + [] == w.instrs;
  }

  /** _a5xx_crashdump_init_shader: select and read each bank. */
  method ShaderInto(w: ScriptWriter, block: ShaderBlock, banks: nat, at: nat) returns (end: nat)
    requires w.Valid() && w.index + 2 * |BanksScript(block, banks, 0, at)| <= w.ptr.Length
    modifies w, w.ptr
    ensures w.Valid() && w.instrs == old(w.instrs) + BanksScript(block, banks, 0, at) && end == at + banks * block.sz
  {
    end := at;
    var j := 0;
    while j < banks
      invariant j <= banks && w.Valid() && w.index + 2 * |BanksScript(block, banks, j, end)| <= w.ptr.Length
      invariant w.instrs + BanksScript(block, banks, j, end) == old(w.instrs) + BanksScript(block, banks, 0, at)
      invariant end == at + j * block.sz
    {
      ghost var before := w.instrs;
      w.Add(Select(BankSelect(block, j)));
      w.Add(Read(end, A5XX_HLSQ_DBG_AHB_READ_APERTURE, block.sz));
      BanksScriptNext(before, block, banks, j, end);
      end := end + block.sz;
      j := j + 1;
    }
    assert w.instrs + [] == w.instrs;
  }

  /** Bank j is selected by the state type and j, and read to j times the block's dwords behind the first. */
  lemma {:induction false} BanksProgram(b: ShaderBlock, banks: nat, i: nat, at: nat, j: nat)
    requires i <= j < banks
    ensures 2 * (j - i) + 1 < |BanksScript(b, banks, i, at)|
    ensures BanksScript(b, banks, i, at)[2 * (j - i)] == Select(b.statetype * 0x100 + j)
    ensures BanksScript(b, banks, i, at)[2 * (j - i) + 1] == Read(at + (j - i) * b.sz, 0xA000, b.sz)
    decreases banks - i
  {
    if i < j {
      BanksProgram(b, banks, i + 1, at + b.sz, j);
      assert (j - i) * b.sz == b.sz + (j - i - 1) * b.sz;
    }
  }

  lemma BanksScriptNext(ps: seq<Instr>, b: ShaderBlock, banks: nat, j: nat, at: nat)
    requires j < banks
    ensures ps + BanksScript(b, banks, j, at)
         == (ps + [Select(BankSelect(b, j))] + [Read(at, A5XX_HLSQ_DBG_AHB_READ_APERTURE, b.sz)])
            + BanksScript(b, banks, j + 1, at + b.sz)
  {
  }

  /** Where block i goes, in dwords. */
  function BlockOffset(blocks: seq<ShaderBlock>, banks: nat, at: nat, i: nat): nat
    requires i <= |blocks|
  {
    if i == 0 then at else BlockOffset(blocks[1..], banks, at + banks * blocks[0].sz, i - 1)
  }

  function HlsqOffset(regs: seq<HlsqRegs>, at: nat, i: nat): nat
    requires i <= |regs|
  {
    if i == 0 then at else HlsqOffset(regs[1..], at + regs[0].size, i - 1)
  }

  lemma {:induction false} BlockOffsetNext(blocks: seq<ShaderBlock>, banks: nat, at: nat, i: nat)
    requires i < |blocks|
    ensures BlockOffset(blocks, banks, at, i + 1) == BlockOffset(blocks, banks, at, i) + banks * blocks[i].sz
  {
    if i > 0 {
      BlockOffsetNext(blocks[1..], banks, at + banks * blocks[0].sz, i - 1);
    }
  }

  lemma {:induction false} HlsqOffsetNext(regs: seq<HlsqRegs>, at: nat, i: nat)
    requires i < |regs|
    ensures HlsqOffset(regs, at, i + 1) == HlsqOffset(regs, at, i) + regs[i].size
  {
    if i > 0 {
      HlsqOffsetNext(regs[1..], at + regs[0].size, i - 1);
    }
  }

  /** The first i blocks are compiled, up to `end`; what is left completes the script. */
  predicate BlocksSoFar(before: seq<Instr>, now: seq<Instr>, blocks: seq<ShaderBlock>, banks: nat, at: nat, i: nat, end: nat) {
    && i <= |blocks| && end == BlockOffset(blocks, banks, at, i)
    && now + BlocksScript(blocks[i..], banks, end) == before + BlocksScript(blocks, banks, at)
    && end + BlocksTotal(blocks[i..], banks) == at + BlocksTotal(blocks, banks)
  }

  lemma BlocksStart(before: seq<Instr>, blocks: seq<ShaderBlock>, banks: nat, at: nat)
    ensures BlocksSoFar(before, before, blocks, banks, at, 0, at)
  {
    assert blocks[0..] == blocks;
  }

  lemma BlocksGoOn(before: seq<Instr>, now: seq<Instr>, blocks: seq<ShaderBlock>, banks: nat, at: nat, i: nat, end: nat)
    requires BlocksSoFar(before, now, blocks, banks, at, i, end) && i < |blocks|
    ensures var here, next := BanksScript(blocks[i], banks, 0, end), end + banks * blocks[i].sz;
            && BlocksSoFar(before, now + here, blocks, banks, at, i + 1, next)
            && |BlocksScript(blocks[i..], banks, end)| == |here| + |BlocksScript(blocks[i + 1..], banks, next)|
  {
    BlocksNext(now, blocks, banks, i, end);
    BlockOffsetNext(blocks, banks, at, i);
  }

  lemma BlocksEnd(before: seq<Instr>, now: seq<Instr>, blocks: seq<ShaderBlock>, banks: nat, at: nat, end: nat)
    requires BlocksSoFar(before, now, blocks, banks, at, |blocks|, end)
    ensures now == before + BlocksScript(blocks, banks, at) && end == at + BlocksTotal(blocks, banks)
  {
    assert now + [] == now;
  }

  /** All shader blocks; `offsets` are the `offset` fields of the table, in bytes. */
  method BlocksInto(w: ScriptWriter, blocks: seq<ShaderBlock>, banks: nat, at: nat, offsets: array<nat>) returns (end: nat)
    requires w.Valid() && w.index + 2 * |BlocksScript(blocks, banks, at)| <= w.ptr.Length
    requires offsets.Length == |blocks| && offsets != w.ptr
    modifies w, w.ptr, offsets
    ensures w.Valid() && w.instrs == old(w.instrs) + BlocksScript(blocks, banks, at)
    ensures end == at + BlocksTotal(blocks, banks)
    ensures forall i :: 0 <= i < |blocks| ==> offsets[i] == 4 * BlockOffset(blocks, banks, at, i)
  {
    end := at;
    var i := 0;
    BlocksStart(w.instrs, blocks, banks, at);
    assert blocks[0..] == blocks;
    while i < |blocks|
      invariant BlocksSoFar(old(w.instrs), w.instrs, blocks, banks, at, i, end)
      invariant w.Valid() && w.index + 2 * |BlocksScript(blocks[i..], banks, end)| <= w.ptr.Length
      invariant forall k :: 0 <= k < i ==> offsets[k] == 4 * BlockOffset(blocks, banks, at, k)
    {
      offsets[i] := 4 * end;
      BlocksGoOn(old(w.instrs), w.instrs, blocks, banks, at, i, end);
      end := ShaderInto(w, blocks[i], banks, end);
      i := i + 1;
    }
    BlocksEnd(old(w.instrs), w.instrs, blocks, banks, at, end);
  }

  lemma BlocksNext(ps: seq<Instr>, blocks: seq<ShaderBlock>, banks: nat, i: nat, at: nat)
    requires i < |blocks|
    ensures var here, next := BanksScript(blocks[i], banks, 0, at), at + banks * blocks[i].sz;
            && ps + BlocksScript(blocks[i..], banks, at) == (ps + here) + BlocksScript(blocks[i + 1..], banks, next)
            && |BlocksScript(blocks[i..], banks, at)| == |here| + |BlocksScript(blocks[i + 1..], banks, next)|
            && at + BlocksTotal(blocks[i..], banks) == next + BlocksTotal(blocks[i + 1..], banks)
  {
    assert blocks[i..][0] == blocks[i] && blocks[i..][1..] == blocks[i + 1..];
    Regroup(ps, BanksScript(blocks[i], banks, 0, at), BlocksScript(blocks[i + 1..], banks, at + banks * blocks[i].sz));
  }

  /** All HLSQ register sets, each as _a5xx_crashdump_init_hlsq programs it. */
  method HlsqInto(w: ScriptWriter, regs: seq<HlsqRegs>, at: nat, offsets: array<nat>) returns (end: nat)
    requires w.Valid() && w.index + 4 * |regs| <= w.ptr.Length && offsets.Length == |regs| && offsets != w.ptr
    modifies w, w.ptr, offsets
    ensures w.Valid() && w.instrs == old(w.instrs) + HlsqScript(regs, at) && end == at + HlsqTotal(regs)
    ensures forall i :: 0 <= i < |regs| ==> offsets[i] == 4 * HlsqOffset(regs, at, i)
  {
    end := at;
    var i := 0;
    assert regs[0..] == regs;
    while i < |regs|
      invariant i <= |regs| && w.Valid() && w.index + 4 * (|regs| - i) <= w.ptr.Length
      invariant w.instrs + HlsqScript(regs[i..], end) == old(w.instrs) + HlsqScript(regs, at)
      invariant end + HlsqTotal(regs[i..]) == at + HlsqTotal(regs)
      invariant end == HlsqOffset(regs, at, i)
      invariant forall k :: 0 <= k < i ==> offsets[k] == 4 * HlsqOffset(regs, at, k)
    {
      offsets[i] := 4 * end;
      HlsqScriptNext(w.instrs, regs[i..], end);
      assert regs[i..][1..] == regs[i + 1..];
      HlsqOffsetNext(regs, at, i);
      w.Add(Select(HlsqSelect(regs[i])));
      w.Add(Read(end, A5XX_HLSQ_DBG_AHB_READ_APERTURE, regs[i].size));
      end := end + regs[i].size;
      i := i + 1;
    }
    assert w.instrs + [] == w.instrs;
  }

  lemma HlsqScriptNext(ps: seq<Instr>, regs: seq<HlsqRegs>, at: nat)
    requires regs != []
    ensures ps + HlsqScript(regs, at)
         == (ps + [Select(HlsqSelect(regs[0]))] + [Read(at, A5XX_HLSQ_DBG_AHB_READ_APERTURE, regs[0].size)])
            + HlsqScript(regs[1..], at + regs[0].size)
  {
  }

  /** a5xx_crashdump_init, given buffers of the sizes it computes. */
  method CrashdumpInit(t: Tables, base: nat, ptr: array<nat>, blockOffsets: array<nat>, hlsqOffsets: array<nat>)
      returns (dataSize: nat)
    requires TablesOk(t) && 8 * ptr.Length == ScriptSize(t) + 16
    requires blockOffsets.Length == |t.blocks| && hlsqOffsets.Length == |t.hlsq|
    requires ptr != blockOffsets && ptr != hlsqOffsets && blockOffsets != hlsqOffsets
    modifies ptr, blockOffsets, hlsqOffsets
    ensures ptr[..] == Script(Compiled(t), base)
    ensures dataSize == 4 * DataSize(t)
    ensures forall i :: 0 <= i < |t.blocks| ==>
              blockOffsets[i] == 4 * BlockOffset(t.blocks, A5XX_NUM_SHADER_BANKS, BlocksAt(t), i)
    ensures forall i :: 0 <= i < |t.hlsq| ==> hlsqOffsets[i] == 4 * HlsqOffset(t.hlsq, HlsqAt(t), i)
  {
    ScriptFits(t, base);
    var w := new ScriptWriter(ptr, base);
    dataSize := CompiledInto(w, t, blockOffsets, hlsqOffsets);
    ptr[w.index] := 0;
    ptr[w.index + 1] := 0;
    assert ptr[..] == ptr[..w.index] + [0, 0];
  }

  lemma CompiledSize(t: Tables)
    requires TablesOk(t)
    ensures |Compiled(t)|
         == |t.regs| + |t.gpmu| + |BlocksScript(t.blocks, A5XX_NUM_SHADER_BANKS, BlocksAt(t))| + 2 * |t.hlsq|
  {
    RangesSize(t.regs, 0);
    RangesSize(t.gpmu, GpmuAt(t));
    HlsqCount(t.hlsq, HlsqAt(t));
  }

  method ListsInto(w: ScriptWriter, t: Tables) returns (offset: nat)
    requires TablesOk(t) && w.Valid() && w.instrs == [] && 2 * |t.regs| + 2 * |t.gpmu| <= w.ptr.Length
    modifies w, w.ptr
    ensures w.Valid() && w.instrs == RangesScript(t.regs, 0) + RangesScript(t.gpmu, GpmuAt(t))
    ensures offset == BlocksAt(t) && |w.instrs| == |t.regs| + |t.gpmu|
  {
    RangesSize(t.regs, 0);
    RangesSize(t.gpmu, GpmuAt(t));
    offset := RangesInto(w, t.regs, 0);
    offset := RangesInto(w, t.gpmu, offset);
  }

  function Lists(t: Tables): seq<Instr>
    requires TablesOk(t)
  {
    RangesScript(t.regs, 0) + RangesScript(t.gpmu, GpmuAt(t))
  }

  /** Up to the HLSQ sets. */
  method FrontInto(w: ScriptWriter, t: Tables, blockOffsets: array<nat>) returns (offset: nat)
    requires TablesOk(t) && w.Valid() && w.instrs == []
    requires 2 * |t.regs| + 2 * |t.gpmu| + 2 * |BlocksScript(t.blocks, A5XX_NUM_SHADER_BANKS, BlocksAt(t))| <= w.ptr.Length
    requires blockOffsets.Length == |t.blocks| && w.ptr != blockOffsets
    modifies w, w.ptr, blockOffsets
    ensures w.Valid() && w.instrs == Lists(t) + BlocksScript(t.blocks, A5XX_NUM_SHADER_BANKS, BlocksAt(t))
    ensures offset == HlsqAt(t)
    ensures |w.instrs| == |t.regs| + |t.gpmu| + |BlocksScript(t.blocks, A5XX_NUM_SHADER_BANKS, BlocksAt(t))|
    ensures forall i :: 0 <= i < |t.blocks| ==>
              blockOffsets[i] == 4 * BlockOffset(t.blocks, A5XX_NUM_SHADER_BANKS, BlocksAt(t), i)
  {
    offset := ListsInto(w, t);
    offset := BlocksInto(w, t.blocks, A5XX_NUM_SHADER_BANKS, offset, blockOffsets);
  }

  method CompiledInto(w: ScriptWriter, t: Tables, blockOffsets: array<nat>, hlsqOffsets: array<nat>) returns (dataSize: nat)
    requires TablesOk(t) && w.Valid() && w.instrs == [] && 2 * |Compiled(t)| <= w.ptr.Length
    requires blockOffsets.Length == |t.blocks| && hlsqOffsets.Length == |t.hlsq|
    requires w.ptr != blockOffsets && w.ptr != hlsqOffsets && blockOffsets != hlsqOffsets
    modifies w, w.ptr, blockOffsets, hlsqOffsets
    ensures w.Valid() && w.instrs == Compiled(t) && dataSize == 4 * DataSize(t)
    ensures forall i :: 0 <= i < |t.blocks| ==>
              blockOffsets[i] == 4 * BlockOffset(t.blocks, A5XX_NUM_SHADER_BANKS, BlocksAt(t), i)
    ensures forall i :: 0 <= i < |t.hlsq| ==> hlsqOffsets[i] == 4 * HlsqOffset(t.hlsq, HlsqAt(t), i)
  {
    CompiledSize(t);
    var offset := FrontInto(w, t, blockOffsets);
    offset := HlsqInto(w, t.hlsq, offset, hlsqOffsets);
    dataSize := 4 * offset;
  }

  // ---------------------------------------------------------------- the readers

  datatype Pairing = Pairing(register: nat, word: Word)

  /** A register and its successors, each with its word. */
  function Pairs(first: nat, words: seq<Word>): (pairs: seq<Pairing>)
    ensures |pairs| == |words|
  {
    if words == [] then [] else Pairs(first, words[..|words| - 1]) + [Pairing(first + |words| - 1, words[|words| - 1])]
  }

  function RangesPairs(ranges: seq<Range>, words: seq<Word>): seq<Pairing>
    requires RangesOk(ranges) && RangesTotal(ranges) <= |words|
  {
    if ranges == [] then []
    else Pairs(ranges[0].first, words[..Count(ranges[0])]) + RangesPairs(ranges[1..], words[Count(ranges[0])..])
  }

  /** The registers of the ranges, each with the value the hardware gives for it. */
  function Expected(hw: Hardware, select: nat, ranges: seq<Range>): seq<Pairing>
    requires RangesOk(ranges)
  {
    if ranges == [] then []
    else Pairs(ranges[0].first, Values(hw, select, ranges[0].first, Count(ranges[0]))) + Expected(hw, select, ranges[1..])
  }

  /** How many ranges fit the section, at eight bytes a register. */
  function Fitting(ranges: seq<Range>, remain: nat): (n: nat)
    requires RangesOk(ranges)
    ensures n <= |ranges|
  {
    if ranges == [] || remain < 8 * Count(ranges[0]) then 0 else 1 + Fitting(ranges[1..], remain - 8 * Count(ranges[0]))
  }

  /** They are those up to the first one that does not. */
  lemma {:induction false} FittingExactly(ranges: seq<Range>, remain: nat)
    requires RangesOk(ranges)
    ensures var n := Fitting(ranges, remain);
            && RangesOk(ranges[..n]) && 8 * RangesTotal(ranges[..n]) <= remain
            && (n < |ranges| ==> 8 * (RangesTotal(ranges[..n]) + ranges[n].last - ranges[n].first + 1) > remain)
  {
    if ranges != [] && remain >= 8 * Count(ranges[0]) {
      var n := Fitting(ranges[1..], remain - 8 * Count(ranges[0]));
      FittingExactly(ranges[1..], remain - 8 * Count(ranges[0]));
      assert ranges[..n + 1][1..] == ranges[1..][..n];
    }
  }

  lemma {:induction false} PairsAt(first: nat, words: seq<Word>, k: nat)
    requires k < |words|
    ensures Pairs(first, words)[k] == Pairing(first + k, words[k])
  {
    if k < |words| - 1 {
      PairsAt(first, words[..|words| - 1], k);
    }
  }

  /** One range of a5xx_snapshot_registers: `*data++ = k; *data++ = *src++`. */
  method ReadRange(words: seq<Word>, src: nat, first: nat, count: nat) returns (pairs: seq<Pairing>)
    requires src + count <= |words|
    ensures pairs == Pairs(first, words[src..src + count])
  {
    pairs := [];
    var k := 0;
    while k < count
      invariant k <= count && pairs == Pairs(first, words[src..src + k])
    {
      assert words[src..src + k + 1][..k] == words[src..src + k];
      pairs := pairs + [Pairing(first + k, words[src + k])];
      k := k + 1;
    }
  }

  /** What comes of reading the ranges into a section of so many bytes: it stops at the first range that does not fit. */
  function Reading(ranges: seq<Range>, words: seq<Word>, remain: nat): seq<Pairing>
    requires RangesOk(ranges) && RangesTotal(ranges) <= |words|
  {
    if ranges == [] || remain < 8 * Count(ranges[0]) then []
    else
      var n := Count(ranges[0]);
      Pairs(ranges[0].first, words[..n]) + Reading(ranges[1..], words[n..], remain - 8 * n)
  }

  lemma ReadingNext(done: seq<Pairing>, ranges: seq<Range>, words: seq<Word>, remain: nat, pairs: seq<Pairing>)
    requires RangesOk(ranges) && ranges != [] && RangesTotal(ranges) <= |words| && remain >= 8 * Count(ranges[0])
    requires pairs == Pairs(ranges[0].first, words[..Count(ranges[0])])
    ensures var n := Count(ranges[0]);
            done + Reading(ranges, words, remain) == (done + pairs) + Reading(ranges[1..], words[n..], remain - 8 * n)
  {
    var n := Count(ranges[0]);
    Regroup(done, pairs, Reading(ranges[1..], words[n..], remain - 8 * n));
  }

  lemma {:induction false} PrefixTotal(ranges: seq<Range>, n: nat)
    requires RangesOk(ranges) && n <= |ranges|
    ensures RangesOk(ranges[..n]) && RangesTotal(ranges[..n]) <= RangesTotal(ranges)
  {
    if n > 0 {
      PrefixTotal(ranges[1..], n - 1);
      assert ranges[..n][1..] == ranges[1..][..n - 1];
    }
  }

  /** What has been read, and what is left to read, make up the whole reading. */
  predicate ReadSoFar(pairs: seq<Pairing>, ranges: seq<Range>, words: seq<Word>, remain: nat, j: nat, src: nat, left: nat) {
    && RangesOk(ranges) && j <= |ranges| && src <= |words|
    && RangesTotal(ranges) <= |words| && RangesTotal(ranges[j..]) <= |words[src..]|
    && pairs + Reading(ranges[j..], words[src..], left) == Reading(ranges, words, remain)
  }

  lemma ReadStarts(ranges: seq<Range>, words: seq<Word>, remain: nat)
    requires RangesOk(ranges) && RangesTotal(ranges) <= |words|
    ensures ReadSoFar([], ranges, words, remain, 0, 0, remain)
  {
    assert ranges[0..] == ranges && words[0..] == words;
    assert [] + Reading(ranges, words, remain) == Reading(ranges, words, remain);
  }

  lemma ReadOne(pairs: seq<Pairing>, ranges: seq<Range>, words: seq<Word>, remain: nat, j: nat, src: nat, left: nat,
                more: seq<Pairing>)
    requires ReadSoFar(pairs, ranges, words, remain, j, src, left) && j < |ranges| && left >= 8 * Count(ranges[j])
    requires src + Count(ranges[j]) <= |words| && more == Pairs(ranges[j].first, words[src..src + Count(ranges[j])])
    ensures ReadSoFar(pairs + more, ranges, words, remain, j + 1, src + Count(ranges[j]), left - 8 * Count(ranges[j]))
  {
    Advance(ranges, words, j, src);
    ReadingNext(pairs, ranges[j..], words[src..], left, more);
  }

  lemma ReadFits(pairs: seq<Pairing>, ranges: seq<Range>, words: seq<Word>, remain: nat, j: nat, src: nat, left: nat)
    requires ReadSoFar(pairs, ranges, words, remain, j, src, left) && j < |ranges|
    ensures src + Count(ranges[j]) <= |words|
  {
    Advance(ranges, words, j, src);
  }

  lemma ReadEnds(pairs: seq<Pairing>, ranges: seq<Range>, words: seq<Word>, remain: nat, j: nat, src: nat, left: nat)
    requires ReadSoFar(pairs, ranges, words, remain, j, src, left) && (j == |ranges| || left < 8 * Count(ranges[j]))
    ensures pairs == Reading(ranges, words, remain)
  {
    NoMore(pairs, ranges[j..], words[src..], left);
  }

  /** One turn of the loop: stop at a range that does not fit, or read it. */
  method ReadNext(words: seq<Word>, ranges: seq<Range>, ghost remain: nat, pairs: seq<Pairing>, j: nat, src: nat, left: nat)
      returns (stop: bool, all: seq<Pairing>, src': nat, left': nat)
    requires ReadSoFar(pairs, ranges, words, remain, j, src, left) && j < |ranges|
    ensures if stop then all == Reading(ranges, words, remain)
            else ReadSoFar(all, ranges, words, remain, j + 1, src', left')
  {
    var count := Count(ranges[j]);
    if left < 8 * count {
      ReadEnds(pairs, ranges, words, remain, j, src, left);
      return true, pairs, src, left;
    }
    ReadFits(pairs, ranges, words, remain, j, src, left);
    var some := ReadRange(words, src, ranges[j].first, count);
    ReadOne(pairs, ranges, words, remain, j, src, left, some);
    return false, pairs + some, src + count, left - 8 * count;
  }

  /** a5xx_snapshot_registers on a valid dump. */
  method SnapshotRegisters(words: seq<Word>, ranges: seq<Range>, remain: nat) returns (pairs: seq<Pairing>)
    requires RangesOk(ranges) && RangesTotal(ranges) <= |words|
    ensures pairs == Reading(ranges, words, remain)
  {
    pairs := [];
    var left: nat, j: nat, src: nat := remain, 0, 0;
    ReadStarts(ranges, words, remain);
    while j < |ranges|
      invariant ReadSoFar(pairs, ranges, words, remain, j, src, left)
    {
      var stop;
      stop, pairs, src, left := ReadNext(words, ranges, remain, pairs, j, src, left);
      if stop {
        return;
      }
      j := j + 1;
    }
    ReadEnds(pairs, ranges, words, remain, j, src, left);
  }

  lemma Advance(ranges: seq<Range>, words: seq<Word>, j: nat, src: nat)
    requires RangesOk(ranges) && j < |ranges| && src <= |words| && RangesTotal(ranges[j..]) <= |words| - src
    ensures var n := Count(ranges[j]);
            && ranges[j..][0] == ranges[j] && ranges[j..][1..] == ranges[j + 1..]
            && src + n <= |words| && words[src..][..n] == words[src..src + n] && words[src..][n..] == words[src + n..]
            && RangesTotal(ranges[j + 1..]) <= |words| - (src + n)
  {
    assert ranges[j..][1..] == ranges[j + 1..];
  }

  lemma NoMore(done: seq<Pairing>, ranges: seq<Range>, words: seq<Word>, remain: nat)
    requires RangesOk(ranges) && RangesTotal(ranges) <= |words|
    requires ranges == [] || remain < 8 * Count(ranges[0])
    ensures done + Reading(ranges, words, remain) == done
  {
  }

  lemma {:induction false} ReadingPrefix(ranges: seq<Range>, words: seq<Word>, remain: nat)
    requires RangesOk(ranges) && RangesTotal(ranges) <= |words|
    ensures var fitting := ranges[..Fitting(ranges, remain)];
            RangesTotal(fitting) <= |words| && Reading(ranges, words, remain) == RangesPairs(fitting, words)
  {
    PrefixTotal(ranges, Fitting(ranges, remain));
    if ranges != [] && remain >= 8 * Count(ranges[0]) {
      var n, k := Count(ranges[0]), Fitting(ranges, remain);
      ReadingPrefix(ranges[1..], words[n..], remain - 8 * n);
      assert ranges[..k][0] == ranges[0] && ranges[..k][1..] == ranges[1..][..k - 1];
    }
  }

  lemma {:induction false} PairsOfData(hw: Hardware, select: nat, ranges: seq<Range>, words: seq<Word>)
    requires RangesOk(ranges) && RangesData(hw, select, ranges) <= words
    ensures RangesPairs(ranges, words) == Expected(hw, select, ranges)
  {
    if ranges != [] {
      var n := Count(ranges[0]);
      var first := Values(hw, select, ranges[0].first, n);
      assert words[..n] == RangesData(hw, select, ranges)[..n] == first;
      assert RangesData(hw, select, ranges)[n..] == RangesData(hw, select, ranges[1..]);
      PairsOfData(hw, select, ranges[1..], words[n..]);
    }
  }

  lemma {:induction false} PrefixData(hw: Hardware, select: nat, ranges: seq<Range>, n: nat)
    requires RangesOk(ranges) && n <= |ranges|
    ensures RangesData(hw, select, ranges[..n]) <= RangesData(hw, select, ranges)
  {
    if n > 0 {
      PrefixData(hw, select, ranges[1..], n - 1);
      assert ranges[..n][1..] == ranges[1..][..n - 1];
    }
  }

  lemma MainFirst(hw: Hardware, select: nat, t: Tables)
    requires TablesOk(t)
    ensures RangesData(hw, select, t.regs) <= Captured(hw, select, t)
  {
  }

  lemma MainReads(hw: Hardware, select: nat, ranges: seq<Range>, words: seq<Word>, remain: nat)
    requires RangesOk(ranges) && RangesData(hw, select, ranges) <= words
    ensures Reading(ranges, words, remain) == Expected(hw, select, ranges[..Fitting(ranges, remain)])
  {
    var n := Fitting(ranges, remain);
    ReadingPrefix(ranges, words, remain);
    PrefixTotal(ranges, n);
    PrefixData(hw, select, ranges, n);
    PairsOfData(hw, select, ranges[..n], words);
  }

  /** The k-th register of a range is expected with its own value. */
  lemma ExpectedAt(hw: Hardware, select: nat, r: Range, k: nat)
    requires r.first <= r.last && k <= r.last - r.first
    ensures |Pairs(r.first, Values(hw, select, r.first, Count(r)))| == r.last - r.first + 1
    ensures Pairs(r.first, Values(hw, select, r.first, Count(r)))[k] == Pairing(r.first + k, hw(select, r.first + k))
  {
    PairsAt(r.first, Values(hw, select, r.first, Count(r)), k);
    ValuesAt(hw, select, r.first, Count(r), k);
  }

  /** After a dump, the main register list reads back as each register with its own value, as far as the section goes. */
  lemma MainRoundTrip(hw: Hardware, select: nat, t: Tables, data: seq<Word>, remain: nat)
    requires TablesOk(t) && |data| == DataSize(t)
    ensures InBounds(Compiled(t), |data|)
    ensures var words := Execute(hw, Compiled(t), Dumper(select, data)).data;
            RangesTotal(t.regs) <= |words|
            && Reading(t.regs, words, remain) == Expected(hw, select, t.regs[..Fitting(t.regs, remain)])
  {
    DumpIsCaptured(hw, select, t, data);
    MainFirst(hw, select, t);
    MainReads(hw, select, t.regs, Captured(hw, select, t), remain);
  }

  /** get_hlsq_registers, for a table entry whose data was put at `offset` bytes. */
  method GetHlsqRegisters(words: seq<Word>, offset: nat, regs: HlsqRegs) returns (pairs: seq<Pairing>)
    requires offset / 4 + regs.size <= |words|
    ensures pairs == Pairs(regs.ahbaddr, words[offset / 4..offset / 4 + regs.size])
  {
    pairs := ReadRange(words, offset / 4, regs.ahbaddr, regs.size);
  }

  /** These dwords lie in some others from `at` on. */
  predicate Holds(words: seq<Word>, at: nat, window: seq<Word>) {
    at + |window| <= |words| && words[at..at + |window|] == window
  }

  lemma HoldsBehind(front: seq<Word>, words: seq<Word>, at: nat, window: seq<Word>)
    requires Holds(words, at, window)
    ensures Holds(front + words, |front| + at, window)
  {
    assert (front + words)[|front| + at..|front| + at + |window|] == words[at..at + |window|];
  }

  lemma HoldsBefore(words: seq<Word>, rest: seq<Word>, at: nat, window: seq<Word>)
    requires Holds(words, at, window)
    ensures Holds(words + rest, at, window)
  {
    assert (words + rest)[at..at + |window|] == words[at..at + |window|];
  }

  lemma HoldsAtStart(window: seq<Word>, rest: seq<Word>)
    ensures Holds(window + rest, 0, window)
  {
  }

  lemma HoldsWithin(words: seq<Word>, base: nat, part: seq<Word>, at: nat, window: seq<Word>)
    requires Holds(words, base, part) && Holds(part, at, window)
    ensures Holds(words, base + at, window)
  {
    assert words == words[..base] + part + words[base + |part|..];
    HoldsBehind(words[..base], part, at, window);
    HoldsBefore(words[..base] + part, words[base + |part|..], base + at, window);
  }

  lemma HoldsAt(words: seq<Word>, at: nat, window: seq<Word>, k: nat)
    requires Holds(words, at, window) && k < |window|
    ensures words[at + k] == window[k]
  {
    assert words[at + k] == words[at..at + |window|][k];
  }

  lemma FirstHlsqHolds(hw: Hardware, regs: seq<HlsqRegs>)
    requires regs != []
    ensures Holds(HlsqData(hw, regs), 0, WindowData(hw, HlsqSelect(regs[0]), regs[0].size))
  {
    var first := WindowData(hw, HlsqSelect(regs[0]), regs[0].size);
    HoldsAtStart(first, HlsqData(hw, regs[1..]));
  }

  lemma LaterHlsqHolds(hw: Hardware, regs: seq<HlsqRegs>, at: nat, window: seq<Word>)
    requires regs != [] && Holds(HlsqData(hw, regs[1..]), at, window)
    ensures Holds(HlsqData(hw, regs), regs[0].size + at, window)
  {
    HoldsBehind(WindowData(hw, HlsqSelect(regs[0]), regs[0].size), HlsqData(hw, regs[1..]), at, window);
  }

  /** How far set i lies behind the first. */
  function HlsqBehind(regs: seq<HlsqRegs>, i: nat): nat
    requires i <= |regs|
  {
    if i == 0 then 0 else regs[0].size + HlsqBehind(regs[1..], i - 1)
  }

  lemma {:induction false} HlsqOffsetBehind(regs: seq<HlsqRegs>, at: nat, i: nat)
    requires i <= |regs|
    ensures HlsqOffset(regs, at, i) == at + HlsqBehind(regs, i)
  {
    if i > 0 {
      HlsqOffsetBehind(regs[1..], at + regs[0].size, i - 1);
    }
  }

  lemma {:induction false} HlsqHolds(hw: Hardware, regs: seq<HlsqRegs>, i: nat)
    requires i < |regs|
    ensures Holds(HlsqData(hw, regs), HlsqBehind(regs, i), WindowData(hw, HlsqSelect(regs[i]), regs[i].size))
  {
    if i == 0 {
      FirstHlsqHolds(hw, regs);
    } else {
      HlsqHolds(hw, regs[1..], i - 1);
      LaterHlsqHolds(hw, regs, HlsqBehind(regs[1..], i - 1), WindowData(hw, HlsqSelect(regs[i]), regs[i].size));
    }
  }

  lemma HlsqLast(hw: Hardware, select: nat, t: Tables)
    requires TablesOk(t)
    ensures Holds(Captured(hw, select, t), HlsqAt(t), HlsqData(hw, t.hlsq))
  {
    var before := RangesData(hw, select, t.regs) + RangesData(hw, select, t.gpmu)
      + BlocksData(hw, t.blocks, A5XX_NUM_SHADER_BANKS);
    HoldsBehind(before, HlsqData(hw, t.hlsq), 0, HlsqData(hw, t.hlsq));
  }

  /** What the dump holds, whatever the buffer held before. */
  function Dumped(hw: Hardware, select: nat, t: Tables, data: seq<Word>): (words: seq<Word>)
    requires TablesOk(t) && |data| == DataSize(t)
    ensures words == Captured(hw, select, t)
  {
    DumpIsCaptured(hw, select, t, data);
    Execute(hw, Compiled(t), Dumper(select, data)).data
  }

  lemma HlsqCaptured(hw: Hardware, select: nat, t: Tables, i: nat)
    requires TablesOk(t) && i < |t.hlsq|
    ensures Holds(Captured(hw, select, t), HlsqOffset(t.hlsq, HlsqAt(t), i),
                  WindowData(hw, HlsqSelect(t.hlsq[i]), t.hlsq[i].size))
  {
    HlsqHolds(hw, t.hlsq, i);
    HlsqOffsetBehind(t.hlsq, HlsqAt(t), i);
    HlsqLast(hw, select, t);
    HoldsWithin(Captured(hw, select, t), HlsqAt(t), HlsqData(hw, t.hlsq), HlsqBehind(t.hlsq, i),
                WindowData(hw, HlsqSelect(t.hlsq[i]), t.hlsq[i].size));
  }

  /** After a dump, every HLSQ register set finds at its recorded offset what stood behind the aperture when its state type
    was selected. */
  lemma HlsqRoundTrip(hw: Hardware, select: nat, t: Tables, data: seq<Word>, i: nat)
    requires TablesOk(t) && |data| == DataSize(t) && i < |t.hlsq|
    ensures Holds(Dumped(hw, select, t, data), HlsqOffset(t.hlsq, HlsqAt(t), i),
                  WindowData(hw, HlsqSelect(t.hlsq[i]), t.hlsq[i].size))
  {
    HlsqCaptured(hw, select, t, i);
  }

  /** Register k of a set, with what stood behind the aperture at its place. */
  function HlsqPair(hw: Hardware, r: HlsqRegs, k: nat): Pairing {
    Pairing(r.ahbaddr + k, hw(r.statetype * 0x100, A5XX_HLSQ_DBG_AHB_READ_APERTURE + k))
  }

  /** What the reader makes of that window, register by register. */
  lemma HlsqPairs(hw: Hardware, r: HlsqRegs, k: nat)
    requires k < r.size
    ensures Pairs(r.ahbaddr, WindowData(hw, HlsqSelect(r), r.size))[k] == HlsqPair(hw, r, k)
  {
    PairsAt(r.ahbaddr, WindowData(hw, HlsqSelect(r), r.size), k);
    ValuesAt(hw, HlsqSelect(r), A5XX_HLSQ_DBG_AHB_READ_APERTURE, r.size, k);
  }

  lemma BlocksMiddle(hw: Hardware, select: nat, t: Tables)
    requires TablesOk(t)
    ensures Holds(Captured(hw, select, t), BlocksAt(t), BlocksData(hw, t.blocks, A5XX_NUM_SHADER_BANKS))
  {
    var before := RangesData(hw, select, t.regs) + RangesData(hw, select, t.gpmu);
    var blocks := BlocksData(hw, t.blocks, A5XX_NUM_SHADER_BANKS);
    HoldsBehind(before, blocks, 0, blocks);
    HoldsBefore(before + blocks, HlsqData(hw, t.hlsq), |before|, blocks);
  }

  /** n times sz, added up. */
  function BanksOn(sz: nat, n: nat): nat {
    if n == 0 then 0 else sz + BanksOn(sz, n - 1)
  }

  lemma {:induction false} BanksOnTimes(sz: nat, n: nat)
    ensures BanksOn(sz, n) == n * sz
  {
    if n > 0 {
      BanksOnTimes(sz, n - 1);
    }
  }

  lemma FirstBankHolds(hw: Hardware, b: ShaderBlock, banks: nat, i: nat)
    requires i < banks
    ensures Holds(BanksData(hw, b, banks, i), BanksOn(b.sz, 0), WindowData(hw, BankSelect(b, i), b.sz))
  {
    HoldsAtStart(WindowData(hw, BankSelect(b, i), b.sz), BanksData(hw, b, banks, i + 1));
  }

  lemma LaterBankHolds(hw: Hardware, b: ShaderBlock, banks: nat, i: nat, n: nat, window: seq<Word>)
    requires i < banks && Holds(BanksData(hw, b, banks, i + 1), BanksOn(b.sz, n), window)
    ensures Holds(BanksData(hw, b, banks, i), BanksOn(b.sz, n + 1), window)
  {
    HoldsBehind(WindowData(hw, BankSelect(b, i), b.sz), BanksData(hw, b, banks, i + 1), BanksOn(b.sz, n), window);
  }

  lemma {:induction false} BankHolds(hw: Hardware, b: ShaderBlock, banks: nat, i: nat, j: nat)
    requires i <= j < banks
    ensures Holds(BanksData(hw, b, banks, i), BanksOn(b.sz, j - i), WindowData(hw, BankSelect(b, j), b.sz))
    decreases j - i
  {
    if i == j {
      FirstBankHolds(hw, b, banks, i);
    } else {
      BankHolds(hw, b, banks, i + 1, j);
      LaterBankHolds(hw, b, banks, i, j - (i + 1), WindowData(hw, BankSelect(b, j), b.sz));
    }
  }

  lemma FirstBlockHolds(hw: Hardware, blocks: seq<ShaderBlock>, banks: nat, j: nat)
    requires blocks != [] && j < banks
    ensures Holds(BlocksData(hw, blocks, banks), BanksOn(blocks[0].sz, j),
                  WindowData(hw, BankSelect(blocks[0], j), blocks[0].sz))
  {
    BankHolds(hw, blocks[0], banks, 0, j);
    HoldsBefore(BanksData(hw, blocks[0], banks, 0), BlocksData(hw, blocks[1..], banks), BanksOn(blocks[0].sz, j),
                WindowData(hw, BankSelect(blocks[0], j), blocks[0].sz));
  }

  lemma WholeSize(hw: Hardware, b: ShaderBlock, banks: nat)
    ensures |BanksData(hw, b, banks, 0)| == banks * b.sz
  {
    BanksSize(hw, b, banks, 0);
  }

  lemma LaterBlockHolds(hw: Hardware, blocks: seq<ShaderBlock>, banks: nat, at: nat, window: seq<Word>)
    requires blocks != [] && Holds(BlocksData(hw, blocks[1..], banks), at, window)
    ensures Holds(BlocksData(hw, blocks, banks), banks * blocks[0].sz + at, window)
  {
    WholeSize(hw, blocks[0], banks);
    HoldsBehind(BanksData(hw, blocks[0], banks, 0), BlocksData(hw, blocks[1..], banks), at, window);
  }

  /** How far block i lies behind the first. */
  function BlockBehind(blocks: seq<ShaderBlock>, banks: nat, i: nat): nat
    requires i <= |blocks|
  {
    if i == 0 then 0 else banks * blocks[0].sz + BlockBehind(blocks[1..], banks, i - 1)
  }

  lemma {:induction false} BlockOffsetBehind(blocks: seq<ShaderBlock>, banks: nat, at: nat, i: nat)
    requires i <= |blocks|
    ensures BlockOffset(blocks, banks, at, i) == at + BlockBehind(blocks, banks, i)
  {
    if i > 0 {
      BlockOffsetBehind(blocks[1..], banks, at + banks * blocks[0].sz, i - 1);
    }
  }

  lemma {:induction false} BlockHolds(hw: Hardware, blocks: seq<ShaderBlock>, banks: nat, i: nat, j: nat)
    requires i < |blocks| && j < banks
    ensures Holds(BlocksData(hw, blocks, banks), BlockBehind(blocks, banks, i) + BanksOn(blocks[i].sz, j),
                  WindowData(hw, BankSelect(blocks[i], j), blocks[i].sz))
  {
    if i == 0 {
      FirstBlockHolds(hw, blocks, banks, j);
    } else {
      BlockHolds(hw, blocks[1..], banks, i - 1, j);
      LaterBlockHolds(hw, blocks, banks, BlockBehind(blocks[1..], banks, i - 1) + BanksOn(blocks[i].sz, j),
                      WindowData(hw, BankSelect(blocks[i], j), blocks[i].sz));
    }
  }

  /** The recorded offset of a block, in dwords. */
  function BlockAt(t: Tables, i: nat): nat
    requires TablesOk(t) && i < |t.blocks|
  {
    BlockOffset(t.blocks, A5XX_NUM_SHADER_BANKS, BlocksAt(t), i)
  }

  lemma BlockAtBehind(t: Tables, i: nat)
    requires TablesOk(t) && i < |t.blocks|
    ensures BlockAt(t, i) == BlocksAt(t) + BlockBehind(t.blocks, A5XX_NUM_SHADER_BANKS, i)
  {
    BlockOffsetBehind(t.blocks, A5XX_NUM_SHADER_BANKS, BlocksAt(t), i);
  }

  lemma HoldsInBlocks(words: seq<Word>, base: nat, part: seq<Word>, behind: nat, on: nat, window: seq<Word>)
    requires Holds(words, base, part) && Holds(part, behind + on, window)
    ensures Holds(words, base + behind + on, window)
  {
    HoldsWithin(words, base, part, behind + on, window);
  }

  lemma BankPlaced(hw: Hardware, blocks: seq<ShaderBlock>, banks: nat, words: seq<Word>, base: nat, i: nat, j: nat)
    requires i < |blocks| && j < banks && Holds(words, base, BlocksData(hw, blocks, banks))
    ensures Holds(words, base + BlockBehind(blocks, banks, i) + BanksOn(blocks[i].sz, j),
                  WindowData(hw, BankSelect(blocks[i], j), blocks[i].sz))
  {
    BlockHolds(hw, blocks, banks, i, j);
    HoldsInBlocks(words, base, BlocksData(hw, blocks, banks), BlockBehind(blocks, banks, i), BanksOn(blocks[i].sz, j),
                  WindowData(hw, BankSelect(blocks[i], j), blocks[i].sz));
  }

  lemma BankCaptured(hw: Hardware, select: nat, t: Tables, i: nat, j: nat)
    requires TablesOk(t) && i < |t.blocks| && j < A5XX_NUM_SHADER_BANKS
    ensures var b := t.blocks[i];
            Holds(Captured(hw, select, t), BlockAt(t, i) + BanksOn(b.sz, j), WindowData(hw, BankSelect(b, j), b.sz))
  {
    BlocksMiddle(hw, select, t);
    BankPlaced(hw, t.blocks, A5XX_NUM_SHADER_BANKS, Captured(hw, select, t), BlocksAt(t), i, j);
    BlockAtBehind(t, i);
  }

  /** After a dump, bank j of every shader block lies j times the block's dwords behind its recorded offset. */
  lemma ShaderRoundTrip(hw: Hardware, select: nat, t: Tables, data: seq<Word>, i: nat, j: nat)
    requires TablesOk(t) && |data| == DataSize(t) && i < |t.blocks| && j < A5XX_NUM_SHADER_BANKS
    ensures var b := t.blocks[i];
            Holds(Dumped(hw, select, t, data), BlockAt(t, i) + j * b.sz, WindowData(hw, BankSelect(b, j), b.sz))
  {
    BankCaptured(hw, select, t, i, j);
    BanksOnTimes(t.blocks[i].sz, j);
  }

  predicate WordIs(words: seq<Word>, at: nat, word: Word) {
    at < |words| && words[at] == word
  }

  lemma BankWord(words: seq<Word>, at: nat, hw: Hardware, b: ShaderBlock, j: nat, k: nat)
    requires Holds(words, at, WindowData(hw, BankSelect(b, j), b.sz)) && k < b.sz
    ensures WordIs(words, at + k, hw(b.statetype * 0x100 + j, 0xA000 + k))
  {
    HoldsAt(words, at, WindowData(hw, BankSelect(b, j), b.sz), k);
    ValuesAt(hw, BankSelect(b, j), A5XX_HLSQ_DBG_AHB_READ_APERTURE, b.sz, k);
  }

  lemma CapturedWord(hw: Hardware, select: nat, t: Tables, i: nat, j: nat, k: nat)
    requires TablesOk(t) && i < |t.blocks| && j < A5XX_NUM_SHADER_BANKS && k < t.blocks[i].sz
    ensures WordIs(Captured(hw, select, t), BlockAt(t, i) + j * t.blocks[i].sz + k,
                   hw(t.blocks[i].statetype * 0x100 + j, 0xA000 + k))
  {
    BankCaptured(hw, select, t, i, j);
    BanksOnTimes(t.blocks[i].sz, j);
    BankWord(Captured(hw, select, t), BlockAt(t, i) + BanksOn(t.blocks[i].sz, j), hw, t.blocks[i], j, k);
  }

  /** ... word for word: what stood behind the aperture at that place with the block's state type and the bank selected. */
  lemma ShaderWord(hw: Hardware, select: nat, t: Tables, data: seq<Word>, i: nat, j: nat, k: nat)
    requires TablesOk(t) && |data| == DataSize(t) && i < |t.blocks| && j < A5XX_NUM_SHADER_BANKS && k < t.blocks[i].sz
    ensures WordIs(Dumped(hw, select, t, data), BlockAt(t, i) + j * t.blocks[i].sz + k,
                   hw(t.blocks[i].statetype * 0x100 + j, 0xA000 + k))
  {
    CapturedWord(hw, select, t, i, j, k);
  }

  // ---------------------------------------------------------------- the shader reader, byte by byte

  /** The dword made of the upper bytes of one dword, from byte r on, and the lower bytes of the next. */
  function Straddling(w: Word, next: Word, r: nat): Word
    requires 0 < r < 4
  {
    if r == 1 then w / 0x100 + next % 0x100 * 0x100_0000
    else if r == 2 then w / 0x1_0000 + next % 0x1_0000 * 0x1_0000
    else w / 0x100_0000 + next % 0x100_0000 * 0x100
  }

  /** The dword that four bytes make, wherever they start; the lowest byte comes first. */
  function DwordAt(words: seq<Word>, p: nat): Word
    requires p + 4 <= 4 * |words|
  {
    if p % 4 == 0 then words[p / 4] else Straddling(words[p / 4], words[p / 4 + 1], p % 4)
  }

  lemma FourTimes(q: nat, k: nat)
    requires k < 4
    ensures (4 * q + k) / 4 == q && (4 * q + k) % 4 == k
  {
  }

  lemma AlignedDword(words: seq<Word>, q: nat)
    requires q < |words|
    ensures DwordAt(words, 4 * q) == words[q]
  {
    FourTimes(q, 0);
  }

  /** memcpy of n dwords from a byte offset. */
  function Copied(words: seq<Word>, p: nat, n: nat): (r: seq<Word>)
    requires p + 4 * n <= 4 * |words|
    ensures |r| == n
  {
    if n == 0 then [] else Copied(words, p, n - 1) + [DwordAt(words, p + 4 * (n - 1))]
  }

  lemma HoldsPrefix(words: seq<Word>, at: nat, window: seq<Word>, n: nat)
    requires Holds(words, at, window) && n <= |window|
    ensures Holds(words, at, window[..n])
  {
    assert words[at..at + n] == words[at..at + |window|][..n];
  }

  lemma CopyNext(words: seq<Word>, q: nat, n: nat)
    requires q + n < |words|
    ensures Copied(words, 4 * q, n + 1) == Copied(words, 4 * q, n) + [words[q + n]]
  {
    AlignedDword(words, q + n);
    assert 4 * q + 4 * n == 4 * (q + n);
  }

  lemma {:induction false} AlignedCopy(words: seq<Word>, q: nat, window: seq<Word>)
    requires Holds(words, q, window)
    ensures Copied(words, 4 * q, |window|) == window
  {
    if window != [] {
      var n := |window| - 1;
      HoldsPrefix(words, q, window, n);
      AlignedCopy(words, q, window[..n]);
      CopyNext(words, q, n);
      HoldsAt(words, q, window, n);
    }
  }

  /** Hardware that reads as 0 behind one selection, and as all ones otherwise. */
  function Marked(select: nat): Hardware {
    (s, r) => if s == select then 0 else 0xFFFF_FFFF
  }

  lemma MarkedAt(marked: nat, select: nat, count: nat, k: nat)
    requires k < count
    ensures WindowData(Marked(marked), select, count)[k] == if select == marked then 0 else 0xFFFF_FFFF
  {
    ValuesAt(Marked(marked), select, A5XX_HLSQ_DBG_AHB_READ_APERTURE, count, k);
  }

  lemma OnesNotZero(words: seq<Word>, p: nat)
    requires p + 4 <= 4 * |words| && words[p / 4] == 0xFFFF_FFFF
    ensures DwordAt(words, p) != 0
  {
  }

  /** A start less than n dwords' bytes behind a dword lies in one of the n. */
  lemma StartsWithin(at: nat, n: nat, bytes: nat)
    requires bytes < 4 * n
    ensures at <= (4 * at + bytes) / 4 < at + n
  {
  }

  predicate AllOnes(window: seq<Word>) {
    forall k :: 0 <= k < |window| ==> window[k] == 0xFFFF_FFFF
  }

  lemma OnesAt(words: seq<Word>, at: nat, ones: seq<Word>, q: nat)
    requires Holds(words, at, ones) && AllOnes(ones) && at <= q < at + |ones|
    ensures words[q] == 0xFFFF_FFFF
  {
    HoldsAt(words, at, ones, q - at);
  }

  lemma {:induction false} CopyNotZero(words: seq<Word>, p: nat, n: nat)
    requires 0 < n && p + 4 * n <= 4 * |words| && words[p / 4] == 0xFFFF_FFFF
    ensures Copied(words, p, n)[0] != 0
  {
    if n > 1 {
      CopyNotZero(words, p, n - 1);
    } else {
      OnesNotZero(words, p);
    }
  }

  /** a5xx_snapshot_shader_memory for bank j of a block: from j * sz bytes, not dwords, behind the block's offset. */
  function ShaderSection(words: seq<Word>, offset: nat, sz: nat, j: nat): (r: seq<Word>)
    requires offset + j * sz + 4 * sz <= 4 * |words|
    ensures |r| == sz
  {
    Copied(words, offset + j * sz, sz)
  }

  /** The section lies within the buffer. */
  lemma SectionInside(hw: Hardware, select: nat, t: Tables, data: seq<Word>, i: nat, j: nat)
    requires TablesOk(t) && |data| == DataSize(t) && i < |t.blocks| && j < A5XX_NUM_SHADER_BANKS
    ensures 4 * BlockAt(t, i) + j * t.blocks[i].sz + 4 * t.blocks[i].sz <= 4 * |Dumped(hw, select, t, data)|
  {
    ShaderRoundTrip(hw, select, t, data, i, j);
  }

  predicate SectionIsBank(hw: Hardware, select: nat, t: Tables, data: seq<Word>, i: nat, j: nat)
    requires TablesOk(t) && |data| == DataSize(t) && i < |t.blocks| && j < A5XX_NUM_SHADER_BANKS
  {
    var b := t.blocks[i];
    SectionInside(hw, select, t, data, i, j);
    ShaderSection(Dumped(hw, select, t, data), 4 * BlockAt(t, i), b.sz, j) == WindowData(hw, BankSelect(b, j), b.sz)
  }

  lemma BankZeroRead(hw: Hardware, select: nat, t: Tables, data: seq<Word>, i: nat)
    requires TablesOk(t) && |data| == DataSize(t) && i < |t.blocks|
    ensures SectionIsBank(hw, select, t, data, i, 0)
  {
    var b := t.blocks[i];
    ShaderRoundTrip(hw, select, t, data, i, 0);
    AlignedCopy(Dumped(hw, select, t, data), BlockAt(t, i), WindowData(hw, BankSelect(b, 0), b.sz));
  }

  /** ... and so word for word. */
  lemma BankZeroWord(hw: Hardware, select: nat, t: Tables, data: seq<Word>, i: nat, k: nat)
    requires TablesOk(t) && |data| == DataSize(t) && i < |t.blocks| && k < t.blocks[i].sz
    requires 4 * BlockAt(t, i) + 4 * t.blocks[i].sz <= 4 * |Dumped(hw, select, t, data)|
    ensures ShaderSection(Dumped(hw, select, t, data), 4 * BlockAt(t, i), t.blocks[i].sz, 0)[k]
         == hw(t.blocks[i].statetype * 0x100, 0xA000 + k)
  {
    BankZeroRead(hw, select, t, data, i);
    ValuesAt(hw, BankSelect(t.blocks[i], 0), A5XX_HLSQ_DBG_AHB_READ_APERTURE, t.blocks[i].sz, k);
  }

  /** Less than a bank's bytes lie between bank 0 and the start of any section. */
  lemma SectionStarts(sz: nat, j: nat)
    requires sz > 0 && j < A5XX_NUM_SHADER_BANKS
    ensures j * sz < 4 * sz
  {
    assert j * sz <= 3 * sz;
  }

  lemma Ones(marked: nat, select: nat, count: nat)
    requires select != marked
    ensures AllOnes(WindowData(Marked(marked), select, count))
  {
    forall k | 0 <= k < count ensures WindowData(Marked(marked), select, count)[k] == 0xFFFF_FFFF {
      MarkedAt(marked, select, count, k);
    }
  }

  lemma CopyFromOnes(words: seq<Word>, at: nat, ones: seq<Word>, bytes: nat, n: nat)
    requires Holds(words, at, ones) && AllOnes(ones)
    requires bytes < 4 * |ones| && 0 < n && 4 * at + bytes + 4 * n <= 4 * |words|
    ensures Copied(words, 4 * at + bytes, n)[0] != 0
  {
    StartsWithin(at, |ones|, bytes);
    OnesAt(words, at, ones, (4 * at + bytes) / 4);
    CopyNotZero(words, 4 * at + bytes, n);
  }

  lemma FirstNotZero(words: seq<Word>, at: nat, sz: nat, j: nat, ones: seq<Word>)
    requires 0 < sz == |ones| && j < A5XX_NUM_SHADER_BANKS && 4 * at + j * sz + 4 * sz <= 4 * |words|
    requires Holds(words, at, ones) && AllOnes(ones)
    ensures Copied(words, 4 * at + j * sz, sz)[0] != 0
  {
    SectionStarts(sz, j);
    CopyFromOnes(words, at, ones, j * sz, sz);
  }

  lemma SectionMisses(words: seq<Word>, at: nat, b: ShaderBlock, j: nat)
    requires 0 < b.sz && 0 < j < A5XX_NUM_SHADER_BANKS
    requires 4 * at + j * b.sz + 4 * b.sz <= 4 * |words|
    requires Holds(words, at, WindowData(Marked(BankSelect(b, j)), BankSelect(b, 0), b.sz))
    ensures ShaderSection(words, 4 * at, b.sz, j) != WindowData(Marked(BankSelect(b, j)), BankSelect(b, j), b.sz)
  {
    var marked := BankSelect(b, j);
    Ones(marked, BankSelect(b, 0), b.sz);
    FirstNotZero(words, at, b.sz, j, WindowData(Marked(marked), BankSelect(b, 0), b.sz));
    MarkedAt(marked, marked, b.sz, 0);
  }

  lemma OtherBankMissed(select: nat, t: Tables, data: seq<Word>, i: nat, j: nat)
    requires TablesOk(t) && |data| == DataSize(t) && i < |t.blocks| && 0 < j < A5XX_NUM_SHADER_BANKS
    ensures !SectionIsBank(Marked(BankSelect(t.blocks[i], j)), select, t, data, i, j)
  {
    var hw := Marked(BankSelect(t.blocks[i], j));
    SectionInside(hw, select, t, data, i, j);
    ShaderRoundTrip(hw, select, t, data, i, 0);
    SectionMisses(Dumped(hw, select, t, data), BlockAt(t, i), t.blocks[i], j);
  }

  ghost predicate AlwaysBank(select: nat, t: Tables, data: seq<Word>, i: nat, j: nat)
    requires TablesOk(t) && |data| == DataSize(t) && i < |t.blocks| && j < A5XX_NUM_SHADER_BANKS
  {
    forall hw: Hardware :: SectionIsBank(hw, select, t, data, i, j)
  }

  /** The shader reader steps from bank to bank by sz bytes where the script steps by sz dwords. Whatever the tables, what it
    takes for bank j of a block is that bank, on every hardware, for bank 0 and for no other. */
  lemma BankStride(select: nat, t: Tables, data: seq<Word>, i: nat, j: nat)
    requires TablesOk(t) && |data| == DataSize(t) && i < |t.blocks| && j < A5XX_NUM_SHADER_BANKS
    ensures AlwaysBank(select, t, data, i, j) <==> j == 0
  {
    if j == 0 {
      forall hw: Hardware ensures SectionIsBank(hw, select, t, data, i, j) {
        BankZeroRead(hw, select, t, data, i);
      }
    } else {
      OtherBankMissed(select, t, data, i, j);
    }
  }

  // ---------------------------------------------------------------- from the tables to what the readers report

  /** Buffers of the sizes the driver computes, compiled into. */
  method Compile(t: Tables, base: nat) returns (script: seq<nat>, blockOffsets: seq<nat>, hlsqOffsets: seq<nat>)
    requires TablesOk(t)
    ensures script == Script(Compiled(t), base) && |blockOffsets| == |t.blocks| && |hlsqOffsets| == |t.hlsq|
    ensures forall i :: 0 <= i < |t.blocks| ==> blockOffsets[i] == 4 * BlockAt(t, i)
    ensures forall i :: 0 <= i < |t.hlsq| ==> hlsqOffsets[i] == 4 * HlsqOffset(t.hlsq, HlsqAt(t), i)
  {
    var ptr := new nat[(ScriptSize(t) + 16) / 8];
    var blocks, hlsq := new nat[|t.blocks|], new nat[|t.hlsq|];
    var size := CrashdumpInit(t, base, ptr, blocks, hlsq);
    script, blockOffsets, hlsqOffsets := ptr[..], blocks[..], hlsq[..];
  }

  /** Let the dumper run what it makes of a script. */
  function RunScript(hw: Hardware, script: seq<nat>, base: nat, select: nat, data: seq<Word>): Option<seq<Word>> {
    var instrs := Understood(script, base);
    if instrs.Some? && InBounds(instrs.value, |data|) then Some(Execute(hw, instrs.value, Dumper(select, data)).data)
    else None
  }

  lemma ScriptRuns(hw: Hardware, t: Tables, base: nat, select: nat, data: seq<Word>)
    requires TablesOk(t) && |data| == DataSize(t)
    ensures RunScript(hw, Script(Compiled(t), base), base, select, data) == Some(Dumped(hw, select, t, data))
  {
    ScriptFits(t, base);
    DumpIsCaptured(hw, select, t, data);
  }

  /** A dump, and where a register set is recorded to lie in it. */
  method DumpedHlsq(t: Tables, base: nat, hw: Hardware, select: nat, data: seq<Word>, i: nat)
      returns (words: seq<Word>, offset: nat)
    requires TablesOk(t) && |data| == DataSize(t) && i < |t.hlsq|
    ensures words == Dumped(hw, select, t, data) && offset == 4 * HlsqOffset(t.hlsq, HlsqAt(t), i)
  {
    var script, blockOffsets, hlsqOffsets := Compile(t, base);
    ScriptRuns(hw, t, base, select, data);
    words := RunScript(hw, script, base, select, data).value;
    offset := hlsqOffsets[i];
  }

  /** The whole way for an HLSQ register set: each of its addresses is reported with what stood behind the aperture at that
    place when the set's state type was selected. */
  method ReportHlsq(t: Tables, base: nat, hw: Hardware, select: nat, data: seq<Word>, i: nat) returns (pairs: seq<Pairing>)
    requires TablesOk(t) && |data| == DataSize(t) && i < |t.hlsq|
    ensures |pairs| == t.hlsq[i].size
    ensures forall k :: 0 <= k < |pairs| ==> pairs[k] == HlsqPair(hw, t.hlsq[i], k)
  {
    var words, offset := DumpedHlsq(t, base, hw, select, data, i);
    HlsqRoundTrip(hw, select, t, data, i);
    pairs := HlsqSection(hw, words, offset, HlsqOffset(t.hlsq, HlsqAt(t), i), t.hlsq[i]);
  }

  method HlsqSection(ghost hw: Hardware, words: seq<Word>, offset: nat, ghost at: nat, r: HlsqRegs)
      returns (pairs: seq<Pairing>)
    requires offset == 4 * at && Holds(words, at, WindowData(hw, HlsqSelect(r), r.size))
    ensures |pairs| == r.size && forall k :: 0 <= k < r.size ==> pairs[k] == HlsqPair(hw, r, k)
  {
    FourTimes(at, 0);
    pairs := GetHlsqRegisters(words, offset, r);
    forall k | 0 <= k < r.size ensures pairs[k] == HlsqPair(hw, r, k) {
      HlsqPairs(hw, r, k);
    }
  }

  /** ... and for the main register list. */
  method ReportRegisters(t: Tables, base: nat, hw: Hardware, select: nat, data: seq<Word>, remain: nat)
      returns (pairs: seq<Pairing>)
    requires TablesOk(t) && |data| == DataSize(t)
    ensures pairs == Expected(hw, select, t.regs[..Fitting(t.regs, remain)])
  {
    var script, blockOffsets, hlsqOffsets := Compile(t, base);
    ScriptRuns(hw, t, base, select, data);
    var words := RunScript(hw, script, base, select, data).value;
    MainFirst(hw, select, t);
    MainReads(hw, select, t.regs, words, remain);
    pairs := SnapshotRegisters(words, t.regs, remain);
  }
}
