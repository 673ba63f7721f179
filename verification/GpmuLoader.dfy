/** Loading GPMU microcode: the prebuilt stream that copies it into the GPMU's instruction RAM, chunk by chunk. */
module GpmuLoader {
  import opened Pm4
  import opened CpMachine
  import opened CommandWriting
  import Firmware

  const A5XX_GPMU_INST_RAM_BASE := 0x8800
  const GPMU_INST_RAM_SIZE := 0xFFF
  const TYPE4_MAX_PAYLOAD := 127

  function Protected(on: bool): Packet {
    Packet(Type7, CP_SET_PROTECTED_MODE, [if on then 1 else 0])
  }

  function ChunkLength(left: nat, max: nat): nat {
    if left >= max then max else left
  }

  function Chunk(ucode: seq<Word>, offset: nat, max: nat): Packet
    requires offset <= |ucode|
  {
    Packet(Type4, A5XX_GPMU_INST_RAM_BASE + offset, ucode[offset..offset + ChunkLength(|ucode| - offset, max)])
  }

  /** The type 4 packets for the microcode from `offset` on, with at most `max` words each. */
  function Chunks(ucode: seq<Word>, offset: nat, max: nat): seq<Packet>
    requires max > 0 && offset <= |ucode|
    decreases |ucode| - offset
  {
    if offset == |ucode| then []
    else [Chunk(ucode, offset, max)] + Chunks(ucode, offset + ChunkLength(|ucode| - offset, max), max)
  }

  function LoadPackets(ucode: seq<Word>, max: nat): seq<Packet>
    requires max > 0
  {
    [Protected(false)] + Chunks(ucode, 0, max) + [Protected(true)]
  }

  // ---------------------------------------------------------------- size

  lemma DivStep(a: nat, m: nat)
    requires 0 < m <= a
    ensures a / m == (a - m) / m + 1
  {
    var q, r := (a - m) / m, (a - m) % m;
    assert a == (q + 1) * m + r;
    DivUnique(a, m, q + 1, r);
  }

  lemma AtLeast(k: nat, m: nat)
    requires k >= 1
    ensures k * m >= m
  {
  }

  lemma DivUnique(a: nat, m: nat, q: nat, r: nat)
    requires 0 < m && a == q * m + r && r < m
    ensures a / m == q
  {
    var p, s := a / m, a % m;
    assert a == p * m + s;
    if p < q {
      AtLeast(q - p, m);
      assert false;
    } else if q < p {
      AtLeast(p - q, m);
      assert false;
    }
  }

  /** How many chunks so many words make. */
  function Count(left: nat, max: nat): nat
    requires max > 0
  {
    if left == 0 then 0 else 1 + Count(left - ChunkLength(left, max), max)
  }

  lemma {:induction false} CountBound(left: nat, max: nat)
    requires max > 0
    ensures Count(left, max) <= left / max + 1
    decreases left
  {
    if left >= max {
      CountBound(left - max, max);
      DivStep(left, max);
    } else {
      assert Count(0, max) == 0;
      DivUnique(left, max, 0, left);
    }
  }

  lemma {:induction false} ChunksSize(ucode: seq<Word>, offset: nat, max: nat)
    requires max > 0 && offset <= |ucode|
    ensures Size(Chunks(ucode, offset, max)) == (|ucode| - offset) + Count(|ucode| - offset, max)
    decreases |ucode| - offset
  {
    if offset < |ucode| {
      var n, rest := ChunksSplit(ucode, offset, max);
      ChunksSize(ucode, offset + n, max);
      SizeCons(Chunk(ucode, offset, max), rest);
    }
  }

  lemma SizeCons(p: Packet, rest: seq<Packet>)
    ensures Size([p] + rest) == 1 + |p.payload| + Size(rest)
  {
    SizeConcat([p], rest);
    SizeOne(p);
  }

  /** For every payload limit, the allocation of size + size / max + 1 + 4 dwords is enough. */
  lemma LoadSize(ucode: seq<Word>, max: nat)
    requires max > 0
    ensures Size(LoadPackets(ucode, max)) <= |ucode| + |ucode| / max + 1 + 4
  {
    ChunksSize(ucode, 0, max);
    CountBound(|ucode|, max);
    SizeOne(Protected(false));
    SizeOne(Protected(true));
    SizeConcat([Protected(false)], Chunks(ucode, 0, max));
    SizeConcat([Protected(false)] + Chunks(ucode, 0, max), [Protected(true)]);
  }

  // ---------------------------------------------------------------- meaning

  datatype RegisterWrite = RegisterWrite(register: nat, word: Word)

  /** n words of the microcode from `offset` on, each with its register. */
  function Image(ucode: seq<Word>, offset: nat, n: nat): (image: seq<RegisterWrite>)
    requires offset + n <= |ucode|
    ensures |image| == n
  {
    if n == 0 then []
    else Image(ucode, offset, n - 1) + [RegisterWrite(A5XX_GPMU_INST_RAM_BASE + offset + n - 1, ucode[offset + n - 1])]
  }

  lemma {:induction false} ImageAt(ucode: seq<Word>, offset: nat, n: nat, k: nat)
    requires offset + n <= |ucode| && k < n
    ensures Image(ucode, offset, n)[k] == RegisterWrite(0x8800 + offset + k, ucode[offset + k])
  {
    if k < n - 1 {
      ImageAt(ucode, offset, n - 1, k);
    }
  }

  /** All register writes among the steps, in order; type 4 packets write consecutive registers. */
  function Writes(steps: seq<Step>): seq<RegisterWrite> {
    if steps == [] then []
    else
      Writes(steps[..|steps| - 1]) + WritesOf(steps[|steps| - 1].action)
  }

  function WritesOf(a: Action): seq<RegisterWrite> {
    match a
    case WriteRegs(reg, values) => Consecutive(reg, values)
    case _ => []
  }

  function Consecutive(reg: nat, values: seq<Word>): seq<RegisterWrite> {
    if values == [] then []
    else Consecutive(reg, values[..|values| - 1]) + [RegisterWrite(reg + |values| - 1, values[|values| - 1])]
  }

  lemma {:induction false} ConsecutiveImage(ucode: seq<Word>, offset: nat, n: nat)
    requires offset + n <= |ucode|
    ensures Consecutive(A5XX_GPMU_INST_RAM_BASE + offset, ucode[offset..offset + n]) == Image(ucode, offset, n)
  {
    if n > 0 {
      ConsecutiveImage(ucode, offset, n - 1);
      assert ucode[offset..offset + n][..n - 1] == ucode[offset..offset + n - 1];
    }
  }

  predicate Unprotected(steps: seq<Step>) {
    forall k :: 0 <= k < |steps| ==> !steps[k].modes.protected
  }

  predicate Addressable(ucode: seq<Word>) {
    A5XX_GPMU_INST_RAM_BASE + |ucode| <= 0x4_0000
  }

  lemma {:induction false} WritesConcat(a: seq<Step>, b: seq<Step>)
    ensures Writes(a + b) == Writes(a) + Writes(b)
  {
    if b == [] {
      assert a + b == a;
    } else {
      var before := b[..|b| - 1];
      WritesConcat(a, before);
      LastOfBoth(a, b);
      assert Writes(b) == Writes(before) + WritesOf(b[|b| - 1].action);
      Regroup(Writes(a), Writes(before), WritesOf(b[|b| - 1].action));
    }
  }

  lemma ChunkRuns(ucode: seq<Word>, offset: nat, max: nat, m: Modes)
    requires max > 0 && offset < |ucode|
    ensures var p, n := Chunk(ucode, offset, max), ChunkLength(|ucode| - offset, max);
            Does(m, [p], m, [Step(WriteRegs(p.id, p.payload), m)])
            && Writes([Step(WriteRegs(p.id, p.payload), m)]) == Image(ucode, offset, n)
  {
    var p := Chunk(ucode, offset, max);
    ConsecutiveImage(ucode, offset, ChunkLength(|ucode| - offset, max));
    DoesOne(m, p, WriteRegs(p.id, p.payload));
    assert [Step(WriteRegs(p.id, p.payload), m)][..0] == [];
  }

  lemma {:induction false} ChunksFit(ucode: seq<Word>, offset: nat, max: nat)
    requires 0 < max <= TYPE4_MAX_PAYLOAD && offset <= |ucode| && Addressable(ucode)
    ensures AllFit(Chunks(ucode, offset, max))
    decreases |ucode| - offset
  {
    if offset < |ucode| {
      ChunksFit(ucode, offset + ChunkLength(|ucode| - offset, max), max);
    }
  }

  lemma {:induction false} ImageSplit(ucode: seq<Word>, offset: nat, n: nat, left: nat)
    requires n <= left && offset + left <= |ucode|
    ensures Image(ucode, offset, n) + Image(ucode, offset + n, left - n) == Image(ucode, offset, left)
    decreases left
  {
    if n == left {
      assert Image(ucode, offset, n) + [] == Image(ucode, offset, n);
    } else {
      ImageSplit(ucode, offset, n, left - 1);
      Regroup(Image(ucode, offset, n), Image(ucode, offset + n, left - n - 1),
              [RegisterWrite(A5XX_GPMU_INST_RAM_BASE + offset + left - 1, ucode[offset + left - 1])]);
    }
  }

  /** From unprotected modes m the packets only write this image, and stay in m. */
  predicate Copies(m: Modes, ps: seq<Packet>, image: seq<RegisterWrite>) {
    After(m, ps) == m && Unprotected(Trace(m, ps)) && Writes(Trace(m, ps)) == image
  }

  lemma CopiesNothing(m: Modes, image: seq<RegisterWrite>)
    requires image == []
    ensures Copies(m, [], image)
  {
  }

  /** The first chunk and the rest. */
  lemma ChunksSplit(ucode: seq<Word>, offset: nat, max: nat) returns (n: nat, rest: seq<Packet>)
    requires max > 0 && offset < |ucode|
    ensures 0 < n == ChunkLength(|ucode| - offset, max) <= |ucode| - offset
    ensures rest == Chunks(ucode, offset + n, max)
    ensures Chunks(ucode, offset, max) == [Chunk(ucode, offset, max)] + rest
  {
    n := ChunkLength(|ucode| - offset, max);
    rest := Chunks(ucode, offset + n, max);
  }

  function Rest(ucode: seq<Word>, offset: nat): seq<RegisterWrite>
    requires offset <= |ucode|
  {
    Image(ucode, offset, |ucode| - offset)
  }

  lemma RestSplit(ucode: seq<Word>, offset: nat, n: nat)
    requires offset + n <= |ucode|
    ensures Image(ucode, offset, n) + Rest(ucode, offset + n) == Rest(ucode, offset)
  {
    ImageSplit(ucode, offset, n, |ucode| - offset);
  }

  lemma {:induction false} ChunksRun(ucode: seq<Word>, offset: nat, max: nat, m: Modes)
    requires max > 0 && offset <= |ucode| && !m.protected
    ensures Copies(m, Chunks(ucode, offset, max), Rest(ucode, offset))
    decreases |ucode| - offset, 1
  {
    if offset == |ucode| {
      CopiesNothing(m, Rest(ucode, offset));
    } else {
      ChunksRunOn(ucode, offset, max, m);
    }
  }

  lemma ChunksRunOn(ucode: seq<Word>, offset: nat, max: nat, m: Modes)
    requires max > 0 && offset < |ucode| && !m.protected
    ensures Copies(m, Chunks(ucode, offset, max), Rest(ucode, offset))
    decreases |ucode| - offset, 0
  {
    var n, rest := ChunksSplit(ucode, offset, max);
    ChunksRun(ucode, offset + n, max, m);
    RestSplit(ucode, offset, n);
    ChunkFirst(ucode, offset, max, m, rest, Rest(ucode, offset + n));
  }

  lemma ChunkFirst(ucode: seq<Word>, offset: nat, max: nat, m: Modes, rest: seq<Packet>, image: seq<RegisterWrite>)
    requires max > 0 && offset < |ucode| && !m.protected && Copies(m, rest, image)
    ensures Copies(m, [Chunk(ucode, offset, max)] + rest,
                   Image(ucode, offset, ChunkLength(|ucode| - offset, max)) + image)
  {
    var p := Chunk(ucode, offset, max);
    var first := [Step(WriteRegs(p.id, p.payload), m)];
    ChunkRuns(ucode, offset, max, m);
    DoesThen(m, [p], m, first, rest, m, Trace(m, rest));
    WritesConcat(first, Trace(m, rest));
  }

  /** For every microcode that the register space holds, and every limit a type 4 packet allows, the stream's headers tile
    it, and running it writes ucode[k] to INST_RAM_BASE + k for every k in order and nothing else, all with protection
    off; afterwards it is on. */
  lemma LoadMeaning(ucode: seq<Word>, max: nat, m: Modes)
    requires 0 < max <= TYPE4_MAX_PAYLOAD && Addressable(ucode)
    ensures var ps := LoadPackets(ucode, max);
            && AllFit(ps) && Parse(EncodeAll(ps)) == Some(ps)
            && |EncodeAll(ps)| <= |ucode| + |ucode| / max + 1 + 4
            && After(m, ps) == m.(protected := true) && Unprotected(Trace(m, ps))
            && Writes(Trace(m, ps)) == Image(ucode, 0, |ucode|)
  {
    var off, chunks := m.(protected := false), Chunks(ucode, 0, max);
    ChunksFit(ucode, 0, max);
    ChunksRun(ucode, 0, max, off);
    ParseEncoded(LoadPackets(ucode, max));
    EncodedSize(LoadPackets(ucode, max));
    LoadSize(ucode, max);
    DoesMode(m, Protected(false));
    DoesThen(m, [Protected(false)], off, [], chunks, off, Trace(off, chunks));
    assert [] + Trace(off, chunks) == Trace(off, chunks);
    DoesSilent(m, [Protected(false)] + chunks, off, Trace(off, chunks), Protected(true));
  }

  // ---------------------------------------------------------------- the functions

  lemma ChunksNext(ps: seq<Packet>, ucode: seq<Word>, offset: nat, max: nat, chunk: Packet)
    requires max > 0 && offset < |ucode| && AllFit(Chunks(ucode, offset, max))
    requires chunk == Chunk(ucode, offset, max)
    ensures var rest := Chunks(ucode, offset + ChunkLength(|ucode| - offset, max), max);
            && Fits(chunk) && AllFit(rest)
            && ps + Chunks(ucode, offset, max) == (ps + [chunk]) + rest
            && Size(Chunks(ucode, offset, max)) == 1 + |chunk.payload| + Size(rest)
  {
    var n, rest := ChunksSplit(ucode, offset, max);
    assert chunk in [chunk] + rest;
    assert forall p :: p in rest ==> p in [chunk] + rest;
    Regroup(ps, [chunk], rest);
    SizeCons(chunk, rest);
  }

  /** The loop over the microcode. */
  method ChunksInto(w: CommandWriter, ucode: seq<Word>)
    requires w.Valid() && Addressable(ucode)
    requires w.start + w.index + Size(Chunks(ucode, 0, TYPE4_MAX_PAYLOAD)) <= w.limit
    modifies w, w.cmds
    ensures w.Valid() && w.head == old(w.head) && w.index == old(w.index) + Size(Chunks(ucode, 0, TYPE4_MAX_PAYLOAD))
    ensures w.packets == old(w.packets) + Chunks(ucode, 0, TYPE4_MAX_PAYLOAD)
  {
    var offset := 0;
    ChunksFit(ucode, 0, TYPE4_MAX_PAYLOAD);
    while offset < |ucode|
      invariant offset <= |ucode| && w.Valid() && w.head == old(w.head)
      invariant AllFit(Chunks(ucode, offset, TYPE4_MAX_PAYLOAD))
      invariant w.packets + Chunks(ucode, offset, TYPE4_MAX_PAYLOAD) == old(w.packets) + Chunks(ucode, 0, TYPE4_MAX_PAYLOAD)
      invariant w.index + Size(Chunks(ucode, offset, TYPE4_MAX_PAYLOAD))
             == old(w.index) + Size(Chunks(ucode, 0, TYPE4_MAX_PAYLOAD))
    {
      var chunk := Chunk(ucode, offset, TYPE4_MAX_PAYLOAD);
      ChunksNext(w.packets, ucode, offset, TYPE4_MAX_PAYLOAD, chunk);
      w.Emit(chunk);
      offset := offset + |chunk.payload|;
    }
    assert w.packets + [] == w.packets;
  }

  method LoadInto(w: CommandWriter, ucode: seq<Word>)
    requires w.Valid() && Addressable(ucode) && w.index == 0 && w.head == [] && w.packets == []
    requires w.start + Size(Chunks(ucode, 0, TYPE4_MAX_PAYLOAD)) + 4 <= w.limit
    modifies w, w.cmds
    ensures w.Valid() && w.head == [] && w.packets == LoadPackets(ucode, TYPE4_MAX_PAYLOAD)
  {
    w.Emit(Protected(false));
    ChunksInto(w, ucode);
    w.Emit(Protected(true));
  }

  /** _gpmu_create_load_cmds, for microcode not loaded yet, in a buffer of just the size the driver allocates. */
  method CreateLoadCmds(ucode: seq<Word>) returns (cmds: array<Word>, index: nat)
    requires Addressable(ucode)
    ensures fresh(cmds) && index <= cmds.Length && AllFit(LoadPackets(ucode, TYPE4_MAX_PAYLOAD))
    ensures cmds[..index] == EncodeAll(LoadPackets(ucode, TYPE4_MAX_PAYLOAD))
  {
    var size := |ucode|;
    ChunksSize(ucode, 0, TYPE4_MAX_PAYLOAD);
    CountBound(size, TYPE4_MAX_PAYLOAD);
    cmds := new Word[size + size / TYPE4_MAX_PAYLOAD + 1 + 4](_ => 0);
    var w := new CommandWriter(cmds, 0, cmds.Length);
    LoadInto(w, ucode);
    index := w.index;
  }

  // ---------------------------------------------------------------- the firmware file

  /** A firmware file that is loaded: a whole block of firmware with a good header and a payload that fits the RAM. */
  predicate FirmwareOk(data: seq<Word>, major: nat) {
    && Prefixed(data)
    && Firmware.HeaderOk(data, 2, data[0] - 2, false, major)
    && data[0] - data[2] - 2 <= GPMU_INST_RAM_SIZE
  }

  /** Its first two words are as they should be. */
  predicate Prefixed(data: seq<Word>) {
    data != [] && 2 <= data[0] < |data| && data[1] == Firmware.GPMU_FIRMWARE_ID
  }

  /** A file whose fault is an error for the caller. */
  predicate Reported(data: seq<Word>, major: nat) {
    Prefixed(data) && !Firmware.HeaderOk(data, 2, data[0] - 2, false, major)
  }

  /** A bad file is taken for a success exactly if its first words are not as they should be, or its microcode, behind a
    good header, is too long. */
  lemma SilentExactly(data: seq<Word>, major: nat)
    ensures !FirmwareOk(data, major) && !Reported(data, major)
        <==> !Prefixed(data)
             || (Firmware.HeaderOk(data, 2, data[0] - 2, false, major) && data[0] - data[2] - 2 > GPMU_INST_RAM_SIZE)
  {
  }

  /** The file of a register sequence, for one. */
  lemma SilentFile(major: nat)
    ensures var data: seq<Word> := [5, Firmware.GPMU_SEQUENCE_ID, 2, 0, 0, 7];
            !FirmwareOk(data, major) && !Reported(data, major)
  {
    var data: seq<Word> := [5, Firmware.GPMU_SEQUENCE_ID, 2, 0, 0, 7];
    SilentExactly(data, major);
    assert !Prefixed(data);
  }

  /** The microcode in it. */
  function Microcode(data: seq<Word>, major: nat): (ucode: seq<Word>)
    requires FirmwareOk(data, major)
    ensures 0 < |ucode| <= GPMU_INST_RAM_SIZE
  {
    data[data[2] + 3..data[0] + 1]
  }

  /** _load_gpmu_firmware, once the file has been read. `error` is a return value other than 0: by then `ret` holds the 0
    of request_firmware, so only a bad header is reported, and any other bad file leaves success and no commands. */
  method LoadGpmuFirmware(data: array<Word>, major: nat) returns (error: bool, cmds: Option<seq<Word>>)
    requires data.Length > 0
    ensures cmds.Some? <==> FirmwareOk(data[..], major)
    ensures cmds.Some?
        <==> 2 <= data[0] < data.Length && data[1] == 2
             && Firmware.HeaderOk(data[..], 2, data[0] - 2, false, major) && data[0] - data[2] - 2 <= 0xFFF
    ensures cmds.Some? ==>
              && AllFit(LoadPackets(Microcode(data[..], major), TYPE4_MAX_PAYLOAD))
              && cmds.value == EncodeAll(LoadPackets(Microcode(data[..], major), TYPE4_MAX_PAYLOAD))
    ensures error <==> Reported(data[..], major)
    ensures error
        <==> 2 <= data[0] < data.Length && data[1] == 2 && !Firmware.HeaderOk(data[..], 2, data[0] - 2, false, major)
  {
    error, cmds := false, None;
    if data[0] >= data.Length || data[0] < 2 {
      return;
    }
    if data[1] != Firmware.GPMU_FIRMWARE_ID {
      return;
    }
    var ok := Firmware.ReadBlockHeader(data, 2, data[0] - 2, false, major);
    if !ok {
      return true, None;
    }
    var size := data[0] - data[2] - 2;
    if size > GPMU_INST_RAM_SIZE {
      return;
    }
    assert data[data[2] + 3..data[2] + 3 + size] == Microcode(data[..], major);
    var buffer, index := CreateLoadCmds(data[data[2] + 3..data[2] + 3 + size]);
    cmds := Some(buffer[..index]);
  }

  /** What a loaded file does: its microcode goes, whole and in order, to the instruction RAM from its base on. */
  lemma FirmwareMeaning(data: seq<Word>, major: nat, m: Modes)
    requires FirmwareOk(data, major)
    ensures var ps := LoadPackets(Microcode(data, major), TYPE4_MAX_PAYLOAD);
            && AllFit(ps) && Parse(EncodeAll(ps)) == Some(ps) && After(m, ps) == m.(protected := true)
            && Writes(Trace(m, ps)) == Image(Microcode(data, major), 0, |Microcode(data, major)|)
  {
    LoadMeaning(Microcode(data, major), TYPE4_MAX_PAYLOAD, m);
  }

  /** Length, type and header words, and the microcode, make up the block without a gap. */
  lemma MicrocodePartition(data: seq<Word>, major: nat)
    requires FirmwareOk(data, major)
    ensures data == data[..data[2] + 3] + Microcode(data, major) + data[data[0] + 1..]
    ensures |data[..data[2] + 3]| == 1 + 1 + 1 + data[2]
  {
  }
}
