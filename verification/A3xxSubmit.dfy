/** What a3xx_ringbuffer_addcmds puts around a payload, and what the whole means. */
module A3xxSubmit {
  import opened Pm4
  import opened CpMachine
  import opened A3xxPackets
  import A5xxPackets

  /** One call of addcmds, apart from its payload: `drawctxt` has the addresses of the context's timestamps and its
    timestamp, `fixup` the power-on fixup buffer if the flag asks for it. */
  datatype Envelope = Envelope(
    drawctxt: Option<(Word, Word, Word)>, notProtected: bool, wfi: bool, fixup: Option<(Word, Word)>,
    before: Option<(Word, Word)>, after: Option<(Word, Word)>, ringSop: Word, ringEop: Word)

  function Protected(on: bool): Packet {
    Op(CP_SET_PROTECTED_MODE, [if on then 1 else 0])
  }

  function At(addr: Word): Quad {
    Quad(addr, 0)
  }

  function FixupPackets(at: Option<(Word, Word)>): seq<Packet> {
    if at == None then []
    else [Protected(false)] + [Nop(PWRON_FIXUP_IDENTIFIER)] + [IbPacket(at.value.0, at.value.1)] + [Protected(false)]
  }

  function ProfilePackets(at: Option<(Word, Word)>): seq<Packet> {
    if at.Some? then [IbPacket(at.value.0, at.value.1)] else []
  }

  function Store32(addr: Word, value: Word): Packet {
    Op(CP_MEM_WRITE, [addr, value])
  }

  function Event32(event: Word, addr: Word, value: Word): Packet {
    Op(CP_EVENT_WRITE, [event, addr, value])
  }

  function Front(x: Envelope): seq<Packet> {
    [Nop(if x.drawctxt.Some? then A5xxPackets.CMD_IDENTIFIER else A5xxPackets.CMD_INTERNAL_IDENTIFIER)]
    + FixupPackets(x.fixup)
    + ProfilePackets(x.before)
  }

  function Opening(x: Envelope, timestamp: Word): seq<Packet> {
    Front(x)
    + (if x.drawctxt.Some? then [Store32(x.drawctxt.value.0, x.drawctxt.value.2)] else [])
    + [Store32(x.ringSop, timestamp)]
    + (if x.notProtected then [Protected(false)] else [])
  }

  function EopPackets(x: Envelope, timestamp: Word): seq<Packet> {
    if x.drawctxt.Some? then
      [Event32(CACHE_FLUSH_TS + EVENT_IRQ, x.drawctxt.value.1, x.drawctxt.value.2)]
      + [Event32(CACHE_FLUSH_TS, x.ringEop, timestamp)]
    else [Event32(CACHE_FLUSH_TS + EVENT_IRQ, x.ringEop, timestamp)]
  }

  /** The flush of lazy HLSQ state; a one-dword event that stamps nothing. */
  function Flush(): Packet {
    Op(CP_EVENT_WRITE, [7])
  }

  function Rollover(): Packet {
    Op(CP_SET_CONSTANT, [0x4_0000 + (A3XX_HLSQ_CL_KERNEL_GROUP_X_REG - 0x2000), 0])
  }

  function Back(x: Envelope): seq<Packet> {
    (if x.notProtected then [Protected(true)] else [])
    + [Flush()]
    + [Op(CP_WAIT_FOR_IDLE, [0])]
    + ProfilePackets(x.after)
  }

  function Closing(x: Envelope, timestamp: Word): seq<Packet> {
    Back(x) + EopPackets(x, timestamp) + [Rollover()] + (if x.wfi then [Op(CP_WAIT_FOR_IDLE, [0])] else [])
  }

  // ---------------------------------------------------------------- what they do

  /** `start` is how the submissions before leave the modes. The fixup switches protection off before and after its
    buffer. */
  function Fixed(start: Modes, x: Envelope): Modes {
    start.(protected := x.fixup == None && start.protected)
  }

  function PayloadModes(start: Modes, x: Envelope): Modes {
    start.(protected := x.fixup == None && !x.notProtected && start.protected)
  }

  /** What is left of protection in the end. */
  function Final(start: Modes, x: Envelope): Modes {
    start.(protected := x.notProtected || (x.fixup == None && start.protected))
  }

  function BufferSteps(at: Option<(Word, Word)>, m: Modes): seq<Step> {
    if at.Some? then [Step(RunIb(At(at.value.0), at.value.1), m)] else []
  }

  function OpeningSteps(start: Modes, x: Envelope, timestamp: Word): seq<Step> {
    var m := Fixed(start, x);
    BufferSteps(x.fixup, m) + BufferSteps(x.before, m)
    + (if x.drawctxt.Some? then [Step(Store(At(x.drawctxt.value.0), [x.drawctxt.value.2]), m)] else [])
    + [Step(Store(At(x.ringSop), [timestamp]), m)]
  }

  function EopSteps(x: Envelope, timestamp: Word, m: Modes): seq<Step> {
    if x.drawctxt.Some? then
      [Step(Stamp(At(x.drawctxt.value.1), x.drawctxt.value.2, true), m)] + [Step(Stamp(At(x.ringEop), timestamp, false), m)]
    else [Step(Stamp(At(x.ringEop), timestamp, true), m)]
  }

  function BackSteps(start: Modes, x: Envelope): seq<Step> {
    var m := Final(start, x);
    [Step(Other(CP_EVENT_WRITE, [7]), m)] + [Step(Other(CP_WAIT_FOR_IDLE, [0]), m)] + BufferSteps(x.after, m)
  }

  function ClosingSteps(start: Modes, x: Envelope, timestamp: Word): seq<Step> {
    var m := Final(start, x);
    BackSteps(start, x) + EopSteps(x, timestamp, m) + [Step(Other(CP_SET_CONSTANT, Rollover().payload), m)]
    + (if x.wfi then [Step(Other(CP_WAIT_FOR_IDLE, [0]), m)] else [])
  }

  lemma ProfileDoes(at: Option<(Word, Word)>, m: Modes)
    ensures Does(m, ProfilePackets(at), m, BufferSteps(at, m))
  {
    if at.Some? {
      DoesOne(m, IbPacket(at.value.0, at.value.1), RunIb(At(at.value.0), at.value.1));
    } else {
      DoesNothing(m);
    }
  }

  lemma FixupDoes(start: Modes, x: Envelope)
    ensures Does(start, FixupPackets(x.fixup), Fixed(start, x), BufferSteps(x.fixup, Fixed(start, x)))
  {
    var off := start.(protected := false);
    if x.fixup == None {
      DoesNothing(start);
    } else {
      var ib := IbPacket(x.fixup.value.0, x.fixup.value.1);
      DoesMode(start, Protected(false));
      DoesSilent(start, [Protected(false)], off, [], Nop(PWRON_FIXUP_IDENTIFIER));
      DoesNext(start, [Protected(false)] + [Nop(PWRON_FIXUP_IDENTIFIER)], off, [], ib,
               RunIb(At(x.fixup.value.0), x.fixup.value.1));
      DoesSilent(start, [Protected(false)] + [Nop(PWRON_FIXUP_IDENTIFIER)] + [ib], off,
                 [] + BufferSteps(x.fixup, off), Protected(false));
      assert [] + BufferSteps(x.fixup, off) == BufferSteps(x.fixup, off);
    }
  }

  lemma FrontDoes(start: Modes, x: Envelope)
    ensures Does(start, Front(x), Fixed(start, x), BufferSteps(x.fixup, Fixed(start, x)) + BufferSteps(x.before, Fixed(start, x)))
  {
    var id := Nop(if x.drawctxt.Some? then A5xxPackets.CMD_IDENTIFIER else A5xxPackets.CMD_INTERNAL_IDENTIFIER);
    var fixup := BufferSteps(x.fixup, Fixed(start, x));
    DoesMode(start, id);
    FixupDoes(start, x);
    DoesThen(start, [id], start, [], FixupPackets(x.fixup), Fixed(start, x), fixup);
    assert [] + fixup == fixup;
    ProfileDoes(x.before, Fixed(start, x));
    DoesThen(start, [id] + FixupPackets(x.fixup), Fixed(start, x), fixup, ProfilePackets(x.before), Fixed(start, x), BufferSteps(x.before, Fixed(start, x)));
  }

  lemma OpeningDoes(start: Modes, x: Envelope, timestamp: Word)
    ensures Does(start, Opening(x, timestamp), PayloadModes(start, x), OpeningSteps(start, x, timestamp))
  {
    var m := Fixed(start, x);
    var front := BufferSteps(x.fixup, m) + BufferSteps(x.before, m);
    var sop := if x.drawctxt.Some? then [Store32(x.drawctxt.value.0, x.drawctxt.value.2)] else [];
    var stored := if x.drawctxt.Some? then [Step(Store(At(x.drawctxt.value.0), [x.drawctxt.value.2]), m)] else [];
    FrontDoes(start, x);
    if x.drawctxt.Some? { DoesOne(m, sop[0], stored[0].action); } else { DoesNothing(m); }
    DoesThen(start, Front(x), m, front, sop, m, stored);
    DoesNext(start, Front(x) + sop, m, front + stored, Store32(x.ringSop, timestamp), Store(At(x.ringSop), [timestamp]));
    SwitchesDo(start, Front(x) + sop + [Store32(x.ringSop, timestamp)], m,
               front + stored + [Step(Store(At(x.ringSop), [timestamp]), m)], x.notProtected, Protected(false));
  }

  lemma EopDoes(x: Envelope, timestamp: Word, m: Modes)
    ensures Does(m, EopPackets(x, timestamp), m, EopSteps(x, timestamp, m))
  {
    var event := CACHE_FLUSH_TS + EVENT_IRQ;
    if x.drawctxt.Some? {
      var c := x.drawctxt.value;
      DoesOne(m, Event32(event, c.1, c.2), Stamp(At(c.1), c.2, true));
      DoesNext(m, [Event32(event, c.1, c.2)], m, [Step(Stamp(At(c.1), c.2, true), m)],
               Event32(CACHE_FLUSH_TS, x.ringEop, timestamp), Stamp(At(x.ringEop), timestamp, false));
    } else {
      DoesOne(m, Event32(event, x.ringEop, timestamp), Stamp(At(x.ringEop), timestamp, true));
    }
  }

  lemma BackDoes(start: Modes, x: Envelope)
    ensures Does(PayloadModes(start, x), Back(x), Final(start, x), BackSteps(start, x))
  {
    var from, m := PayloadModes(start, x), Final(start, x);
    var on := if x.notProtected then [Protected(true)] else [];
    var flushed := Step(Other(CP_EVENT_WRITE, [7]), m);
    var idle := Op(CP_WAIT_FOR_IDLE, [0]);
    ModeIf(from, x.notProtected, Protected(true));
    DoesNext(from, on, m, [], Flush(), flushed.action);
    assert [] + [flushed] == [flushed];
    DoesNext(from, on + [Flush()], m, [flushed], idle, Other(CP_WAIT_FOR_IDLE, [0]));
    ProfileDoes(x.after, m);
    DoesThen(from, on + [Flush()] + [idle], m, [flushed] + [Step(Other(CP_WAIT_FOR_IDLE, [0]), m)],
             ProfilePackets(x.after), m, BufferSteps(x.after, m));
  }

  lemma ClosingDoes(start: Modes, x: Envelope, timestamp: Word)
    ensures Does(PayloadModes(start, x), Closing(x, timestamp), Final(start, x), ClosingSteps(start, x, timestamp))
  {
    var from, m := PayloadModes(start, x), Final(start, x);
    var eop := EopSteps(x, timestamp, m);
    BackDoes(start, x);
    EopDoes(x, timestamp, m);
    DoesThen(from, Back(x), m, BackSteps(start, x), EopPackets(x, timestamp), m, eop);
    DoesNext(from, Back(x) + EopPackets(x, timestamp), m, BackSteps(start, x) + eop, Rollover(), Other(CP_SET_CONSTANT, Rollover().payload));
    StepsIf(from, Back(x) + EopPackets(x, timestamp) + [Rollover()], m,
            BackSteps(start, x) + eop + [Step(Other(CP_SET_CONSTANT, Rollover().payload), m)], x.wfi,
            Op(CP_WAIT_FOR_IDLE, [0]), Other(CP_WAIT_FOR_IDLE, [0]));
  }

  // ---------------------------------------------------------------- the same, written out

  /** All that the CP does before the payload, and the modes it then is in: the fixup and profiling buffers, and the
    start-of-pipe timestamps. Protection is off from the fixup on, and for the payload if the submission asks for that. */
  lemma OpeningExactly(start: Modes, x: Envelope, timestamp: Word)
    ensures var m := Modes(start.protected && x.fixup.None?, start.secure);
            Does(start, Opening(x, timestamp), Modes(start.protected && x.fixup.None? && !x.notProtected, start.secure),
                 (if x.fixup.Some? then [Step(RunIb(Quad(x.fixup.value.0, 0), x.fixup.value.1), m)] else [])
                 + (if x.before.Some? then [Step(RunIb(Quad(x.before.value.0, 0), x.before.value.1), m)] else [])
                 + (if x.drawctxt.Some? then [Step(Store(Quad(x.drawctxt.value.0, 0), [x.drawctxt.value.2]), m)] else [])
                 + [Step(Store(Quad(x.ringSop, 0), [timestamp]), m)])
  {
    OpeningDoes(start, x, timestamp);
  }

  /** All that it does after a payload that leaves the modes alone: the HLSQ flush, an idle, the profiling buffer, the
    end-of-pipe stamps, of which the context's interrupts if there is a context, and the rollover. */
  lemma ClosingExactly(start: Modes, x: Envelope, timestamp: Word)
    ensures var m := Modes(x.notProtected || (start.protected && x.fixup.None?), start.secure);
            Does(Modes(start.protected && x.fixup.None? && !x.notProtected, start.secure), Closing(x, timestamp), m,
                 [Step(Other(0x46, [7]), m)] + [Step(Other(0x26, [0]), m)]
                 + (if x.after.Some? then [Step(RunIb(Quad(x.after.value.0, 0), x.after.value.1), m)] else [])
                 + (if x.drawctxt.Some? then
                      [Step(Stamp(Quad(x.drawctxt.value.1, 0), x.drawctxt.value.2, true), m)]
                      + [Step(Stamp(Quad(x.ringEop, 0), timestamp, false), m)]
                    else [Step(Stamp(Quad(x.ringEop, 0), timestamp, true), m)])
                 + [Step(Other(0x2D, [0x4_0215, 0]), m)]
                 + (if x.wfi then [Step(Other(0x26, [0]), m)] else []))
  {
    ClosingDoes(start, x, timestamp);
  }

  // ---------------------------------------------------------------- sizes

  lemma ProfileWithin(at: Option<(Word, Word)>)
    ensures Within(ProfilePackets(at), 3)
  {
    if at.Some? { SizeOne(IbPacket(at.value.0, at.value.1)); }
  }

  lemma FixupWithin(at: Option<(Word, Word)>)
    ensures Within(FixupPackets(at), 9)
  {
    if at.Some? {
      var ib := IbPacket(at.value.0, at.value.1);
      ThreeWithin(Protected(false), Nop(PWRON_FIXUP_IDENTIFIER), ib);
      WithinIf(true, Protected(false));
      WithinThen([Protected(false)] + [Nop(PWRON_FIXUP_IDENTIFIER)] + [ib], 7, [Protected(false)], 2);
    }
  }

  lemma OpeningWithin(x: Envelope, timestamp: Word)
    ensures Within(Opening(x, timestamp), 22)
  {
    var id := Nop(if x.drawctxt.Some? then A5xxPackets.CMD_IDENTIFIER else A5xxPackets.CMD_INTERNAL_IDENTIFIER);
    var sop := if x.drawctxt.Some? then [Store32(x.drawctxt.value.0, x.drawctxt.value.2)] else [];
    WithinIf(true, id);
    FixupWithin(x.fixup);
    ProfileWithin(x.before);
    WithinThen([id], 2, FixupPackets(x.fixup), 9);
    WithinThen([id] + FixupPackets(x.fixup), 11, ProfilePackets(x.before), 3);
    if x.drawctxt.Some? { SizeOne(sop[0]); }
    WithinThen(Front(x), 14, sop, 3);
    WithinIf(true, Store32(x.ringSop, timestamp));
    WithinThen(Front(x) + sop, 17, [Store32(x.ringSop, timestamp)], 3);
    WithinIf(x.notProtected, Protected(false));
    WithinThen(Front(x) + sop + [Store32(x.ringSop, timestamp)], 20, if x.notProtected then [Protected(false)] else [], 2);
  }

  lemma EopWithin(x: Envelope, timestamp: Word)
    ensures Within(EopPackets(x, timestamp), 8)
  {
    if x.drawctxt.Some? {
      var first := Event32(CACHE_FLUSH_TS + EVENT_IRQ, x.drawctxt.value.1, x.drawctxt.value.2);
      WithinIf(true, first);
      WithinIf(true, Event32(CACHE_FLUSH_TS, x.ringEop, timestamp));
      WithinThen([first], 4, [Event32(CACHE_FLUSH_TS, x.ringEop, timestamp)], 4);
    } else {
      WithinIf(true, Event32(CACHE_FLUSH_TS + EVENT_IRQ, x.ringEop, timestamp));
    }
  }

  lemma ClosingWithin(x: Envelope, timestamp: Word)
    ensures Within(Closing(x, timestamp), 22)
  {
    var on := if x.notProtected then [Protected(true)] else [];
    var idle := Op(CP_WAIT_FOR_IDLE, [0]);
    WithinIf(x.notProtected, Protected(true));
    WithinIf(true, Flush());
    WithinIf(true, idle);
    WithinIf(x.wfi, idle);
    WithinIf(true, Rollover());
    ProfileWithin(x.after);
    EopWithin(x, timestamp);
    WithinThen(on, 2, [Flush()], 2);
    WithinThen(on + [Flush()], 4, [idle], 2);
    WithinThen(on + [Flush()] + [idle], 6, ProfilePackets(x.after), 3);
    WithinThen(Back(x), 9, EopPackets(x, timestamp), 8);
    WithinThen(Back(x) + EopPackets(x, timestamp), 17, [Rollover()], 3);
    WithinThen(Back(x) + EopPackets(x, timestamp) + [Rollover()], 20, if x.wfi then [idle] else [], 2);
  }

  // ---------------------------------------------------------------- the whole stream

  function Stream(x: Envelope, payload: seq<Word>, timestamp: Word): seq<Word> {
    OpeningWithin(x, timestamp);
    ClosingWithin(x, timestamp);
    EncodeAll(Opening(x, timestamp)) + payload + EncodeAll(Closing(x, timestamp))
  }

  lemma StreamFits(x: Envelope, payload: seq<Word>, timestamp: Word)
    ensures |Stream(x, payload, timestamp)| <= A3XX_SUBMIT_MAX + |payload| - 11
  {
    OpeningWithin(x, timestamp);
    ClosingWithin(x, timestamp);
    EncodedSize(Opening(x, timestamp));
    EncodedSize(Closing(x, timestamp));
  }

  lemma StreamTiles(x: Envelope, payload: seq<Word>, timestamp: Word)
    requires Parse(payload).Some?
    ensures Parse(Stream(x, payload, timestamp)) == Some(Opening(x, timestamp) + Parse(payload).value + Closing(x, timestamp))
  {
    OpeningWithin(x, timestamp);
    ClosingWithin(x, timestamp);
    ParseEncoded(Opening(x, timestamp));
    ParseEncoded(Closing(x, timestamp));
    ParseConcat(EncodeAll(Opening(x, timestamp)), payload);
    ParseConcat(EncodeAll(Opening(x, timestamp)) + payload, EncodeAll(Closing(x, timestamp)));
  }

  /** What the CP does for a submission, given what it does for the payload. */
  function StreamSteps(start: Modes, x: Envelope, payload: seq<Packet>, timestamp: Word): seq<Step> {
    OpeningSteps(start, x, timestamp) + Trace(PayloadModes(start, x), payload) + ClosingSteps(start, x, timestamp)
  }

  lemma PacketsDo(start: Modes, x: Envelope, payload: seq<Packet>, timestamp: Word)
    requires After(PayloadModes(start, x), payload) == PayloadModes(start, x)
    ensures Does(start, Opening(x, timestamp) + payload + Closing(x, timestamp), Final(start, x),
                 StreamSteps(start, x, payload, timestamp))
  {
    var opening, closing, m := Opening(x, timestamp), Closing(x, timestamp), PayloadModes(start, x);
    OpeningDoes(start, x, timestamp);
    ClosingDoes(start, x, timestamp);
    DoesThen(start, opening, m, OpeningSteps(start, x, timestamp), payload, m, Trace(m, payload));
    DoesThen(start, opening + payload, m, OpeningSteps(start, x, timestamp) + Trace(m, payload),
             closing, Final(start, x), ClosingSteps(start, x, timestamp));
  }

  /** For every combination of flags and every payload that is a stream and leaves the modes alone, whatever the modes
    before it, the headers tile the whole stream; start-of-pipe timestamps come before the payload and end-of-pipe
    timestamps after it. Protection is on in the end if the submission switches it off and on itself, or else if it was
    on before and there was no power-on fixup. */
  lemma StreamMeaning(start: Modes, x: Envelope, payload: seq<Word>, timestamp: Word)
    requires Parse(payload).Some? && After(PayloadModes(start, x), Parse(payload).value) == PayloadModes(start, x)
    ensures var all := Parse(Stream(x, payload, timestamp));
            && all == Some(Opening(x, timestamp) + Parse(payload).value + Closing(x, timestamp))
            && Does(start, all.value, Final(start, x),
                    OpeningSteps(start, x, timestamp) + Trace(PayloadModes(start, x), Parse(payload).value)
                    + ClosingSteps(start, x, timestamp))
  {
    StreamTiles(x, payload, timestamp);
    PacketsDo(start, x, Parse(payload).value, timestamp);
  }
}
