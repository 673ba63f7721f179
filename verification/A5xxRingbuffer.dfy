/** The a5xx ringbuffer functions as they run: they fill buffers in place, take ring space, and count timestamps. */
module A5xxRingbuffer {
  import opened Pm4
  import opened CpMachine
  import opened A5xxPackets
  import opened A5xxSubmit
  import opened A5xxTables
  import opened CommandWriting
  import opened RingSpace

  datatype Result = Ok | ENOENT | EPROTO | ENOSPC

  // ---------------------------------------------------------------- the functions that fill cmds

  /** Two packets, one after the other. */
  method EmitBoth(w: CommandWriter, p: Packet, q: Packet)
    requires w.Valid() && Fits(p) && Fits(q) && w.start + w.index + 2 + |p.payload| + |q.payload| <= w.limit
    modifies w, w.cmds
    ensures w.Valid() && w.index == old(w.index) + 2 + |p.payload| + |q.payload|
    ensures w.packets == old(w.packets) + [p] + [q] && w.head == old(w.head)
  {
    w.Emit(p);
    w.Emit(q);
  }

  lemma SevenAfter<T>(s: seq<T>, a: T, b: T, c: T, d: T, e: T, f: T, g: T)
    ensures s + [a] + [b] + [c] + [d] + [e] + [f] + [g] == s + ([a] + [b] + [c] + [d] + [e] + [f] + [g])
  {
  }

  /** a5xx_preemption_pre_ibsubmit. */
  method PreIbsubmitInto(w: CommandWriter, record: Quad, finegrain: bool)
    requires w.Valid() && w.start + w.index + 14 <= w.limit
    modifies w, w.cmds
    ensures w.Valid() && w.index == old(w.index) + 14
    ensures w.packets == old(w.packets) + PreIbsubmit(record, finegrain) && w.head == old(w.head)
  {
    var global := Op(CP_PREEMPT_ENABLE_GLOBAL, [if finegrain then 2 else 0]);
    var lo := Packet(Type4, A5XX_CP_CONTEXT_SWITCH_SAVE_ADDR_LO, [record.lo]);
    var hi := Packet(Type4, A5XX_CP_CONTEXT_SWITCH_SAVE_ADDR_HI, [record.hi]);
    var local := Op(CP_PREEMPT_ENABLE_LOCAL, [if finegrain then 1 else 0]);
    ghost var ps := w.packets;
    EmitBoth(w, global, Protected(false));
    EmitBoth(w, lo, hi);
    EmitBoth(w, Protected(true), local);
    w.Emit(Op(CP_YIELD_ENABLE, [2]));
    SevenAfter(ps, global, Protected(false), lo, hi, Protected(true), local, Op(CP_YIELD_ENABLE, [2]));
  }

  method ProfileInto(w: CommandWriter, at: Option<(Quad, Word)>)
    requires w.Valid() && w.start + w.index + 4 <= w.limit
    modifies w, w.cmds
    ensures w.Valid() && w.index <= old(w.index) + 4
    ensures w.packets == old(w.packets) + ProfilePackets(at) && w.head == old(w.head)
  {
    if at.Some? {
      w.Emit(IbPacket(at.value.0, at.value.1));
    }
  }

  method FrontInto(w: CommandWriter, x: Envelope)
    requires w.Valid() && w.index == 0 && w.packets == [] && w.head == [] && w.start + 20 <= w.limit
    modifies w, w.cmds
    ensures w.Valid() && w.index <= 20 && w.head == []
    ensures w.packets == Front(x)
  {
    w.Emit(Nop(if x.drawctxt.Some? then CMD_IDENTIFIER else CMD_INTERNAL_IDENTIFIER));
    if x.preempt.Some? {
      PreIbsubmitInto(w, x.preempt.value, Finegrain(x));
    }
    ProfileInto(w, x.before);
  }

  method SopInto(w: CommandWriter, x: Envelope, timestamp: Word)
    requires w.Valid() && w.start + w.index + 8 <= w.limit
    modifies w, w.cmds
    ensures w.Valid() && w.index <= old(w.index) + 8 && w.head == old(w.head)
    ensures w.packets
         == old(w.packets)
            + (if x.drawctxt.Some? then [MemWrite(x.drawctxt.value.sop, [x.drawctxt.value.timestamp])] else [])
            + [MemWrite(x.ringSop, [timestamp])]
  {
    if x.drawctxt.Some? {
      w.Emit(MemWrite(x.drawctxt.value.sop, [x.drawctxt.value.timestamp]));
    }
    w.Emit(MemWrite(x.ringSop, [timestamp]));
  }

  /** What addcmds writes before its payload. */
  method OpeningInto(w: CommandWriter, x: Envelope, timestamp: Word)
    requires w.Valid() && w.index == 0 && w.packets == [] && w.head == [] && w.start + 32 <= w.limit
    modifies w, w.cmds
    ensures w.Valid() && w.index <= 32 && w.head == []
    ensures w.packets == Opening(x, timestamp)
  {
    FrontInto(w, x);
    SopInto(w, x, timestamp);
    w.EmitIf(x.secure, Secured(true));
    w.EmitIf(x.notProtected, Protected(false));
  }

  /** The end-of-pipe timestamps: the ring's alone for an internal command, else the context's as well. */
  method EopInto(w: CommandWriter, x: Envelope, timestamp: Word)
    requires w.Valid() && w.start + w.index + 10 <= w.limit
    modifies w, w.cmds
    ensures w.Valid() && w.index <= old(w.index) + 10
    ensures w.packets == old(w.packets) + EopPackets(x, timestamp) && w.head == old(w.head)
  {
    if x.drawctxt.None? {
      w.Emit(EventWrite(CACHE_FLUSH_TS + EVENT_IRQ, x.ringEop, timestamp));
    } else {
      EmitBoth(w, EventWrite(CACHE_FLUSH_TS + EVENT_IRQ, x.drawctxt.value.eop, x.drawctxt.value.timestamp),
               EventWrite(CACHE_FLUSH_TS, x.ringEop, timestamp));
    }
  }

  method AfterInto(w: CommandWriter, x: Envelope)
    requires w.Valid() && w.packets == [] && w.start + w.index + 11 <= w.limit
    modifies w, w.cmds
    ensures w.Valid() && w.index <= old(w.index) + 11 && w.head == old(w.head)
    ensures w.packets
         == (if x.notProtected then [Protected(true)] else [])
            + ProfilePackets(x.after)
            + (if x.waitMemWrites then [Op(CP_WAIT_MEM_WRITES, [])] else [])
            + [MemWrite(x.refWait, [x.sequence])]
  {
    w.EmitIf(x.notProtected, Protected(true));
    ProfileInto(w, x.after);
    w.EmitIf(x.waitMemWrites, Op(CP_WAIT_MEM_WRITES, []));
    w.Emit(MemWrite(x.refWait, [x.sequence]));
  }

  method BackInto(w: CommandWriter, x: Envelope, timestamp: Word)
    requires w.Valid() && w.packets == [] && w.start + w.index + 21 <= w.limit
    modifies w, w.cmds
    ensures w.Valid() && w.index <= old(w.index) + 21
    ensures w.packets == Back(x, timestamp) && w.head == old(w.head)
  {
    AfterInto(w, x);
    EopInto(w, x, timestamp);
  }

  /** ... and after it. */
  method ClosingInto(w: CommandWriter, x: Envelope, timestamp: Word)
    requires w.Valid() && w.packets == [] && w.start + w.index + 29 <= w.limit
    modifies w, w.cmds
    ensures w.Valid() && w.index <= old(w.index) + 29
    ensures w.packets == Closing(x, timestamp) && w.head == old(w.head)
  {
    BackInto(w, x, timestamp);
    w.EmitIf(x.wfi, Op(CP_WAIT_FOR_IDLE, []));
    w.EmitIf(x.secure, Secured(false));
    w.EmitIf(x.preempt.Some?, PostIbsubmit());
  }

  // ---------------------------------------------------------------- the ring

  function Low(v: nat): Word {
    v % 0x1_0000_0000
  }

  function WhereAmI(rptrSlot: Quad): Packet {
    Op(CP_WHERE_AM_I, [rptrSlot.lo, rptrSlot.hi])
  }

  /** What ends a submission outside its stream: without preemption, dwords that make the CP report its read pointer. */
  ghost predicate Ends(x: Envelope, rptrSlot: Quad, tail: seq<Word>) {
    if x.preempt.None? then Asks(rptrSlot, tail) else tail == []
  }

  ghost predicate Asks(rptrSlot: Quad, tail: seq<Word>) {
    exists filler :: Skippable(Type7, filler) && tail == filler + Encode(WhereAmI(rptrSlot))
  }

  method PayloadInto(w: CommandWriter, x: Envelope, payload: seq<Word>, timestamp: Word)
    requires w.Valid() && w.index == 0 && w.packets == [] && w.head == [] && w.start + 32 + |payload| <= w.limit
    modifies w, w.cmds
    ensures w.Valid() && w.index <= 32 + |payload| && AllFit(Opening(x, timestamp))
    ensures w.packets == [] && w.head == EncodeAll(Opening(x, timestamp)) + payload
  {
    OpeningInto(w, x, timestamp);
    assert w.Written() == EncodeAll(w.packets);
    w.Copy(payload);
  }

  /** Everything addcmds writes, into a window with room for it. */
  method StreamInto(buffer: array<Word>, start: nat, limit: nat, x: Envelope, payload: seq<Word>, timestamp: Word)
      returns (index: nat)
    requires start + A5XX_SUBMIT_MAX + |payload| <= limit <= buffer.Length
    modifies buffer
    ensures index == |Stream(x, payload, timestamp)| <= A5XX_SUBMIT_MAX + |payload|
    ensures buffer[..] == Splice(old(buffer[..]), start, Stream(x, payload, timestamp))
  {
    var w := new CommandWriter(buffer, start, limit);
    PayloadInto(w, x, payload, timestamp);
    ClosingInto(w, x, timestamp);
    StreamFits(x, payload, timestamp);
    index := w.index;
  }

  /** How addcmds is called for a context switch: no context, F_NOTPROTECTED and no other flag. */
  predicate Internal(x: Envelope) {
    x.drawctxt.None? && x.notProtected && !x.wfi && !x.secure
  }

  class A5xxRing {
    const ring: Ring
    const rptrSlot: Quad
    const slots: Slots
    var timestamp: Word
    var active: Option<Client> // drawctxt_active

    ghost predicate Valid()
      reads this, ring
    {
      ring.Valid() && ring.kind == Type7
    }

    constructor (rptrSlot: Quad, slots: Slots)
      ensures Valid() && fresh(ring) && fresh(ring.buffer) && ring.Live() == [] && timestamp == 0 && active == None
      ensures this.rptrSlot == rptrSlot && this.slots == slots
    {
      ring := new Ring(Type7);
      this.rptrSlot := rptrSlot;
      this.slots := slots;
      timestamp := 0;
      active := None;
    }

    /** The CP_WHERE_AM_I that makes the CP report its read pointer. */
    method Ask() returns (ok: bool, ghost tail: seq<Word>)
      requires Valid()
      modifies ring, ring.buffer
      ensures Valid() && ring.rptr == old(ring.rptr) && ring.consumed == old(ring.consumed)
      ensures ring.wptr == old(ring.wptr) && ring.published == old(ring.published)
      ensures ok <==> old(ring.HasRoom(3))
      ensures ring.Live() == old(ring.Live()) + tail
      ensures if ok then Asks(rptrSlot, tail) else tail == []
    {
      var at, filler := ring.AllocSpace(3);
      if at == None {
        assert ring.Live() == old(ring.Live());
        return false, [];
      }
      ghost var before := ring.buffer[..];
      CopyTo(ring.buffer, at.value, Encode(WhereAmI(rptrSlot)));
      SpliceBetween(before, ring.rptr, at.value, Encode(WhereAmI(rptrSlot)));
      Regroup(old(ring.Live()), filler, Encode(WhereAmI(rptrSlot)));
      ok, tail := true, filler + Encode(WhereAmI(rptrSlot));
    }

    /** a5xx_ringbuffer_submit up to the publication; PreemptDriver models what it does to the register. */
    method Submit(sync: bool) returns (ok: bool, ghost tail: seq<Word>)
      requires Valid()
      modifies ring, ring.buffer
      ensures Valid() && ring.rptr == old(ring.rptr) && ring.consumed == old(ring.consumed)
      ensures ring.Live() == old(ring.Live()) + tail
      ensures ok <==> !sync || old(ring.HasRoom(3))
      ensures if ok then ring.wptr == ring.next && ring.published == ring.given else ring.wptr == old(ring.wptr)
      ensures if ok && sync then Asks(rptrSlot, tail) else tail == []
    {
      ok, tail := true, [];
      if sync {
        ok, tail := Ask();
      }
      if ok {
        ring.Publish();
      }
    }

    /** The run taken for a submission is filled, and cut back to the stream it holds; what is given back holds at least
      the three dwords of a CP_WHERE_AM_I. */
    method Fill(x: Envelope, payload: seq<Word>, at: nat)
      requires Valid() && at + A5XX_SUBMIT_MAX + |payload| == ring.next
      requires ring.rptr <= at || ring.next < ring.rptr
      requires ring.published + A5XX_SUBMIT_MAX + |payload| <= ring.given
      modifies ring, ring.buffer
      ensures Valid() && ring.rptr == old(ring.rptr) && ring.wptr == old(ring.wptr) && ring.HasRoom(3)
      ensures ring.Live() == old(Between(ring.buffer[..], ring.rptr, at)) + Stream(x, payload, timestamp)
    {
      ghost var before := ring.buffer[..];
      var index := FillRun(x, payload, at);
      SpliceBetween(before, ring.rptr, at, Stream(x, payload, timestamp));
      ring.GiveBack(A5XX_SUBMIT_MAX + |payload| - index);
    }

    method FillRun(x: Envelope, payload: seq<Word>, at: nat) returns (index: nat)
      requires ring.Valid() && at + A5XX_SUBMIT_MAX + |payload| <= ring.buffer.Length
      modifies ring.buffer
      ensures index == |Stream(x, payload, timestamp)| <= A5XX_SUBMIT_MAX + |payload| - 3
      ensures ring.buffer[..] == Splice(old(ring.buffer[..]), at, Stream(x, payload, timestamp))
    {
      StreamFits(x, payload, timestamp);
      index := StreamInto(ring.buffer, at, at + A5XX_SUBMIT_MAX + |payload|, x, payload, timestamp);
    }

    /** Take room for a submission and fill it. */
    method Place(x: Envelope, payload: seq<Word>) returns (ok: bool, ghost filler: seq<Word>)
      requires Valid()
      modifies ring, ring.buffer
      ensures Valid() && ring.rptr == old(ring.rptr) && ring.wptr == old(ring.wptr) && Skippable(Type7, filler)
      ensures ok <==> old(ring.HasRoom(A5XX_SUBMIT_MAX + |payload|))
      ensures ok ==> ring.HasRoom(3)
      ensures ring.Live() == old(ring.Live()) + (if ok then filler + Stream(x, payload, timestamp) else [])
    {
      var at;
      at, filler := ring.AllocSpace(A5XX_SUBMIT_MAX + |payload|);
      ok := at != None;
      if ok {
        Fill(x, payload, at.value);
        Regroup(old(ring.Live()), filler, Stream(x, payload, timestamp));
      } else {
        assert ring.Live() == old(ring.Live());
      }
    }

    /** What follows once the stream is placed. Meanwhile the CP reads on by as many as `ahead` dwords; the three dwords of
      the CP_WHERE_AM_I still find room. */
    method PublishPlaced(sync: bool, ahead: nat) returns (ghost gone: seq<Word>, ghost tail: seq<Word>)
      requires Valid() && ring.HasRoom(3)
      modifies ring, ring.buffer
      ensures Valid() && gone + ring.Live() == old(ring.Live()) + tail
      ensures ring.wptr == ring.next && ring.published == ring.given
      ensures if sync then Asks(rptrSlot, tail) else tail == []
    {
      gone := ring.CpReads(ahead);
      ghost var live := ring.Live();
      var ok;
      ok, tail := Submit(sync);
      Regroup(gone, live, tail);
    }

    /** a5xx_ringbuffer_addcmds. The timestamp counts even a submission for which there is no room. Whatever was made is
      published: the result of the final a5xx_ringbuffer_submit, which addcmds does not look at, is never an error. */
    method AddCmds(x: Envelope, payload: seq<Word>, detached: bool, fault: bool, ahead: nat)
        returns (r: Result, ghost gone: seq<Word>, ghost filler: seq<Word>, ghost tail: seq<Word>)
      requires Valid()
      modifies this`timestamp, ring, ring.buffer
      ensures Valid() && Skippable(Type7, filler)
      ensures r == ENOENT <==> detached
      ensures r == EPROTO <==> !detached && fault
      ensures r == ENOSPC <==> !detached && !fault && !old(ring.HasRoom(A5XX_SUBMIT_MAX + |payload|))
      ensures timestamp == if detached || fault then old(timestamp) else Low(old(timestamp) + 1)
      ensures r != Ok ==> gone == [] && ring.Live() == old(ring.Live()) && ring.wptr == old(ring.wptr)
      ensures r == Ok ==>
                && gone + ring.Live() == old(ring.Live()) + (filler + Stream(x, payload, timestamp)) + tail
                && Ends(x, rptrSlot, tail)
                && ring.wptr == ring.next && ring.published == ring.given
    {
      gone, filler, tail := [], [], [];
      if detached {
        return ENOENT, [], [], [];
      }
      if fault {
        return EPROTO, [], [], [];
      }
      timestamp := Low(timestamp + 1);
      var ok;
      ok, filler := Place(x, payload);
      if !ok {
        return ENOSPC, [], filler, [];
      }
      gone, tail := PublishPlaced(x.preempt.None?, ahead);
      r := Ok;
    }

    /** There is room for a context switch. */
    ghost predicate SwitchRoom(c: Client)
      requires Valid()
      reads this, ring
    {
      SwitchToWithin(active, c, slots);
      ring.HasRoom(A5XX_SUBMIT_MAX + Size(SwitchTo(active, c, slots)))
    }

    /** a5xx_rb_context_switch. */
    method ContextSwitchNow(c: Client, x: Envelope, fault: bool, ahead: nat)
        returns (r: Result, ghost gone: seq<Word>, ghost filler: seq<Word>, ghost tail: seq<Word>)
      requires Valid() && Internal(x)
      modifies this`timestamp, ring, ring.buffer
      ensures Valid() && Skippable(Type7, filler) && AllFit(SwitchTo(active, c, slots))
      ensures r == Ok <==> !fault && old(SwitchRoom(c))
      ensures r != Ok ==> gone == [] && ring.Live() == old(ring.Live()) && ring.wptr == old(ring.wptr)
      ensures r == Ok ==>
                && gone + ring.Live()
                   == old(ring.Live()) + (filler + Stream(x, EncodeAll(SwitchTo(active, c, slots)), timestamp)) + tail
                && Ends(x, rptrSlot, tail)
                && ring.wptr == ring.next && ring.published == ring.given
    {
      SwitchToWithin(active, c, slots);
      EncodedSize(SwitchTo(active, c, slots));
      r, gone, filler, tail := AddCmds(x, EncodeAll(SwitchTo(active, c, slots)), false, fault, ahead);
    }

    /** a5xx_drawctxt_switch. The outcome of the context switch is not looked at: without room, or after a fault, the
      context counts as active although nothing was emitted. */
    method DrawctxtSwitch(c: Client, x: Envelope, detached: bool, fault: bool, ahead: nat)
        returns (r: Result, ghost switched: bool, ghost gone: seq<Word>, ghost filler: seq<Word>, ghost tail: seq<Word>)
      requires Valid() && Internal(x)
      modifies this, ring, ring.buffer
      ensures Valid() && Skippable(Type7, filler) && AllFit(SwitchTo(old(active), c, slots))
      ensures r == if old(active) != Some(c) && detached then ENOENT else Ok
      ensures active == if r == Ok then Some(c) else old(active)
      ensures switched <==> r == Ok && old(active) != Some(c) && !fault && old(SwitchRoom(c))
      ensures !switched ==> gone == [] && ring.Live() == old(ring.Live()) && ring.wptr == old(ring.wptr)
      ensures switched ==>
                && gone + ring.Live()
                   == old(ring.Live()) + (filler + Stream(x, EncodeAll(SwitchTo(old(active), c, slots)), timestamp)) + tail
                && Ends(x, rptrSlot, tail)
                && ring.wptr == ring.next && ring.published == ring.given
    {
      SwitchToWithin(active, c, slots);
      r, switched, gone, filler, tail := Ok, false, [], [], [];
      if active == Some(c) {
        return;
      }
      if detached {
        r := ENOENT;
        return;
      }
      var ignored;
      ignored, gone, filler, tail := ContextSwitchNow(c, x, fault, ahead);
      switched := ignored == Ok;
      active := Some(c);
    }
  }

  /** For one: after a fault, a new ring reports success and counts the context as active, and holds nothing for the CP. */
  method FaultedSwitch(c: Client, x: Envelope, rptrSlot: Quad, slots: Slots)
      returns (r: Result, active: Option<Client>, ghost live: seq<Word>)
    requires Internal(x)
    ensures r == Ok && active == Some(c) && live == []
  {
    var rb := new A5xxRing(rptrSlot, slots);
    ghost var switched, gone, filler, tail;
    r, switched, gone, filler, tail := rb.DrawctxtSwitch(c, x, false, true, 0);
    active, live := rb.active, rb.ring.Live();
  }

  // ---------------------------------------------------------------- a user submission

  /** The slots of profile_desc, four dwords each, and where the next sample goes. */
  class ProfileSlots {
    const words: array<Word>
    const addresses: seq<Quad>
    var next: nat

    ghost predicate Valid()
      reads this
    {
      |addresses| > 1 && words.Length == 4 * |addresses| && next < |addresses|
    }

    constructor (addresses: seq<Quad>)
      requires |addresses| > 1
      ensures Valid() && fresh(words) && this.addresses == addresses
    {
      words := new Word[4 * |addresses|](_ => 0);
      this.addresses := addresses;
      next := 0;
    }

    ghost function Slot(k: nat): seq<Word>
      requires Valid() && k < |addresses|
      reads this, words
    {
      Four(words[..], k)
    }

    /** a5xx_get_user_profiling_ib, its own dwords apart: fill the next slot. */
    method Take(target: Quad, wide: bool) returns (k: nat)
      requires Valid()
      modifies this`next, words
      ensures Valid() && k == old(next) && next == (k + 1) % |addresses|
      ensures Slot(k) == Encode(CounterPacket(target, wide))
      ensures forall j :: 0 <= j < |addresses| && j != k ==> Slot(j) == old(Slot(j))
    {
      k := next;
      ghost var before := words[..];
      CopyTo(words, 4 * k, Encode(CounterPacket(target, wide)));
      Spliced(before, k, Encode(CounterPacket(target, wide)), |addresses|);
      next := (next + 1) % |addresses|;
    }
  }

  function Four(words: seq<Word>, k: nat): seq<Word>
    requires 4 * k + 4 <= |words|
  {
    words[4 * k..4 * k + 4]
  }

  lemma SplicedHere(words: seq<Word>, k: nat, d: seq<Word>)
    requires |d| == 4 && 4 * k + 4 <= |words|
    ensures Four(Splice(words, 4 * k, d), k) == d
  {
  }

  lemma SplicedThere(words: seq<Word>, at: nat, d: seq<Word>, from: nat)
    requires |d| == 4 && at + 4 <= |words| && from + 4 <= |words| && (from + 4 <= at || at + 4 <= from)
    ensures Splice(words, at, d)[from..from + 4] == words[from..from + 4]
  {
  }

  lemma Spliced(words: seq<Word>, k: nat, d: seq<Word>, n: nat)
    requires |d| == 4 && k < n && |words| == 4 * n
    ensures Four(Splice(words, 4 * k, d), k) == d
    ensures forall j :: 0 <= j < n && j != k ==> Four(Splice(words, 4 * k, d), j) == Four(words, j)
  {
    SplicedHere(words, k, d);
    forall j | 0 <= j < n && j != k ensures Four(Splice(words, 4 * k, d), j) == Four(words, j) {
      SplicedThere(words, 4 * k, d, 4 * j);
    }
  }

  /** a5xx_ringbuffer_submitcmd up to the context switch, in a buffer of just the size the driver allocates. */
  method CommandInto(cmds: array<Word>, c: Command) returns (index: nat)
    requires cmds.Length == A5XX_COMMAND_DWORDS + 5 * |Entries(c)|
    modifies cmds
    ensures index <= cmds.Length && AllFit(CommandPackets(c))
    ensures cmds[..index] == EncodeAll(CommandPackets(c))
  {
    var w := new CommandWriter(cmds, 0, cmds.Length);
    StartedInto(w, c);
    EntriesInto(w, Entries(c), c.preamble);
    RetiredInto(w, c);
    index := w.index;
  }

  lemma EntriesNext(ps: seq<Packet>, ibs: seq<Ib>, i: nat, preamble: bool)
    requires i < |ibs|
    ensures ps + EntryPackets(ibs[..i + 1], preamble)
         == ps + EntryPackets(ibs[..i], preamble) + [EntryPacket(ibs[i], preamble)]
  {
    assert ibs[..i + 1][..i] == ibs[..i];
    Regroup(ps, EntryPackets(ibs[..i], preamble), [EntryPacket(ibs[i], preamble)]);
  }

  method EntriesInto(w: CommandWriter, ibs: seq<Ib>, preamble: bool)
    requires w.Valid() && w.start + w.index + 5 * |ibs| <= w.limit
    modifies w, w.cmds
    ensures w.Valid() && w.index <= old(w.index) + 5 * |ibs| && w.head == old(w.head)
    ensures w.packets == old(w.packets) + EntryPackets(ibs, preamble)
  {
    var i := 0;
    while i < |ibs|
      invariant i <= |ibs| && w.Valid() && w.head == old(w.head) && w.index <= old(w.index) + 5 * i
      invariant w.packets == old(w.packets) + EntryPackets(ibs[..i], preamble)
    {
      EntryFits(ibs[i], preamble);
      w.Emit(EntryPacket(ibs[i], preamble));
      EntriesNext(old(w.packets), ibs, i, preamble);
      i := i + 1;
    }
    assert ibs[..i] == ibs;
  }

  method StartedInto(w: CommandWriter, c: Command)
    requires w.Valid() && w.index == 0 && w.head == [] && w.packets == [] && w.start + 10 <= w.limit
    modifies w, w.cmds
    ensures w.Valid() && w.index <= 10 && w.head == [] && w.packets == Started(c)
  {
    w.Emit(Nop(START_IB_IDENTIFIER));
    if c.kernel.Some? {
      w.Emit(CounterPacket(c.kernel.value.0, c.wide));
    }
    if c.user.Some? {
      w.Emit(IbPacket(c.user.value.0, 4));
    }
  }

  lemma ThreeAfter<T>(s: seq<T>, a: seq<T>, b: seq<T>, c: seq<T>)
    ensures s + a + b + c == s + (a + b + c)
  {
  }

  method FinishingInto(w: CommandWriter, c: Command)
    requires w.Valid() && w.start + w.index + 12 <= w.limit
    modifies w, w.cmds
    ensures w.Valid() && w.index <= old(w.index) + 12 && w.head == old(w.head)
    ensures w.packets == old(w.packets) + Finishing(c)
  {
    ghost var ps := w.packets;
    var mode, enable := Op(CP_SET_RENDER_MODE, [0, 0, 0, 0, 0]), Op(CP_YIELD_ENABLE, [1]);
    EmitBoth(w, mode, enable);
    if c.kernel.Some? {
      w.Emit(CounterPacket(c.kernel.value.1, c.wide));
    }
    ThreeAfter(ps, [mode], [enable], if c.kernel.Some? then [CounterPacket(c.kernel.value.1, c.wide)] else []);
  }

  method RetiredInto(w: CommandWriter, c: Command)
    requires w.Valid() && w.start + w.index + 18 <= w.limit
    modifies w, w.cmds
    ensures w.Valid() && w.index <= old(w.index) + 18 && w.head == old(w.head)
    ensures w.packets == old(w.packets) + Retired(c)
  {
    ghost var ps := w.packets;
    FinishingInto(w, c);
    if c.user.Some? {
      w.Emit(IbPacket(c.user.value.1, 4));
    }
    w.Emit(Nop(END_IB_IDENTIFIER));
    ThreeAfter(ps, Finishing(c), if c.user.Some? then [IbPacket(c.user.value.1, 4)] else [], [Nop(END_IB_IDENTIFIER)]);
  }

  // ---------------------------------------------------------------- what the CP reads

  function ReportSteps(x: Envelope, rptrSlot: Quad): seq<Step> {
    if x.preempt.None? then [Step(Report(rptrSlot), KERNEL)] else []
  }

  lemma ReportPerforms(rptrSlot: Quad)
    ensures Performs(KERNEL, Encode(WhereAmI(rptrSlot)), KERNEL, [Step(Report(rptrSlot), KERNEL)])
  {
    ParseSingle(WhereAmI(rptrSlot));
    DoesOne(KERNEL, WhereAmI(rptrSlot), Report(rptrSlot));
  }

  /** What a filler and some dwords behind it make the CP do. */
  lemma FilledPerforms(filler: seq<Word>, dwords: seq<Word>, steps: seq<Step>)
    requires Skippable(Type7, filler) && Performs(KERNEL, dwords, KERNEL, steps)
    ensures Performs(KERNEL, filler + dwords, KERNEL, steps)
  {
    SkippableParses(Type7, filler, KERNEL);
    PerformsThen(KERNEL, filler, KERNEL, [], dwords, KERNEL, steps);
    assert [] + steps == steps;
  }

  lemma EndsPerform(x: Envelope, rptrSlot: Quad, tail: seq<Word>)
    requires Ends(x, rptrSlot, tail)
    ensures Performs(KERNEL, tail, KERNEL, ReportSteps(x, rptrSlot))
  {
    if x.preempt.None? {
      var filler :| Skippable(Type7, filler) && tail == filler + Encode(WhereAmI(rptrSlot));
      ReportPerforms(rptrSlot);
      FilledPerforms(filler, Encode(WhereAmI(rptrSlot)), ReportSteps(x, rptrSlot));
    } else {
      DoesNothing(KERNEL);
    }
  }

  lemma PlacedPerforms(filler: seq<Word>, x: Envelope, payload: seq<Word>, timestamp: Word)
    requires Skippable(Type7, filler) && Parse(payload).Some? && Neutral(x, Parse(payload).value)
    ensures Performs(KERNEL, filler + Stream(x, payload, timestamp), KERNEL, StreamSteps(x, Parse(payload).value, timestamp))
  {
    StreamMeaning(x, payload, timestamp);
    FilledPerforms(filler, Stream(x, payload, timestamp), StreamSteps(x, Parse(payload).value, timestamp));
  }

  /** After AddCmds the CP reads what it had to read before, then the submission, then the request for its read pointer if
    there is one, and nothing for what fills the ring up. */
  lemma LiveMeaning(before: seq<Word>, steps: seq<Step>, filler: seq<Word>, x: Envelope, payload: seq<Word>, timestamp: Word,
                    rptrSlot: Quad, tail: seq<Word>)
    requires Performs(KERNEL, before, KERNEL, steps)
    requires Skippable(Type7, filler) && Parse(payload).Some? && Neutral(x, Parse(payload).value) && Ends(x, rptrSlot, tail)
    ensures Performs(KERNEL, before + (filler + Stream(x, payload, timestamp)) + tail, KERNEL,
                     steps + StreamSteps(x, Parse(payload).value, timestamp) + ReportSteps(x, rptrSlot))
  {
    var submission := StreamSteps(x, Parse(payload).value, timestamp);
    PlacedPerforms(filler, x, payload, timestamp);
    EndsPerform(x, rptrSlot, tail);
    PerformsThen(KERNEL, before, KERNEL, steps, filler + Stream(x, payload, timestamp), KERNEL, submission);
    PerformsThen(KERNEL, before + (filler + Stream(x, payload, timestamp)), KERNEL, steps + submission,
                 tail, KERNEL, ReportSteps(x, rptrSlot));
  }

  // ---------------------------------------------------------------- timestamps

  /** The ring's counter after some calls: every call counts that gets as far as asking for room. */
  function Counted(t: Word, results: seq<Result>): Word {
    if results == [] then t
    else
      var last, before := results[|results| - 1], Counted(t, results[..|results| - 1]);
      if last == Ok || last == ENOSPC then Low(before + 1) else before
  }

  /** The numbers of those that found it. */
  function Stamped(t: Word, results: seq<Result>): seq<Word> {
    if results == [] then []
    else Stamped(t, results[..|results| - 1]) + (if results[|results| - 1] == Ok then [Counted(t, results)] else [])
  }

  lemma {:induction false} CountedBound(t: Word, results: seq<Result>)
    requires t + |results| < 0x1_0000_0000
    ensures t <= Counted(t, results) <= t + |results|
  {
    if results != [] {
      CountedBound(t, results[..|results| - 1]);
    }
  }

  lemma {:induction false} StampBound(t: Word, results: seq<Result>, k: nat)
    requires t + |results| < 0x1_0000_0000 && k < |Stamped(t, results)|
    ensures t < Stamped(t, results)[k] <= Counted(t, results)
  {
    var before := results[..|results| - 1];
    CountedBound(t, before);
    if k < |Stamped(t, before)| {
      StampBound(t, before, k);
    }
  }

  /** Until the 32-bit counter wraps they strictly increase. */
  lemma {:induction false} StampsIncrease(t: Word, results: seq<Result>, i: nat, j: nat)
    requires t + |results| < 0x1_0000_0000 && i < j < |Stamped(t, results)|
    ensures Stamped(t, results)[i] < Stamped(t, results)[j]
  {
    var before := results[..|results| - 1];
    if j < |Stamped(t, before)| {
      StampsIncrease(t, before, i, j);
    } else {
      StampBound(t, before, i);
      CountedBound(t, before);
    }
  }

  /** One call of addcmds, and how far the CP gets during it and after it. */
  datatype Call = Call(x: Envelope, payload: seq<Word>, detached: bool, fault: bool, ahead: nat, behind: nat)

  /** The payload is a stream that leaves the modes to the envelope, and only the envelope stamps the ring's slot. */
  predicate Proper(c: Call, eop: Quad) {
    && c.x.ringEop == eop && OwnSlots(c.x)
    && Parse(c.payload).Some? && Neutral(c.x, Parse(c.payload).value)
    && StampsAt(eop, Trace(PayloadModes(c.x), Parse(c.payload).value)) == []
  }

  lemma NeutralIf(x: Envelope, ps: seq<Packet>)
    requires Without(CP_SET_PROTECTED_MODE, ps) && Without(CP_SET_SECURE_MODE, ps) && Without(CP_EVENT_WRITE, ps) && AllFit(ps)
    ensures Parse(EncodeAll(ps)) == Some(ps) && Neutral(x, ps) && StampsAt(x.ringEop, Trace(PayloadModes(x), ps)) == []
  {
    ParseEncoded(ps);
    SteadyTrace(PayloadModes(x), ps);
    StampsNothing(x.ringEop, PayloadModes(x), ps);
  }

  /** Both payloads the driver gives addcmds are of that kind. */
  lemma CommandProper(c: Command, call: Call)
    requires AllFit(CommandPackets(c)) && call.payload == EncodeAll(CommandPackets(c)) && OwnSlots(call.x)
    ensures Proper(call, call.x.ringEop)
  {
    CommandWithout(CP_SET_PROTECTED_MODE, c);
    CommandWithout(CP_SET_SECURE_MODE, c);
    CommandWithout(CP_EVENT_WRITE, c);
    NeutralIf(call.x, CommandPackets(c));
  }

  lemma SwitchProper(active: Option<Client>, c: Client, slots: Slots, call: Call)
    requires AllFit(SwitchTo(active, c, slots)) && call.payload == EncodeAll(SwitchTo(active, c, slots)) && OwnSlots(call.x)
    ensures Proper(call, call.x.ringEop)
  {
    SwitchToWithout(CP_SET_PROTECTED_MODE, active, c, slots);
    SwitchToWithout(CP_SET_SECURE_MODE, active, c, slots);
    SwitchToWithout(CP_EVENT_WRITE, active, c, slots);
    NeutralIf(call.x, SwitchTo(active, c, slots));
  }

  /** A call's steps stamp its number behind those before it. */
  lemma CallStamps(c: Call, steps: seq<Step>, timestamp: Word, rptrSlot: Quad)
    requires Proper(c, c.x.ringEop)
    ensures StampsAt(c.x.ringEop, steps + StreamSteps(c.x, Parse(c.payload).value, timestamp) + ReportSteps(c.x, rptrSlot))
         == StampsAt(c.x.ringEop, steps) + [timestamp]
  {
    var submission := StreamSteps(c.x, Parse(c.payload).value, timestamp);
    StreamStamps(c.x, Parse(c.payload).value, timestamp);
    StampsConcat(c.x.ringEop, steps, submission);
    StampsConcat(c.x.ringEop, steps + submission, ReportSteps(c.x, rptrSlot));
  }

  lemma ResultsNext(t: Word, results: seq<Result>, r: Result)
    ensures Counted(t, results + [r])
         == if r == Ok || r == ENOSPC then Low(Counted(t, results) + 1) else Counted(t, results)
    ensures Stamped(t, results + [r]) == Stamped(t, results) + (if r == Ok then [Counted(t, results + [r])] else [])
  {
    assert (results + [r])[..|results|] == results;
  }

  lemma Further<T>(gone: seq<T>, live: seq<T>, before: seq<T>, all: seq<T>, gone': seq<T>, live': seq<T>, more: seq<T>)
    requires gone + live == before + all && gone' + live' == live + more
    ensures (gone + gone') + live' == before + (all + more)
  {
    Regroup(gone, gone', live');
    Regroup(gone, live, more);
    Regroup(before, all, more);
  }

  /** One call, and how it adds to what the calls before it had the CP do. */
  method AddNext(rb: A5xxRing, c: Call, ghost all: seq<Word>, ghost steps: seq<Step>)
      returns (r: Result, ghost gone: seq<Word>, ghost more: seq<Word>, ghost steps': seq<Step>)
    requires rb.Valid() && Proper(c, c.x.ringEop) && Performs(KERNEL, all, KERNEL, steps)
    modifies rb`timestamp, rb.ring, rb.ring.buffer
    ensures rb.Valid() && gone + rb.ring.Live() == old(rb.ring.Live()) + more
    ensures rb.timestamp == if r == Ok || r == ENOSPC then Low(old(rb.timestamp) + 1) else old(rb.timestamp)
    ensures Performs(KERNEL, all + more, KERNEL, steps')
    ensures StampsAt(c.x.ringEop, steps') == StampsAt(c.x.ringEop, steps) + (if r == Ok then [rb.timestamp] else [])
  {
    ghost var filler, tail;
    r, gone, filler, tail := rb.AddCmds(c.x, c.payload, c.detached, c.fault, c.ahead);
    if r == Ok {
      var placed := filler + Stream(c.x, c.payload, rb.timestamp);
      more := placed + tail;
      LiveMeaning(all, steps, filler, c.x, c.payload, rb.timestamp, rb.rptrSlot, tail);
      steps' := steps + StreamSteps(c.x, Parse(c.payload).value, rb.timestamp) + ReportSteps(c.x, rb.rptrSlot);
      CallStamps(c, steps, rb.timestamp, rb.rptrSlot);
      Regroup(all, placed, tail);
      Regroup(old(rb.ring.Live()), placed, tail);
    } else {
      more, steps' := [], steps;
      assert all + [] == all;
    }
  }

  /** ... with what the CP reads after it. */
  method AddThenRead(rb: A5xxRing, c: Call, ghost all: seq<Word>, ghost steps: seq<Step>)
      returns (r: Result, ghost gone: seq<Word>, ghost more: seq<Word>, ghost steps': seq<Step>)
    requires rb.Valid() && Proper(c, c.x.ringEop) && Performs(KERNEL, all, KERNEL, steps)
    modifies rb`timestamp, rb.ring, rb.ring.buffer
    ensures rb.Valid() && gone + rb.ring.Live() == old(rb.ring.Live()) + more
    ensures rb.timestamp == if r == Ok || r == ENOSPC then Low(old(rb.timestamp) + 1) else old(rb.timestamp)
    ensures Performs(KERNEL, all + more, KERNEL, steps')
    ensures StampsAt(c.x.ringEop, steps') == StampsAt(c.x.ringEop, steps) + (if r == Ok then [rb.timestamp] else [])
  {
    r, gone, more, steps' := AddNext(rb, c, all, steps);
    ghost var passed := rb.ring.CpReads(c.behind);
    Regroup(gone, passed, rb.ring.Live());
    gone := gone + passed;
  }

  /** ... and on to what all of them together have given the CP, stamped and had it read. */
  method AddOneMore(rb: A5xxRing, c: Call, ghost first: seq<Word>, ghost t: Word, ghost results: seq<Result>,
                    ghost gone: seq<Word>, ghost all: seq<Word>, ghost steps: seq<Step>)
      returns (r: Result, ghost gone': seq<Word>, ghost all': seq<Word>, ghost steps': seq<Step>)
    requires rb.Valid() && Proper(c, c.x.ringEop) && Performs(KERNEL, all, KERNEL, steps)
    requires gone + rb.ring.Live() == first + all && rb.timestamp == Counted(t, results)
    requires StampsAt(c.x.ringEop, steps) == Stamped(t, results)
    modifies rb`timestamp, rb.ring, rb.ring.buffer
    ensures rb.Valid() && Performs(KERNEL, all', KERNEL, steps')
    ensures gone' + rb.ring.Live() == first + all' && rb.timestamp == Counted(t, results + [r])
    ensures StampsAt(c.x.ringEop, steps') == Stamped(t, results + [r])
  {
    ghost var live, passed, more := rb.ring.Live(), [], [];
    r, passed, more, steps' := AddThenRead(rb, c, all, steps);
    Further(gone, live, first, all, passed, rb.ring.Live(), more);
    ResultsNext(t, results, r);
    gone', all' := gone + passed, all + more;
  }

  /** Any run of calls of addcmds, the CP reading on as it likes. All that was given to the CP is one stream, and what that
    stream stamps in the ring's end-of-pipe slot, in the order in which the CP comes to it, are the numbers above. */
  method AddAll(rb: A5xxRing, calls: seq<Call>, ghost eop: Quad)
      returns (results: seq<Result>, ghost gone: seq<Word>, ghost all: seq<Word>, ghost steps: seq<Step>)
    requires rb.Valid() && forall k :: 0 <= k < |calls| ==> Proper(calls[k], eop)
    modifies rb`timestamp, rb.ring, rb.ring.buffer
    ensures rb.Valid() && |results| == |calls|
    ensures gone + rb.ring.Live() == old(rb.ring.Live()) + all
    ensures Performs(KERNEL, all, KERNEL, steps)
    ensures rb.timestamp == Counted(old(rb.timestamp), results)
    ensures StampsAt(eop, steps) == Stamped(old(rb.timestamp), results)
  {
    results, gone, all, steps := [], [], [], [];
    ghost var first, t := rb.ring.Live(), rb.timestamp;
    DoesNothing(KERNEL);
    while |results| < |calls|
      invariant rb.Valid() && |results| <= |calls|
      invariant gone + rb.ring.Live() == first + all
      invariant Performs(KERNEL, all, KERNEL, steps)
      invariant rb.timestamp == Counted(t, results)
      invariant StampsAt(eop, steps) == Stamped(t, results)
    {
      var r;
      r, gone, all, steps := AddOneMore(rb, calls[|results|], first, t, results, gone, all, steps);
      results := results + [r];
    }
  }
}
