/** The a3xx ringbuffer functions as they run: they fill buffers in place, take ring space, publish and count timestamps. */
module A3xxRingbuffer {
  import opened Pm4
  import opened CpMachine
  import opened A3xxPackets
  import opened A3xxSubmit
  import opened CommandWriting
  import opened RingSpace
  import A5xxPackets

  datatype Result = Ok | ENOENT | EPROTO | ENOSPC

  // ---------------------------------------------------------------- a user submission

  lemma EntriesNext(ps: seq<Packet>, ibs: seq<Ib>, i: nat, preamble: bool)
    requires A5xxPackets.Verified(ibs) && i < |ibs|
    ensures ps + EntryPackets(ibs[..i + 1], preamble)
         == ps + EntryPackets(ibs[..i], preamble) + [EntryPacket(ibs[i], preamble)]
  {
    assert ibs[..i + 1][..i] == ibs[..i];
    Regroup(ps, EntryPackets(ibs[..i], preamble), [EntryPacket(ibs[i], preamble)]);
  }

  method EntriesInto(w: CommandWriter, ibs: seq<Ib>, preamble: bool)
    requires A5xxPackets.Verified(ibs) && w.Valid() && w.start + w.index + 4 * |ibs| <= w.limit
    modifies w, w.cmds
    ensures w.Valid() && w.index <= old(w.index) + 4 * |ibs| && w.head == old(w.head)
    ensures w.packets == old(w.packets) + EntryPackets(ibs, preamble)
  {
    var i := 0;
    while i < |ibs|
      invariant i <= |ibs| && w.Valid() && w.head == old(w.head) && w.index <= old(w.index) + 4 * i
      invariant w.packets == old(w.packets) + EntryPackets(ibs[..i], preamble)
    {
      EntrySize(ibs[i], preamble);
      w.Emit(EntryPacket(ibs[i], preamble));
      EntriesNext(old(w.packets), ibs, i, preamble);
      i := i + 1;
    }
    assert ibs[..i] == ibs;
  }

  /** a3xx_ringbuffer_submitcmd up to the context switch, in a buffer of just the size the driver allocates. */
  method CommandInto(cmds: array<Word>, ibs: seq<Ib>, skip: bool, preamble: bool) returns (index: nat)
    requires A5xxPackets.Verified(ibs)
    requires cmds.Length == A3XX_COMMAND_DWORDS + 4 * (if skip then 0 else |ibs|)
    modifies cmds
    ensures index <= cmds.Length && AllFit(CommandPackets(ibs, skip, preamble))
    ensures cmds[..index] == EncodeAll(CommandPackets(ibs, skip, preamble))
  {
    var w := new CommandWriter(cmds, 0, cmds.Length);
    w.Emit(Nop(A5xxPackets.START_IB_IDENTIFIER));
    EntriesInto(w, if skip then [] else ibs, preamble);
    w.Emit(Nop(A5xxPackets.END_IB_IDENTIFIER));
    index := w.index;
  }

  // ---------------------------------------------------------------- the envelope

  method FixupInto(w: CommandWriter, at: Option<(Word, Word)>)
    requires w.Valid() && w.start + w.index + 9 <= w.limit
    modifies w, w.cmds
    ensures w.Valid() && w.index <= old(w.index) + 9 && w.head == old(w.head)
    ensures w.packets == old(w.packets) + FixupPackets(at)
  {
    if at.Some? {
      w.Emit(Protected(false));
      w.Emit(Nop(PWRON_FIXUP_IDENTIFIER));
      w.Emit(IbPacket(at.value.0, at.value.1));
      w.Emit(Protected(false));
    }
  }

  method ProfileInto(w: CommandWriter, at: Option<(Word, Word)>)
    requires w.Valid() && w.start + w.index + 3 <= w.limit
    modifies w, w.cmds
    ensures w.Valid() && w.index <= old(w.index) + 3 && w.head == old(w.head)
    ensures w.packets == old(w.packets) + ProfilePackets(at)
  {
    if at.Some? {
      w.Emit(IbPacket(at.value.0, at.value.1));
    }
  }

  method FrontInto(w: CommandWriter, x: Envelope)
    requires w.Valid() && w.index == 0 && w.packets == [] && w.head == [] && w.start + 14 <= w.limit
    modifies w, w.cmds
    ensures w.Valid() && w.index <= 14 && w.head == [] && w.packets == Front(x)
  {
    w.Emit(Nop(if x.drawctxt.Some? then A5xxPackets.CMD_IDENTIFIER else A5xxPackets.CMD_INTERNAL_IDENTIFIER));
    FixupInto(w, x.fixup);
    ProfileInto(w, x.before);
  }

  method SopInto(w: CommandWriter, x: Envelope, timestamp: Word)
    requires w.Valid() && w.start + w.index + 6 <= w.limit
    modifies w, w.cmds
    ensures w.Valid() && w.index <= old(w.index) + 6 && w.head == old(w.head)
    ensures w.packets
         == old(w.packets)
            + (if x.drawctxt.Some? then [Store32(x.drawctxt.value.0, x.drawctxt.value.2)] else [])
            + [Store32(x.ringSop, timestamp)]
  {
    if x.drawctxt.Some? {
      w.Emit(Store32(x.drawctxt.value.0, x.drawctxt.value.2));
    }
    w.Emit(Store32(x.ringSop, timestamp));
  }

  method OpeningInto(w: CommandWriter, x: Envelope, timestamp: Word)
    requires w.Valid() && w.index == 0 && w.packets == [] && w.head == [] && w.start + 22 <= w.limit
    modifies w, w.cmds
    ensures w.Valid() && w.index <= 22 && w.head == [] && w.packets == Opening(x, timestamp)
  {
    FrontInto(w, x);
    SopInto(w, x, timestamp);
    w.EmitIf(x.notProtected, Protected(false));
  }

  method EopInto(w: CommandWriter, x: Envelope, timestamp: Word)
    requires w.Valid() && w.start + w.index + 8 <= w.limit
    modifies w, w.cmds
    ensures w.Valid() && w.index <= old(w.index) + 8 && w.head == old(w.head)
    ensures w.packets == old(w.packets) + EopPackets(x, timestamp)
  {
    if x.drawctxt.None? {
      w.Emit(Event32(CACHE_FLUSH_TS + EVENT_IRQ, x.ringEop, timestamp));
    } else {
      w.Emit(Event32(CACHE_FLUSH_TS + EVENT_IRQ, x.drawctxt.value.1, x.drawctxt.value.2));
      w.Emit(Event32(CACHE_FLUSH_TS, x.ringEop, timestamp));
    }
  }

  method BackInto(w: CommandWriter, x: Envelope)
    requires w.Valid() && w.packets == [] && w.start + w.index + 9 <= w.limit
    modifies w, w.cmds
    ensures w.Valid() && w.index <= old(w.index) + 9 && w.head == old(w.head) && w.packets == Back(x)
  {
    w.EmitIf(x.notProtected, Protected(true));
    w.Emit(Flush());
    w.Emit(Op(CP_WAIT_FOR_IDLE, [0]));
    ProfileInto(w, x.after);
  }

  method ClosingInto(w: CommandWriter, x: Envelope, timestamp: Word)
    requires w.Valid() && w.packets == [] && w.start + w.index + 22 <= w.limit
    modifies w, w.cmds
    ensures w.Valid() && w.index <= old(w.index) + 22 && w.head == old(w.head) && w.packets == Closing(x, timestamp)
  {
    BackInto(w, x);
    EopInto(w, x, timestamp);
    w.Emit(Rollover());
    w.EmitIf(x.wfi, Op(CP_WAIT_FOR_IDLE, [0]));
  }

  method PayloadInto(w: CommandWriter, x: Envelope, payload: seq<Word>, timestamp: Word)
    requires w.Valid() && w.index == 0 && w.packets == [] && w.head == [] && w.start + 22 + |payload| <= w.limit
    modifies w, w.cmds
    ensures w.Valid() && w.index <= 22 + |payload| && AllFit(Opening(x, timestamp))
    ensures w.packets == [] && w.head == EncodeAll(Opening(x, timestamp)) + payload
  {
    OpeningInto(w, x, timestamp);
    assert w.Written() == EncodeAll(w.packets);
    w.Copy(payload);
  }

  method StreamInto(buffer: array<Word>, start: nat, limit: nat, x: Envelope, payload: seq<Word>, timestamp: Word)
      returns (index: nat)
    requires start + A3XX_SUBMIT_MAX + |payload| <= limit <= buffer.Length
    modifies buffer
    ensures index == |Stream(x, payload, timestamp)| <= A3XX_SUBMIT_MAX + |payload|
    ensures buffer[..] == Splice(old(buffer[..]), start, Stream(x, payload, timestamp))
  {
    var w := new CommandWriter(buffer, start, limit);
    PayloadInto(w, x, payload, timestamp);
    ClosingInto(w, x, timestamp);
    StreamFits(x, payload, timestamp);
    index := w.index;
  }

  class A3xxRing {
    const ring: Ring
    var timestamp: Word
    var rbWptr: nat // A3XX_CP_RB_WPTR

    ghost predicate Valid()
      reads this, ring
    {
      ring.Valid() && ring.kind == Type3
    }

    constructor ()
      ensures Valid() && fresh(ring) && fresh(ring.buffer) && ring.Live() == [] && timestamp == 0 && rbWptr == 0
    {
      ring := new Ring(Type3);
      timestamp := 0;
      rbWptr := 0;
    }

    /** Fill the run taken for a submission, cut it back and publish it. */
    method Fill(x: Envelope, payload: seq<Word>, at: nat)
      requires Valid() && at + A3XX_SUBMIT_MAX + |payload| == ring.next
      requires ring.rptr <= at || ring.next < ring.rptr
      requires ring.published + A3XX_SUBMIT_MAX + |payload| <= ring.given
      modifies this`rbWptr, ring, ring.buffer
      ensures Valid() && ring.rptr == old(ring.rptr)
      ensures rbWptr == ring.wptr == ring.next
      ensures ring.Live() == old(Between(ring.buffer[..], ring.rptr, at)) + Stream(x, payload, timestamp)
    {
      ghost var before := ring.buffer[..];
      var index := StreamInto(ring.buffer, at, at + A3XX_SUBMIT_MAX + |payload|, x, payload, timestamp);
      SpliceBetween(before, ring.rptr, at, Stream(x, payload, timestamp));
      ring.GiveBack(A3XX_SUBMIT_MAX + |payload| - index);
      rbWptr := ring.next;
      ring.Publish();
    }

    /** a3xx_ringbuffer_addcmds: the submission follows all the CP has yet to read, in the ring and in the register. */
    method AddCmds(x: Envelope, payload: seq<Word>, detached: bool, fault: bool) returns (r: Result, ghost filler: seq<Word>)
      requires Valid()
      modifies this, ring, ring.buffer
      ensures Valid() && ring.rptr == old(ring.rptr) && Skippable(Type3, filler)
      ensures r == ENOENT <==> detached
      ensures r == EPROTO <==> !detached && fault
      ensures r == ENOSPC <==> !detached && !fault && !old(ring.HasRoom(A3XX_SUBMIT_MAX + |payload|))
      ensures timestamp == if detached || fault then old(timestamp) else (old(timestamp) + 1) % 0x1_0000_0000
      ensures r != Ok ==> ring.Live() == old(ring.Live()) && ring.wptr == old(ring.wptr) && rbWptr == old(rbWptr)
      ensures r == Ok ==>
                && ring.Live() == old(ring.Live()) + filler + Stream(x, payload, timestamp)
                && rbWptr == ring.wptr == ring.next
    {
      filler := [];
      if detached {
        return ENOENT, [];
      }
      if fault {
        return EPROTO, [];
      }
      timestamp := (timestamp + 1) % 0x1_0000_0000;
      var at;
      at, filler := ring.AllocSpace(A3XX_SUBMIT_MAX + |payload|);
      if at == None {
        return ENOSPC, filler;
      }
      Fill(x, payload, at.value);
      r := Ok;
    }
  }

  // ---------------------------------------------------------------- what the CP reads

  /** After AddCmds the CP reads what it had to read before, then the submission, from whatever modes those before it left,
    and nothing for what fills the ring up. */
  lemma LiveMeaning(from: Modes, before: seq<Word>, start: Modes, steps: seq<Step>, filler: seq<Word>, x: Envelope,
                    payload: seq<Word>, timestamp: Word)
    requires Performs(from, before, start, steps) && Skippable(Type3, filler)
    requires Parse(payload).Some? && After(PayloadModes(start, x), Parse(payload).value) == PayloadModes(start, x)
    ensures Performs(from, before + filler + Stream(x, payload, timestamp), Final(start, x),
                     steps + StreamSteps(start, x, Parse(payload).value, timestamp))
  {
    SkippableParses(Type3, filler, start);
    PerformsIdly(from, before, start, steps, filler);
    StreamMeaning(start, x, payload, timestamp);
    PerformsThen(from, before + filler, start, steps, Stream(x, payload, timestamp), Final(start, x),
                 StreamSteps(start, x, Parse(payload).value, timestamp));
  }
}
