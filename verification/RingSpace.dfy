/** Space in a ringbuffer: adreno_ringbuffer_allocspace, and what the CP finds between its read pointer and `_wptr`. */
module RingSpace {
  import opened Pm4
  import opened CpMachine
  import opened CommandWriting

  const KGSL_RB_DWORDS := 8192

  /** Positions that count on for ever, and agree at most one lap apart, wrap to the same dword only if they are equal:
    `rptr == wptr` means empty and never full. */
  lemma WrappedEqual(a: nat, b: nat)
    requires a <= b < a + KGSL_RB_DWORDS
    ensures a % KGSL_RB_DWORDS == b % KGSL_RB_DWORDS <==> a == b
  {
  }

  lemma WrapOn(a: nat, n: nat)
    requires a % KGSL_RB_DWORDS + n <= KGSL_RB_DWORDS
    ensures (a + n) % KGSL_RB_DWORDS
         == if a % KGSL_RB_DWORDS + n == KGSL_RB_DWORDS then 0 else a % KGSL_RB_DWORDS + n
  {
  }

  /** The dwords from `from` up to `to`, around the end of the buffer if need be. */
  function Between(buffer: seq<Word>, from: nat, to: nat): (d: seq<Word>)
    requires from <= |buffer| && to <= |buffer|
    ensures |d| == if from <= to then to - from else |buffer| - from + to
  {
    if from <= to then buffer[from..to] else buffer[from..] + buffer[..to]
  }

  /** What the CP reads splits where an unbroken run begins. */
  lemma BetweenSplit(buffer: seq<Word>, from: nat, at: nat, to: nat)
    requires from <= |buffer| && at <= to <= |buffer| && (from <= at || to < from)
    ensures Between(buffer, from, to) == Between(buffer, from, at) + buffer[at..to]
  {
  }

  /** Writing into an unbroken run that has been allocated, up to where it is then cut back to. */
  lemma SpliceBetween(origin: seq<Word>, from: nat, at: nat, d: seq<Word>)
    requires from <= |origin| && at + |d| <= |origin| && (from <= at || at + |d| < from)
    ensures Between(Splice(origin, at, d), from, at + |d|) == Between(origin, from, at) + d
  {
  }

  /** The read pointer n dwords on. */
  lemma BetweenDrop(buffer: seq<Word>, from: nat, to: nat, n: nat)
    requires |buffer| == KGSL_RB_DWORDS && from < |buffer| && to < |buffer|
    requires n <= |Between(buffer, from, to)|
    ensures Between(buffer, (from + n) % KGSL_RB_DWORDS, to) == Between(buffer, from, to)[n..]
  {
    var r := (from + n) % KGSL_RB_DWORDS;
    assert r == if from + n < KGSL_RB_DWORDS then from + n else from + n - KGSL_RB_DWORDS;
  }

  lemma TakeBack(a: nat, n: nat)
    requires n <= a && n <= a % KGSL_RB_DWORDS
    ensures (a - n) % KGSL_RB_DWORDS == a % KGSL_RB_DWORDS - n
  {
  }

  lemma ReadOn(consumed: nat, n: nat, given: nat)
    requires consumed + n <= given < consumed + KGSL_RB_DWORDS
    ensures (consumed + n) % KGSL_RB_DWORDS == (consumed % KGSL_RB_DWORDS + n) % KGSL_RB_DWORDS
  {
  }

  // ---------------------------------------------------------------- what fills the ring up

  /** A stretch the CP steps over: nothing, or one NOP as cp_packet makes it, of type 3 on a3xx and of type 7 on a5xx. */
  predicate Skippable(kind: Kind, filler: seq<Word>) {
    || filler == []
    || (Encodable(kind, CP_NOP, |filler| - 1) && filler[0] == Header(kind, CP_NOP, |filler| - 1))
  }

  lemma NopDoes(kind: Kind, payload: seq<Word>, m: Modes)
    requires kind == Type3 || kind == Type7
    ensures Does(m, [Packet(kind, CP_NOP, payload)], m, [])
  {
    DoesMode(m, Packet(kind, CP_NOP, payload));
  }

  lemma NopPerforms(p: Packet, m: Modes)
    requires Fits(p) && Does(m, [p], m, [])
    ensures Performs(m, Encode(p), m, [])
  {
    ParseSingle(p);
  }

  lemma SkippableParses(kind: Kind, filler: seq<Word>, m: Modes)
    requires (kind == Type3 || kind == Type7) && Skippable(kind, filler)
    ensures Performs(m, filler, m, [])
  {
    if filler == [] {
      DoesNothing(m);
    } else {
      assert Encode(Packet(kind, CP_NOP, filler[1..])) == filler;
      NopDoes(kind, filler[1..], m);
      NopPerforms(Packet(kind, CP_NOP, filler[1..]), m);
    }
  }

  // ---------------------------------------------------------------- room

  /** Where adreno_ringbuffer_allocspace finds room: two dwords short of the end, or before the read pointer. */
  predicate RoomAt(rptr: nat, next: nat, dwords: nat) {
    (rptr <= next && (next + dwords <= KGSL_RB_DWORDS - 2 || dwords < rptr)) || next + dwords < rptr
  }

  /** A run of dwords that starts `skip` dwords on, is unbroken, keeps clear of the last two dwords, and ends before the
    dword the CP is to read next comes round again. */
  predicate FitsAfter(consumed: nat, given: nat, skip: nat, dwords: nat) {
    given + skip + dwords < consumed + KGSL_RB_DWORDS && (given + skip) % KGSL_RB_DWORDS + dwords <= KGSL_RB_DWORDS - 2
  }

  lemma Laps(consumed: nat, given: nat)
    requires consumed <= given < consumed + KGSL_RB_DWORDS
    ensures given - consumed
         == if consumed % KGSL_RB_DWORDS <= given % KGSL_RB_DWORDS then given % KGSL_RB_DWORDS - consumed % KGSL_RB_DWORDS
            else KGSL_RB_DWORDS - consumed % KGSL_RB_DWORDS + given % KGSL_RB_DWORDS
  {
    var c, g := consumed / KGSL_RB_DWORDS, given / KGSL_RB_DWORDS;
    assert consumed == c * KGSL_RB_DWORDS + consumed % KGSL_RB_DWORDS && given == g * KGSL_RB_DWORDS + given % KGSL_RB_DWORDS;
    assert g == c || g == c + 1;
  }

  /** Room is found exactly if such a run follows at once, or after skipping all up to the end of the buffer. */
  lemma RoomExactly(consumed: nat, given: nat, dwords: nat)
    requires consumed <= given < consumed + KGSL_RB_DWORDS && given % KGSL_RB_DWORDS <= KGSL_RB_DWORDS - 2
    ensures RoomAt(consumed % KGSL_RB_DWORDS, given % KGSL_RB_DWORDS, dwords)
        <==> FitsAfter(consumed, given, 0, dwords)
             || FitsAfter(consumed, given, KGSL_RB_DWORDS - given % KGSL_RB_DWORDS, dwords)
  {
    Laps(consumed, given);
    WrapOn(given, KGSL_RB_DWORDS - given % KGSL_RB_DWORDS);
  }

  /** What the CP reads on only adds room. */
  lemma RoomGrows(consumed: nat, more: nat, given: nat, dwords: nat)
    requires consumed <= more <= given < consumed + KGSL_RB_DWORDS && given % KGSL_RB_DWORDS <= KGSL_RB_DWORDS - 2
    requires RoomAt(consumed % KGSL_RB_DWORDS, given % KGSL_RB_DWORDS, dwords)
    ensures RoomAt(more % KGSL_RB_DWORDS, given % KGSL_RB_DWORDS, dwords)
  {
    RoomExactly(consumed, given, dwords);
    RoomExactly(more, given, dwords);
  }

  lemma RoomsGrow(consumed: nat, more: nat, given: nat)
    requires consumed <= more <= given < consumed + KGSL_RB_DWORDS && given % KGSL_RB_DWORDS <= KGSL_RB_DWORDS - 2
    ensures forall dwords :: RoomAt(consumed % KGSL_RB_DWORDS, given % KGSL_RB_DWORDS, dwords) ==>
              RoomAt(more % KGSL_RB_DWORDS, given % KGSL_RB_DWORDS, dwords)
  {
    forall dwords | RoomAt(consumed % KGSL_RB_DWORDS, given % KGSL_RB_DWORDS, dwords)
      ensures RoomAt(more % KGSL_RB_DWORDS, given % KGSL_RB_DWORDS, dwords)
    {
      RoomGrows(consumed, more, given, dwords);
    }
  }

  class Ring {
    const buffer: array<Word>
    const kind: Kind // of the packets cp_packet makes
    var next: nat    // _wptr: where the next command goes
    var wptr: nat    // published
    var rptr: nat    // adreno_get_rptr
    ghost var given: nat
    ghost var published: nat
    ghost var consumed: nat

    ghost predicate Valid()
      reads this
    {
      && buffer.Length == KGSL_RB_DWORDS && (kind == Type3 || kind == Type7)
      && consumed <= published <= given < consumed + KGSL_RB_DWORDS
      && next == given % KGSL_RB_DWORDS && wptr == published % KGSL_RB_DWORDS && rptr == consumed % KGSL_RB_DWORDS
      && next <= KGSL_RB_DWORDS - 2
    }

    /** All the CP has not read yet, published or not. */
    ghost function Live(): (d: seq<Word>)
      requires Valid()
      reads this, buffer
    {
      Between(buffer[..], rptr, next)
    }

    ghost predicate HasRoom(dwords: nat)
      reads this
    {
      RoomAt(rptr, next, dwords)
    }

    lemma LiveSize()
      requires Valid()
      ensures |Live()| == given - consumed
    {
      Laps(consumed, given);
    }

    /** adreno_rb_empty says exactly that the CP has read all that was published. */
    method IsEmpty() returns (empty: bool)
      requires Valid()
      ensures empty <==> consumed == published
    {
      WrappedEqual(consumed, published);
      empty := rptr == wptr;
    }

    constructor (kind: Kind)
      requires kind == Type3 || kind == Type7
      ensures Valid() && fresh(buffer) && this.kind == kind && Live() == [] && given == 0
    {
      buffer := new Word[KGSL_RB_DWORDS](_ => 0);
      this.kind := kind;
      next, wptr, rptr := 0, 0, 0;
      given, published, consumed := 0, 0, 0;
    }

    /** adreno_ringbuffer_allocspace. The run is unbroken and ends at `_wptr`; what the CP has yet to read is untouched, and
      followed by at most one NOP that swallows everything up to the run; the ring does not come to look empty. */
    method AllocSpace(dwords: nat) returns (at: Option<nat>, ghost filler: seq<Word>)
      requires Valid()
      modifies this`next, this`given, buffer
      ensures Valid() && Skippable(kind, filler)
      ensures at.Some? <==> old(HasRoom(dwords))
      ensures at == None ==> next == old(next) && given == old(given) && buffer[..] == old(buffer[..])
      ensures at.Some? ==>
                && at.value + dwords == next && (rptr <= at.value || next < rptr)
                && Between(buffer[..], rptr, at.value) == old(Live()) + filler
                && given == old(given) + |filler| + dwords
                && (dwords > 0 ==> next != rptr)
    {
      filler := [];
      at := None;
      if rptr <= next {
        if next + dwords <= KGSL_RB_DWORDS - 2 {
          at := Some(next);
          Take(dwords);
          return;
        }
        if dwords < rptr {
          filler := FillToEnd();
          at := Some(0);
          Take(dwords);
          return;
        }
      }
      if next + dwords < rptr {
        at := Some(next);
        Take(dwords);
      }
    }

    /** `_wptr` moves on over a run that stays clear of the read pointer and of the end of the buffer. */
    method Take(dwords: nat)
      requires Valid() && next + dwords <= KGSL_RB_DWORDS - 2 && (rptr <= next || next + dwords < rptr)
      modifies this`next, this`given
      ensures Valid() && next == old(next) + dwords && given == old(given) + dwords
    {
      LiveSize();
      WrapOn(given, dwords);
      given := given + dwords;
      next := (next + dwords) % KGSL_RB_DWORDS;
    }

    /** One NOP from `_wptr` to the end of the buffer, whose stale dwords it swallows. */
    method FillToEnd() returns (ghost filler: seq<Word>)
      requires Valid() && 0 < rptr <= next
      modifies this`next, this`given, buffer
      ensures Valid() && next == 0 && Skippable(kind, filler) && given == old(given) + |filler|
      ensures Between(buffer[..], rptr, 0) == old(Live()) + filler
    {
      LiveSize();
      ghost var before := buffer[..];
      var header := Header(kind, CP_NOP, KGSL_RB_DWORDS - next - 1);
      filler := [header] + buffer[next + 1..];
      buffer[next] := header;
      assert buffer[..] == before[..next] + filler;
      WrapOn(given, KGSL_RB_DWORDS - next);
      given := given + (KGSL_RB_DWORDS - next);
      next := 0;
    }

    /** Give back the end of the run last taken: `_wptr -= size - index`. What is given back is room again. */
    method GiveBack(unused: nat)
      requires Valid() && unused <= next && unused <= given - published
      modifies this`next, this`given
      ensures Valid() && next == old(next) - unused && given == old(given) - unused && HasRoom(unused)
    {
      TakeBack(given, unused);
      given := given - unused;
      next := next - unused;
      RoomExactly(consumed, given, unused);
    }

    /** rb->wptr = rb->_wptr. */
    method Publish()
      requires Valid()
      modifies this`wptr, this`published
      ensures Valid() && wptr == next && published == given
    {
      wptr := next;
      published := given;
    }

    /** How many published dwords the CP has not read. */
    method Unread() returns (n: nat)
      requires Valid()
      ensures n == published - consumed
    {
      Laps(consumed, published);
      n := if rptr <= wptr then wptr - rptr else KGSL_RB_DWORDS - rptr + wptr;
    }

    method Consume(n: nat)
      requires Valid() && n <= published - consumed
      modifies this`rptr, this`consumed
      ensures Valid() && consumed == old(consumed) + n
      ensures n <= |old(Live())| && Live() == old(Live())[n..]
    {
      LiveSize();
      ghost var from := rptr;
      ReadOn(consumed, n, given);
      consumed := consumed + n;
      rptr := (rptr + n) % KGSL_RB_DWORDS;
      BetweenDrop(buffer[..], from, next, n);
    }

    /** The CP reads on, as far as it gets, but never past what was published; that leaves what it has not read as it was,
      and no less room. */
    method CpReads(n: nat) returns (ghost gone: seq<Word>)
      requires Valid()
      modifies this`rptr, this`consumed
      ensures Valid() && gone + Live() == old(Live())
      ensures |gone| == old(if n <= published - consumed then n else published - consumed)
      ensures forall dwords :: old(HasRoom(dwords)) ==> HasRoom(dwords)
    {
      var unread := Unread();
      var read := if n <= unread then n else unread;
      ghost var live, before := Live(), consumed;
      Consume(read);
      gone := live[..read];
      RoomsGrow(before, consumed, given);
    }
  }
}
