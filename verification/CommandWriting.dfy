/** Filling a stretch of a command buffer in place, one packet or one copied block after another. */
module CommandWriting {
  import opened Pm4

  /** s with d over the dwords from `at` on. */
  function Splice(s: seq<Word>, at: nat, d: seq<Word>): (r: seq<Word>)
    requires at + |d| <= |s|
    ensures |r| == |s|
  {
    s[..at] + d + s[at + |d|..]
  }

  lemma SpliceThen(s: seq<Word>, at: nat, a: seq<Word>, b: seq<Word>)
    requires at + |a| + |b| <= |s|
    ensures Splice(Splice(s, at, a), at + |a|, b) == Splice(s, at, a + b)
  {
  }

  lemma Appended(head: seq<Word>, ps: seq<Packet>, p: Packet)
    requires AllFit(ps) && Fits(p)
    ensures AllFit(ps + [p]) && |Encode(p)| == 1 + |p.payload|
    ensures head + EncodeAll(ps) + Encode(p) == head + EncodeAll(ps + [p])
  {
    EncodeNext(ps, p);
    Regroup(head, EncodeAll(ps), Encode(p));
  }

  /** memcpy into an array. */
  method CopyTo(a: array<Word>, at: nat, dwords: seq<Word>)
    requires at + |dwords| <= a.Length
    modifies a
    ensures a[..] == Splice(old(a[..]), at, dwords)
  {
    var i := 0;
    while i < |dwords|
      invariant i <= |dwords|
      invariant forall k :: at <= k < at + i ==> a[k] == dwords[k - at]
      invariant forall k :: 0 <= k < a.Length && !(at <= k < at + i) ==> a[k] == old(a[k])
    {
      a[at + i] := dwords[i];
      i := i + 1;
    }
  }

  /** `cmds` and `index` of the functions that build streams: a window of an array, filled from its start with `head`
    (whatever was copied) and then `packets`. */
  class CommandWriter {
    const cmds: array<Word>
    const start: nat
    const limit: nat
    var index: nat
    ghost const origin: seq<Word>
    ghost var head: seq<Word>
    ghost var packets: seq<Packet>

    ghost predicate Valid()
      reads this, cmds
    {
      && |origin| == cmds.Length && start + index <= limit <= cmds.Length
      && AllFit(packets) && index == |Written()|
      && cmds[..] == Splice(origin, start, Written())
    }

    ghost function Written(): seq<Word>
      requires AllFit(packets)
      reads this
    {
      head + EncodeAll(packets)
    }

    constructor (cmds: array<Word>, start: nat, limit: nat)
      requires start <= limit <= cmds.Length
      ensures Valid() && this.cmds == cmds && this.start == start && this.limit == limit
      ensures index == 0 && head == [] && packets == [] && origin == cmds[..]
    {
      this.cmds := cmds;
      this.start := start;
      this.limit := limit;
      index := 0;
      origin := cmds[..];
      head := [];
      packets := [];
    }

    /** Dwords at the end of what is written. */
    method Store(dwords: seq<Word>)
      requires Valid() && start + index + |dwords| <= limit
      modifies this`index, cmds
      ensures index == old(index) + |dwords| == |Written() + dwords|
      ensures cmds[..] == Splice(origin, start, Written() + dwords)
    {
      CopyTo(cmds, start + index, dwords);
      SpliceThen(origin, start, Written(), dwords);
      index := index + |dwords|;
    }

    /** memcpy. */
    method Copy(dwords: seq<Word>)
      requires Valid() && start + index + |dwords| <= limit
      modifies this, cmds
      ensures Valid() && index == old(index) + |dwords|
      ensures packets == [] && head == old(Written()) + dwords
    {
      Store(dwords);
      head := Written() + dwords;
      packets := [];
    }

    /** A header and its payload: one `cmds[index++] = ...` after another. */
    method Emit(p: Packet)
      requires Valid() && Fits(p) && start + index + 1 + |p.payload| <= limit
      modifies this, cmds
      ensures Valid() && index == old(index) + 1 + |p.payload|
      ensures packets == old(packets) + [p] && head == old(head)
    {
      Appended(head, packets, p);
      Store(Encode(p));
      packets := packets + [p];
    }

    /** A packet that some flag asks for. */
    method EmitIf(on: bool, p: Packet)
      requires Valid() && Fits(p) && (on ==> start + index + 1 + |p.payload| <= limit)
      modifies this, cmds
      ensures Valid() && index == old(index) + (if on then 1 + |p.payload| else 0)
      ensures packets == old(packets) + (if on then [p] else []) && head == old(head)
    {
      if on {
        Emit(p);
      }
    }
  }
}
