/** Secure buffers across hibernation: handing them to the kernel, and back. */
module SecureBuffers {
  /** A memory descriptor: `secured` is kgsl_memdesc_is_secured, `ion` KGSL_MEMFLAGS_USERMEM_ION, `hlos` the priv bit
    KGSL_MEMDESC_HYPASSIGNED_HLOS and `priv` the other priv bits. `owned` is what the flag stands for: whether the
    hypervisor has assigned the memory to the kernel. */
  datatype Mem = Mem(secured: bool, ion: bool, hlos: bool, priv: int, owned: bool)

  /** The memory of all processes, and the global buffers. */
  datatype State = State(entries: seq<Mem>, globals: seq<Mem>)

  /** The five loops: hibernate's two, its way out, and restore's two. */
  datatype Pass = UnlockEntries | UnlockGlobals | RelockGlobals | LockGlobals | LockEntries

  /** Whether the n-th call into the hypervisor succeeds. */
  type Outcome = nat -> bool

  /** Whether the flag is set or cleared. */
  predicate Sets(p: Pass) {
    p == UnlockEntries || p == UnlockGlobals
  }

  /** A strict pass stops at a call that fails; the others go on and change the flag all the same. */
  predicate Strict(p: Pass) {
    p != UnlockEntries && p != RelockGlobals
  }

  predicate Eligible(p: Pass, m: Mem) {
    m.secured && (p == UnlockEntries || p == LockEntries ==> !m.ion)
  }

  /** The objects a pass calls the hypervisor for. */
  predicate Picks(p: Pass, m: Mem) {
    Eligible(p, m) && m.hlos != Sets(p)
  }

  function Changed(p: Pass, m: Mem, success: bool): Mem {
    m.(hlos := Sets(p), owned := if success then Sets(p) else m.owned)
  }

  datatype Swept = Swept(list: seq<Mem>, whole: bool, calls: nat)

  /** A pass over the first n objects, with so many calls made before. */
  function Sweep(p: Pass, list: seq<Mem>, n: nat, ok: Outcome, calls: nat): (r: Swept)
    requires n <= |list|
    ensures |r.list| == |list|
  {
    if n == 0 then Swept(list, true, calls)
    else
      var r := Sweep(p, list, n - 1, ok, calls);
      if !r.whole || !Picks(p, list[n - 1]) then r
      else if !ok(r.calls) && Strict(p) then Swept(r.list, false, r.calls + 1)
      else Swept(r.list[n - 1 := Changed(p, list[n - 1], ok(r.calls))], true, r.calls + 1)
  }

  /** adreno_secure_pt_hibernate. */
  function Hibernated(s: State, ok: Outcome): (State, bool) {
    var e := Sweep(UnlockEntries, s.entries, |s.entries|, ok, 0);
    var g := Sweep(UnlockGlobals, s.globals, |s.globals|, ok, e.calls);
    if g.whole then (State(e.list, g.list), true)
    else (State(e.list, Sweep(RelockGlobals, g.list, |g.list|, ok, g.calls).list), false)
  }

  /** adreno_secure_pt_restore. */
  function Restored(s: State, ok: Outcome): (State, bool) {
    var g := Sweep(LockGlobals, s.globals, |s.globals|, ok, 0);
    if !g.whole then (State(s.entries, g.list), false)
    else
      var e := Sweep(LockEntries, s.entries, |s.entries|, ok, g.calls);
      (State(e.list, g.list), e.whole)
  }

  // ---------------------------------------------------------------- a pass

  /** Nothing but the flag and the assignment differs, and those only for objects the pass may touch. */
  predicate Framed(p: Pass, a: Mem, b: Mem) {
    a == b || (Picks(p, a) && (b == Changed(p, a, true) || b == Changed(p, a, false)))
  }

  lemma {:induction false} SweepFrame(p: Pass, list: seq<Mem>, n: nat, ok: Outcome, calls: nat, k: nat)
    requires n <= |list| && k < |list|
    ensures Framed(p, list[k], Sweep(p, list, n, ok, calls).list[k])
    ensures k >= n ==> Sweep(p, list, n, ok, calls).list[k] == list[k]
    ensures Sweep(p, list, n, ok, calls).whole && k < n ==> !Picks(p, Sweep(p, list, n, ok, calls).list[k])
  {
    if n > 0 {
      SweepFrame(p, list, n - 1, ok, calls, k);
    }
  }

  lemma {:induction false} LenientWhole(p: Pass, list: seq<Mem>, n: nat, ok: Outcome, calls: nat)
    requires n <= |list| && !Strict(p)
    ensures Sweep(p, list, n, ok, calls).whole
  {
    if n > 0 {
      LenientWhole(p, list, n - 1, ok, calls);
    }
  }

  /** How many objects a pass would call for. */
  function Pending(p: Pass, list: seq<Mem>, n: nat): nat
    requires n <= |list|
  {
    if n == 0 then 0 else Pending(p, list, n - 1) + if Picks(p, list[n - 1]) then 1 else 0
  }

  /** A whole pass makes one call for each object it picks, and none for any other. */
  lemma {:induction false} SweepCalls(p: Pass, list: seq<Mem>, n: nat, ok: Outcome, calls: nat)
    requires n <= |list|
    ensures var r := Sweep(p, list, n, ok, calls);
            && r.calls <= calls + Pending(p, list, n)
            && (r.whole ==> r.calls == calls + Pending(p, list, n))
  {
    if n > 0 {
      SweepCalls(p, list, n - 1, ok, calls);
    }
  }

  /** The pass gets through exactly if none of its calls fails, when it is strict. */
  lemma {:induction false} SweepStops(p: Pass, list: seq<Mem>, n: nat, ok: Outcome, calls: nat)
    requires n <= |list| && Strict(p)
    ensures var r := Sweep(p, list, n, ok, calls);
            && calls <= r.calls
            && (r.whole <==> forall c :: calls <= c < r.calls ==> ok(c))
  {
    if n > 0 {
      SweepStops(p, list, n - 1, ok, calls);
    }
  }

  /** Which objects each of the five loops calls the hypervisor for, and which loops stop at a failure. */
  lemma PicksExactly(p: Pass, m: Mem)
    ensures Picks(p, m)
        <==> m.secured
             && match p
                case UnlockEntries => !m.ion && !m.hlos
                case UnlockGlobals => !m.hlos
                case RelockGlobals => m.hlos
                case LockGlobals => m.hlos
                case LockEntries => !m.ion && m.hlos
    ensures Strict(p) <==> p == UnlockGlobals || p == LockGlobals || p == LockEntries
  {
  }

  /** What a pass leaves of each object: it calls for those it picks, one after the other. A strict pass leaves alone what
    comes behind a call that fails, and the object of that call; another changes the flag in any case. Only a call that
    succeeds moves the memory. */
  lemma {:induction false} SweepAt(p: Pass, list: seq<Mem>, n: nat, ok: Outcome, calls: nat, k: nat)
    requires k < n <= |list|
    ensures var c, sets := calls + Pending(p, list, k), p == UnlockEntries || p == UnlockGlobals;
            Sweep(p, list, n, ok, calls).list[k]
            == if !Picks(p, list[k]) || (Strict(p) && exists d :: calls <= d <= c && !ok(d)) then list[k]
               else list[k].(hlos := sets, owned := if ok(c) then sets else list[k].owned)
  {
    if k < n - 1 {
      SweepAt(p, list, n - 1, ok, calls, k);
    } else {
      SweepFrame(p, list, k, ok, calls, k);
      SweepCalls(p, list, k, ok, calls);
      if Strict(p) {
        SweepStops(p, list, k, ok, calls);
      } else {
        LenientWhole(p, list, k, ok, calls);
      }
    }
  }

  // ---------------------------------------------------------------- one call

  predicate EntriesFlagged(s: State) {
    forall k :: 0 <= k < |s.entries| && s.entries[k].secured && !s.entries[k].ion ==> s.entries[k].hlos
  }

  predicate AllFlagged(s: State) {
    EntriesFlagged(s) && forall k :: 0 <= k < |s.globals| && s.globals[k].secured ==> s.globals[k].hlos
  }

  predicate GlobalsClear(s: State) {
    forall k :: 0 <= k < |s.globals| && s.globals[k].secured ==> !s.globals[k].hlos
  }

  predicate AllClear(s: State) {
    GlobalsClear(s) && forall k :: 0 <= k < |s.entries| && s.entries[k].secured && !s.entries[k].ion ==> !s.entries[k].hlos
  }

  /** Hibernation that succeeds flags every eligible object; one that fails leaves no secured global flagged, but every
    eligible object of a process. */
  lemma HibernateOutcome(s: State, ok: Outcome)
    ensures var r := Hibernated(s, ok);
            if r.1 then AllFlagged(r.0) else GlobalsClear(r.0) && EntriesFlagged(r.0)
  {
    var e := Sweep(UnlockEntries, s.entries, |s.entries|, ok, 0);
    var g := Sweep(UnlockGlobals, s.globals, |s.globals|, ok, e.calls);
    var f := Sweep(RelockGlobals, g.list, |g.list|, ok, g.calls);
    LenientWhole(UnlockEntries, s.entries, |s.entries|, ok, 0);
    LenientWhole(RelockGlobals, g.list, |g.list|, ok, g.calls);
    forall k | 0 <= k < |s.entries| ensures !Picks(UnlockEntries, e.list[k]) {
      SweepFrame(UnlockEntries, s.entries, |s.entries|, ok, 0, k);
    }
    forall k | 0 <= k < |s.globals| ensures g.whole ==> !Picks(UnlockGlobals, g.list[k]) {
      SweepFrame(UnlockGlobals, s.globals, |s.globals|, ok, e.calls, k);
    }
    forall k | 0 <= k < |g.list| ensures !Picks(RelockGlobals, f.list[k]) {
      SweepFrame(RelockGlobals, g.list, |g.list|, ok, g.calls, k);
    }
  }

  /** Restoring that succeeds clears every eligible flag. */
  lemma RestoreOutcome(s: State, ok: Outcome)
    ensures Restored(s, ok).1 ==> AllClear(Restored(s, ok).0)
  {
    var g := Sweep(LockGlobals, s.globals, |s.globals|, ok, 0);
    var e := Sweep(LockEntries, s.entries, |s.entries|, ok, g.calls);
    forall k | 0 <= k < |s.globals| ensures g.whole ==> !Picks(LockGlobals, g.list[k]) {
      SweepFrame(LockGlobals, s.globals, |s.globals|, ok, 0, k);
    }
    forall k | 0 <= k < |s.entries| ensures e.whole ==> !Picks(LockEntries, e.list[k]) {
      SweepFrame(LockEntries, s.entries, |s.entries|, ok, g.calls, k);
    }
  }

  /** A strict pass gets through exactly if all the calls it would make succeed. */
  lemma WholeExactly(p: Pass, list: seq<Mem>, ok: Outcome, calls: nat)
    requires Strict(p)
    ensures Sweep(p, list, |list|, ok, calls).whole <==> AllSucceed(ok, calls, calls + Pending(p, list, |list|))
  {
    SweepStops(p, list, |list|, ok, calls);
    SweepCalls(p, list, |list|, ok, calls);
  }

  /** Restoring succeeds exactly if all the calls succeed that it would make, for flagged globals and then for flagged memory
    of processes. */
  lemma RestoreSucceeds(s: State, ok: Outcome)
    ensures var g, e := Pending(LockGlobals, s.globals, |s.globals|), Pending(LockEntries, s.entries, |s.entries|);
            Restored(s, ok).1 <==> AllSucceed(ok, 0, g + e)
  {
    var g := Pending(LockGlobals, s.globals, |s.globals|);
    WholeExactly(LockGlobals, s.globals, ok, 0);
    WholeExactly(LockEntries, s.entries, ok, g);
    SweepCalls(LockGlobals, s.globals, |s.globals|, ok, 0);
  }

  /** Hibernation succeeds exactly if all its calls for globals do; those before them, for the memory of processes, make no
    difference. */
  lemma HibernateSucceeds(s: State, ok: Outcome)
    ensures var e, g := Pending(UnlockEntries, s.entries, |s.entries|), Pending(UnlockGlobals, s.globals, |s.globals|);
            Hibernated(s, ok).1 <==> AllSucceed(ok, e, e + g)
  {
    LenientWhole(UnlockEntries, s.entries, |s.entries|, ok, 0);
    SweepCalls(UnlockEntries, s.entries, |s.entries|, ok, 0);
    WholeExactly(UnlockGlobals, s.globals, ok, Pending(UnlockEntries, s.entries, |s.entries|));
  }

  /** A restore that is interrupted has changed only objects that were flagged, and repeating it calls the hypervisor only
    for those still flagged: once each, if it gets through. */
  lemma RestoreAgain(s: State, first: Outcome, again: Outcome, k: nat)
    requires !Restored(s, first).1 && k < |s.globals|
    ensures !s.globals[k].hlos ==> Restored(s, first).0.globals[k] == s.globals[k]
    ensures var t := Restored(s, first).0;
            && (!t.globals[k].hlos ==> Restored(t, again).0.globals[k] == t.globals[k])
            && (Sweep(LockGlobals, t.globals, |t.globals|, again, 0).whole ==>
                  Sweep(LockGlobals, t.globals, |t.globals|, again, 0).calls == Pending(LockGlobals, t.globals, |t.globals|))
  {
    var t := Restored(s, first).0;
    SweepFrame(LockGlobals, s.globals, |s.globals|, first, 0, k);
    SweepFrame(LockGlobals, t.globals, |t.globals|, again, 0, k);
    SweepCalls(LockGlobals, t.globals, |t.globals|, again, 0);
  }

  /** The same for the memory of processes. */
  lemma RestoreAgainEntries(s: State, first: Outcome, again: Outcome, k: nat)
    requires !Restored(s, first).1 && k < |s.entries|
    ensures !s.entries[k].hlos ==> Restored(s, first).0.entries[k] == s.entries[k]
    ensures var t := Restored(s, first).0;
            !t.entries[k].hlos ==> Restored(t, again).0.entries[k] == t.entries[k]
  {
    var t := Restored(s, first).0;
    var g := Sweep(LockGlobals, s.globals, |s.globals|, first, 0);
    SweepFrame(LockEntries, s.entries, |s.entries|, first, g.calls, k);
    var h := Sweep(LockGlobals, t.globals, |t.globals|, again, 0);
    SweepFrame(LockEntries, t.entries, |t.entries|, again, h.calls, k);
  }

  // ---------------------------------------------------------------- any number of calls

  datatype Call = Hibernating(ok: Outcome) | Restoring(ok: Outcome)

  function Run(s: State, calls: seq<Call>): State {
    if calls == [] then s
    else
      var before := Run(s, calls[..|calls| - 1]);
      match calls[|calls| - 1]
      case Hibernating(ok) => Hibernated(before, ok).0
      case Restoring(ok) => Restored(before, ok).0
  }

  /** The same object, but for the flag and the assignment of one that may be handed over. */
  predicate Same(entry: bool, a: Mem, b: Mem) {
    && a.secured == b.secured && a.ion == b.ion && a.priv == b.priv
    && (!a.secured || (entry && a.ion) ==> a == b)
  }

  predicate AllSame(a: State, b: State) {
    && |a.entries| == |b.entries| && |a.globals| == |b.globals|
    && (forall k :: 0 <= k < |a.entries| ==> Same(true, a.entries[k], b.entries[k]))
    && (forall k :: 0 <= k < |a.globals| ==> Same(false, a.globals[k], b.globals[k]))
  }

  lemma SweepSame(p: Pass, list: seq<Mem>, ok: Outcome, calls: nat)
    ensures var after := Sweep(p, list, |list|, ok, calls).list;
            forall k :: 0 <= k < |list| ==> Same(p == UnlockEntries || p == LockEntries, list[k], after[k])
  {
    forall k | 0 <= k < |list|
      ensures Same(p == UnlockEntries || p == LockEntries, list[k], Sweep(p, list, |list|, ok, calls).list[k])
    {
      SweepFrame(p, list, |list|, ok, calls, k);
    }
  }

  lemma CallSame(s: State, ok: Outcome)
    ensures AllSame(s, Hibernated(s, ok).0) && AllSame(s, Restored(s, ok).0)
  {
    var e := Sweep(UnlockEntries, s.entries, |s.entries|, ok, 0);
    var g := Sweep(UnlockGlobals, s.globals, |s.globals|, ok, e.calls);
    SweepSame(UnlockEntries, s.entries, ok, 0);
    SweepSame(UnlockGlobals, s.globals, ok, e.calls);
    SweepSame(RelockGlobals, g.list, ok, g.calls);
    var h := Sweep(LockGlobals, s.globals, |s.globals|, ok, 0);
    SweepSame(LockGlobals, s.globals, ok, 0);
    SweepSame(LockEntries, s.entries, ok, h.calls);
  }

  /** However often the two are called, with whatever outcomes: no other priv bit ever changes, and objects that are not
    secured, or come from ION, are left alone; a last call that succeeds has flagged or cleared every eligible object. */
  lemma {:induction false} RunRoundTrip(s: State, calls: seq<Call>)
    ensures AllSame(s, Run(s, calls))
    ensures calls != [] ==>
              var before, last := Run(s, calls[..|calls| - 1]), calls[|calls| - 1];
              match last
              case Hibernating(ok) => Hibernated(before, ok).1 ==> AllFlagged(Run(s, calls))
              case Restoring(ok) => Restored(before, ok).1 ==> AllClear(Run(s, calls))
  {
    if calls != [] {
      var before := Run(s, calls[..|calls| - 1]);
      RunRoundTrip(s, calls[..|calls| - 1]);
      CallSame(before, calls[|calls| - 1].ok);
      HibernateOutcome(before, calls[|calls| - 1].ok);
      RestoreOutcome(before, calls[|calls| - 1].ok);
    }
  }

  // ---------------------------------------------------------------- does the flag tell the truth?

  predicate Truthful(list: seq<Mem>) {
    forall k :: 0 <= k < |list| && list[k].secured ==> list[k].hlos == list[k].owned
  }

  lemma TruthAt(list: seq<Mem>, k: nat, m: Mem)
    requires k < |list| && Truthful(list)
    ensures Truthful(list[k := m]) <==> (m.secured ==> m.hlos == m.owned)
  {
    if Truthful(list[k := m]) {
      assert list[k := m][k] == m;
    }
  }

  lemma TruthBefore(list: seq<Mem>, k: nat, m: Mem)
    requires k < |list| && Truthful(list[k := m]) && (list[k].secured ==> list[k].hlos == list[k].owned)
    ensures Truthful(list)
  {
    forall i | 0 <= i < |list| && list[i].secured ensures list[i].hlos == list[i].owned {
      if i != k { assert list[k := m][i] == list[i]; }
    }
  }

  /** A pass keeps the flags truthful exactly if no call fails whose failure it does not stop for. */
  lemma {:induction false} SweepTruth(p: Pass, list: seq<Mem>, n: nat, ok: Outcome, calls: nat)
    requires n <= |list| && Truthful(list)
    ensures var r := Sweep(p, list, n, ok, calls);
            && calls <= r.calls
            && (Truthful(r.list) <==> Strict(p) || forall c :: calls <= c < r.calls ==> ok(c))
  {
    if n > 0 {
      var r := Sweep(p, list, n - 1, ok, calls);
      SweepTruth(p, list, n - 1, ok, calls);
      SweepFrame(p, list, n - 1, ok, calls, n - 1);
      if r.whole && Picks(p, list[n - 1]) && (ok(r.calls) || !Strict(p)) {
        var m := Changed(p, list[n - 1], ok(r.calls));
        if Truthful(r.list) {
          TruthAt(r.list, n - 1, m);
        } else if Truthful(r.list[n - 1 := m]) {
          TruthBefore(r.list, n - 1, m);
        }
      }
    }
  }

  predicate TruthfulState(s: State) {
    Truthful(s.entries) && Truthful(s.globals)
  }

  predicate AllSucceed(ok: Outcome, from: nat, to: nat) {
    forall c :: from <= c < to ==> ok(c)
  }

  /** Hibernation keeps the flags truthful exactly if no call fails that hands over the memory of a process, nor, on its way
    out, one that takes a global buffer back. */
  lemma HibernateTruth(s: State, ok: Outcome)
    requires TruthfulState(s)
    ensures var e := Sweep(UnlockEntries, s.entries, |s.entries|, ok, 0);
            var g := Sweep(UnlockGlobals, s.globals, |s.globals|, ok, e.calls);
            var f := Sweep(RelockGlobals, g.list, |g.list|, ok, g.calls);
            TruthfulState(Hibernated(s, ok).0) <==> AllSucceed(ok, 0, e.calls) && (!g.whole ==> AllSucceed(ok, g.calls, f.calls))
  {
    var e := Sweep(UnlockEntries, s.entries, |s.entries|, ok, 0);
    var g := Sweep(UnlockGlobals, s.globals, |s.globals|, ok, e.calls);
    SweepTruth(UnlockEntries, s.entries, |s.entries|, ok, 0);
    SweepTruth(UnlockGlobals, s.globals, |s.globals|, ok, e.calls);
    SweepTruth(RelockGlobals, g.list, |g.list|, ok, g.calls);
  }

  /** Restoring always does. */
  lemma RestoreTruth(s: State, ok: Outcome)
    requires TruthfulState(s)
    ensures TruthfulState(Restored(s, ok).0)
  {
    var g := Sweep(LockGlobals, s.globals, |s.globals|, ok, 0);
    SweepTruth(LockGlobals, s.globals, |s.globals|, ok, 0);
    SweepTruth(LockEntries, s.entries, |s.entries|, ok, g.calls);
  }

  /** One secure buffer of a process, and a hypervisor that refuses: hibernation succeeds and flags memory that was never
    handed over. */
  lemma UntrueFlag()
    ensures var s := State([Mem(true, false, false, 0, false)], []);
            var r := Hibernated(s, (n: nat) => false);
            TruthfulState(s) && r.1 && r.0.entries[0].hlos && !r.0.entries[0].owned && !TruthfulState(r.0)
  {
    var list := [Mem(true, false, false, 0, false)];
    var e := Sweep(UnlockEntries, list, 1, (n: nat) => false, 0);
    assert Sweep(UnlockEntries, list, 0, (n: nat) => false, 0) == Swept(list, true, 0);
    assert e.list[0] == Mem(true, false, true, 0, false);
  }

  // ---------------------------------------------------------------- the functions

  class AdrenoDevice {
    const entries: array<Mem>
    const globals: array<Mem>

    ghost function Value(): State
      reads entries, globals
    {
      State(entries[..], globals[..])
    }

    constructor (entries: array<Mem>, globals: array<Mem>)
      ensures this.entries == entries && this.globals == globals
    {
      this.entries := entries;
      this.globals := globals;
    }

    /** The loops of both functions, one at a time. */
    static method SweepInto(p: Pass, list: array<Mem>, ok: Outcome, calls0: nat) returns (whole: bool, calls: nat)
      modifies list
      ensures Swept(list[..], whole, calls) == Sweep(p, old(list[..]), list.Length, ok, calls0)
    {
      whole, calls := true, calls0;
      var n := 0;
      ghost var before := list[..];
      while n < list.Length
        invariant n <= list.Length
        invariant Swept(list[..], true, calls) == Sweep(p, before, n, ok, calls0)
        invariant forall k :: n <= k < list.Length ==> list[k] == before[k]
      {
        if Picks(p, list[n]) {
          var success := ok(calls);
          calls := calls + 1;
          if !success && Strict(p) {
            whole := false;
            StoppedSweep(p, before, n + 1, list.Length, ok, calls0);
            return;
          }
          list[n] := Changed(p, list[n], success);
        }
        n := n + 1;
      }
    }

    /** adreno_secure_pt_hibernate. */
    method Hibernate(ok: Outcome) returns (success: bool)
      requires entries != globals
      modifies entries, globals
      ensures (Value(), success) == Hibernated(old(Value()), ok)
    {
      var ignored, calls := SweepInto(UnlockEntries, entries, ok, 0);
      success, calls := SweepInto(UnlockGlobals, globals, ok, calls);
      if !success {
        ignored, calls := SweepInto(RelockGlobals, globals, ok, calls);
      }
    }

    /** adreno_secure_pt_restore. */
    method Restore(ok: Outcome) returns (success: bool)
      requires entries != globals
      modifies entries, globals
      ensures (Value(), success) == Restored(old(Value()), ok)
    {
      var calls;
      success, calls := SweepInto(LockGlobals, globals, ok, 0);
      if success {
        success, calls := SweepInto(LockEntries, entries, ok, calls);
      }
    }
  }

  /** A pass that has stopped does no more. */
  lemma {:induction false} StoppedSweep(p: Pass, list: seq<Mem>, n: nat, m: nat, ok: Outcome, calls: nat)
    requires n <= m <= |list| && !Sweep(p, list, n, ok, calls).whole
    ensures Sweep(p, list, m, ok, calls) == Sweep(p, list, n, ok, calls)
    decreases m
  {
    if n < m {
      StoppedSweep(p, list, n, m - 1, ok, calls);
    }
  }
}
