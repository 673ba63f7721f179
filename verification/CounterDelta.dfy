/** counter_delta: how far a 32-bit hardware counter got since it was last read. */
module CounterDelta {
  const WRAP := 0x1_0000_0000

  type Word = w: int | 0 <= w < WRAP

  /** What is returned for a stored sample and the value read: UINT_MAX, not 2^32, is added when the counter wrapped. */
  function Delta(counter: Word, value: Word): Word {
    if counter == 0 then 0
    else if value >= counter then value - counter
    else WRAP - 1 - counter + value
  }

  class PerfCounter {
    var counter: Word

    constructor ()
      ensures counter == 0
    {
      counter := 0;
    }

    /** `value` is what kgsl_regread finds. */
    method Sample(reg: nat, value: Word) returns (delta: Word)
      modifies this
      ensures reg == 0 ==> delta == 0 && counter == old(counter)
      ensures reg != 0 ==> delta == Delta(old(counter), value) && counter == value
    {
      delta := 0;
      if reg == 0 {
        return;
      }
      if counter != 0 {
        if value >= counter {
          delta := value - counter;
        } else {
          delta := (WRAP - 1 - counter) + value;
        }
      }
      counter := value;
    }
  }

  // ---------------------------------------------------------------- runs

  /** A true count read often enough: it never goes back, nor on by a whole turn of the counter between two samples. */
  predicate Sampled(counts: seq<nat>) {
    forall i :: 1 <= i < |counts| ==> counts[i - 1] <= counts[i] < counts[i - 1] + WRAP
  }

  function Read(count: nat): Word {
    count % WRAP
  }

  /** The results of all samples added up; the first finds a stored 0. */
  function Sum(counts: seq<nat>): nat {
    if |counts| < 2 then 0
    else
      var n := |counts| - 1;
      Sum(counts[..n]) + Delta(Read(counts[n - 1]), Read(counts[n]))
  }

  /** How often the counter wrapped behind a sample that was not 0. */
  function Wraps(counts: seq<nat>): nat {
    if |counts| < 2 then 0
    else
      var n := |counts| - 1;
      Wraps(counts[..n]) + if Read(counts[n - 1]) != 0 && Read(counts[n]) < Read(counts[n - 1]) then 1 else 0
  }

  /** All values read right after a sample of 0. */
  function Lost(counts: seq<nat>): nat {
    if |counts| < 2 then 0
    else
      var n := |counts| - 1;
      Lost(counts[..n]) + if Read(counts[n - 1]) == 0 then Read(counts[n]) else 0
  }

  lemma Advance(a: nat, b: nat)
    requires a <= b < a + WRAP
    ensures Read(b) == if Read(a) + (b - a) < WRAP then Read(a) + (b - a) else Read(a) + (b - a) - WRAP
  {
  }

  /** The results add up to the true advance since the first sample, less one for each wrap, less what was read right after
    each 0: they never overcount, and are exact just when neither occurs. */
  lemma {:induction false} Telescopes(counts: seq<nat>)
    requires Sampled(counts) && counts != []
    ensures counts[0] <= counts[|counts| - 1]
    ensures Sum(counts) + Wraps(counts) + Lost(counts) == counts[|counts| - 1] - counts[0]
  {
    if |counts| >= 2 {
      var n := |counts| - 1;
      Telescopes(counts[..n]);
      Advance(counts[n - 1], counts[n]);
    }
  }
}
