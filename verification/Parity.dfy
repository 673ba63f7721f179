/** The odd parity bit of a packet header field, computed with a table of sixteen bits. */
module Parity {
  /** The number of one bits. */
  function Ones(v: nat): nat {
    if v == 0 then 0 else v % 2 + Ones(v / 2)
  }

  /** Bitwise exclusive or. */
  function Xor(a: nat, b: nat): nat {
    if a == 0 && b == 0 then 0 else (if a % 2 == b % 2 then 0 else 1) + 2 * Xor(a / 2, b / 2)
  }

  /** The exclusive or of the low k nibbles. */
  function FoldNibbles(v: nat, k: nat): nat {
    if k == 0 then 0 else Xor(v % 16, FoldNibbles(v / 16, k - 1))
  }

  /** The bits of 0x9669, lowest first. */
  const TABLE: seq<nat> := [1, 0, 0, 1, 0, 1, 1, 0, 0, 1, 1, 0, 1, 0, 0, 1]

  function Entry(n: nat): (b: nat)
    requires n < 16
    ensures b < 2
  {
    TABLE[n]
  }

  /** The number the table's bits spell, from bit k up. */
  function ValueFrom(k: nat): nat
    requires k <= 16
    decreases 16 - k
  {
    if k == 16 then 0 else TABLE[k] + 2 * ValueFrom(k + 1)
  }

  lemma TableValue()
    ensures ValueFrom(0) == 0x9669
  {
    assert ValueFrom(12) == 0x9;
    assert ValueFrom(8) == 0x96;
    assert ValueFrom(4) == 0x966;
  }

  function Power(n: nat): (p: nat)
    ensures p > 0
  {
    if n == 0 then 1 else 2 * Power(n - 1)
  }

  /** pm4_calc_odd_parity_bit: all eight nibbles folded into one, and looked up. */
  function OddParity(v: nat): (p: nat)
    ensures p < 2
  {
    FoldedParity(v, 8)
  }

  /** The same for a value of k nibbles. */
  function FoldedParity(v: nat, k: nat): (p: nat)
    ensures p < 2
  {
    Entry(FoldNibbles(v, k) % 16)
  }

  lemma {:induction false} XorOnes(a: nat, b: nat)
    ensures (Ones(a) + Ones(b) + Ones(Xor(a, b))) % 2 == 0
  {
    if a != 0 || b != 0 {
      XorOnes(a / 2, b / 2);
      assert Xor(a, b) / 2 == Xor(a / 2, b / 2);
    }
  }

  lemma {:induction false} XorBound(a: nat, b: nat, k: nat)
    requires a < Power(k) && b < Power(k)
    ensures Xor(a, b) < Power(k)
  {
    if k > 0 && (a != 0 || b != 0) {
      XorBound(a / 2, b / 2, k - 1);
    }
  }

  lemma OnesBit(v: nat)
    ensures Ones(v) == v % 2 + Ones(v / 2)
  {
  }

  lemma TwoDigits(v: nat)
    ensures v % 4 % 2 == v % 2 && v % 4 / 2 == v / 2 % 2 && v / 2 / 2 == v / 4
  {
  }

  lemma OnesTwoBits(v: nat)
    ensures Ones(v) == Ones(v % 4) + Ones(v / 4)
  {
    TwoDigits(v);
    OnesBit(v);
    OnesBit(v / 2);
    OnesBit(v % 4);
    assert Ones(v % 4 / 2) == v % 4 / 2;
  }

  lemma NibbleDigits(v: nat)
    ensures v % 16 % 4 == v % 4 && v % 16 / 4 == v / 4 % 4 && v / 4 / 4 == v / 16
  {
  }

  lemma OnesNibble(v: nat)
    ensures Ones(v) == Ones(v % 16) + Ones(v / 16)
  {
    NibbleDigits(v);
    OnesTwoBits(v);
    OnesTwoBits(v / 4);
    OnesTwoBits(v % 16);
  }

  lemma TableIsParity(n: nat)
    requires n < 16
    ensures (Ones(n) + Entry(n)) % 2 == 1
  {
    if n < 8 {
      assert Ones(0) == 0 && Ones(1) == 1 && Ones(2) == 1 && Ones(3) == 2;
      assert Ones(4) == 1 && Ones(5) == 2 && Ones(6) == 2 && Ones(7) == 3;
    } else {
      UpperTable(n);
    }
  }

  lemma UpperTable(n: nat)
    requires 8 <= n < 16
    ensures (Ones(n) + Entry(n)) % 2 == 1
  {
    if n < 12 {
      assert Ones(8) == 1 && Ones(9) == 2 && Ones(10) == 2 && Ones(11) == 3;
    } else {
      TopTable(n);
    }
  }

  lemma TopTable(n: nat)
    requires 12 <= n < 16
    ensures (Ones(n) + Entry(n)) % 2 == 1
  {
    assert Ones(12) == 2 && Ones(13) == 3 && Ones(14) == 3 && Ones(15) == 4;
  }

  lemma Masked(n: nat)
    requires n < 16
    ensures n % 16 == n
  {
  }

  lemma MaskedTable(n: nat)
    requires n < 16
    ensures (Ones(n) + Entry(n % 16)) % 2 == 1
  {
    TableIsParity(n);
    Masked(n);
  }

  function Sixteens(k: nat): nat {
    if k == 0 then 1 else 16 * Sixteens(k - 1)
  }

  lemma XorNibbles(a: nat, b: nat)
    requires a < 16 && b < 16
    ensures Xor(a, b) < 16 && (Ones(a) + Ones(b) + Ones(Xor(a, b))) % 2 == 0
  {
    assert Power(4) == 16;
    XorBound(a, b, 4);
    XorOnes(a, b);
  }

  lemma EvenChain(a: nat, b: nat, c: nat, d: nat)
    requires (b + c) % 2 == 0 && (a + c + d) % 2 == 0
    ensures (a + b + d) % 2 == 0
  {
  }

  lemma {:induction false} FoldOnes(v: nat, k: nat)
    requires v < Sixteens(k)
    ensures FoldNibbles(v, k) < 16 && (Ones(v) + Ones(FoldNibbles(v, k))) % 2 == 0
    decreases k, 1
  {
    if k > 0 {
      FoldStep(v, k);
    } else {
      assert v == 0;
    }
  }

  lemma FoldStep(v: nat, k: nat)
    requires k > 0 && v < Sixteens(k)
    ensures FoldNibbles(v, k) < 16 && (Ones(v) + Ones(FoldNibbles(v, k))) % 2 == 0
    decreases k, 0
  {
    var rest := FoldNibbles(v / 16, k - 1);
    var all := FoldNibbles(v, k);
    assert all == Xor(v % 16, rest);
    FoldOnes(v / 16, k - 1);
    OnesNibble(v);
    XorNibbles(v % 16, rest);
    EvenChain(Ones(v % 16), Ones(v / 16), Ones(rest), Ones(all));
  }

  lemma EightNibbles()
    ensures Sixteens(8) == 0x1_0000_0000
  {
  }

  lemma OddChain(a: nat, b: nat, c: nat)
    requires (a + b) % 2 == 0 && (b + c) % 2 == 1
    ensures (a + c) % 2 == 1
  {
  }

  lemma Lookup(ones: nat, n: nat)
    requires n < 16 && (ones + Ones(n)) % 2 == 0
    ensures (ones + Entry(n % 16)) % 2 == 1
  {
    MaskedTable(n);
    OddChain(ones, Ones(n), Entry(n % 16));
  }

  lemma Folded(v: nat, k: nat) returns (n: nat)
    requires v < Sixteens(k)
    ensures n < 16 && (Ones(v) + Ones(n)) % 2 == 0 && FoldedParity(v, k) == Entry(n % 16)
  {
    n := FoldNibbles(v, k);
    FoldOnes(v, k);
  }

  lemma FoldedIsOdd(v: nat, k: nat)
    requires v < Sixteens(k)
    ensures (Ones(v) + FoldedParity(v, k)) % 2 == 1
  {
    var n := Folded(v, k);
    Lookup(Ones(v), n);
  }

  /** A word and its parity bit together have an odd number of ones. */
  lemma ParityIsOdd(v: nat)
    requires v < 0x1_0000_0000
    ensures (Ones(v) + OddParity(v)) % 2 == 1
  {
    EightNibbles();
    FoldedIsOdd(v, 8);
  }
}
