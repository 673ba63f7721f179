/** PM4 packets: headers as the driver packs them, and the parser its own macros amount to. */
module Pm4 {
  import Parity

  type Word = w: int | 0 <= w < 0x1_0000_0000

  datatype Option<+T> = None | Some(value: T)

  datatype Kind = Type0 | Type3 | Type4 | Type7

  /** `id` is an opcode (types 3 and 7) or the first register written (types 0 and 4). */
  datatype Packet = Packet(kind: Kind, id: nat, payload: seq<Word>)

  /** A 64-bit value as the two dwords lower_32_bits and upper_32_bits make of it. */
  datatype Quad = Quad(lo: Word, hi: Word) {
    function Value(): nat {
      hi * 0x1_0000_0000 + lo
    }
  }

  function Split(v: nat): Quad
    requires v < 0x1_0000_0000_0000_0000
  {
    Quad(v % 0x1_0000_0000, v / 0x1_0000_0000)
  }

  /** Splitting loses nothing. */
  lemma SplitValue(v: nat, q: Quad)
    requires v < 0x1_0000_0000_0000_0000
    ensures Split(v).Value() == v && q.Value() < 0x1_0000_0000_0000_0000 && Split(q.Value()) == q
  {
  }

  // ---------------------------------------------------------------- headers

  /** What a header of this kind can say, and its own decoder will still accept: a type 3 opcode above 0x7F would set a
    bit that pkt_is_type3 wants clear. */
  predicate Encodable(kind: Kind, id: nat, count: nat) {
    match kind
    case Type0 => id < 0x8000 && 1 <= count <= 0x4000
    case Type3 => id < 0x80 && 1 <= count <= 0x4000
    case Type4 => id < 0x4_0000 && count < 0x80
    case Type7 => id < 0x80 && count < 0x4000
  }

  /** cp_type0_packet, cp_type3_packet, cp_type4_packet, cp_type7_packet. */
  function Header(kind: Kind, id: nat, count: nat): Word
    requires Encodable(kind, id, count)
  {
    match kind
    case Type0 => (count - 1) * 0x1_0000 + id
    case Type3 => 0xC000_0000 + (count - 1) * 0x1_0000 + id * 0x100
    case Type4 => Pack4(id, count, Parity.OddParity(id), Parity.OddParity(count))
    case Type7 => Pack7(id, count, Parity.OddParity(id), Parity.OddParity(count))
  }

  function Pack4(id: nat, count: nat, p: nat, q: nat): Word
    requires id < 0x4_0000 && count < 0x80 && p < 2 && q < 2
  {
    0x4000_0000 + p * 0x800_0000 + id * 0x100 + q * 0x80 + count
  }

  function Pack7(id: nat, count: nat, p: nat, q: nat): Word
    requires id < 0x80 && count < 0x4000 && p < 2 && q < 2
  {
    0x7000_0000 + p * 0x80_0000 + id * 0x1_0000 + q * 0x8000 + count
  }

  datatype Head = Head(kind: Kind, id: nat, count: nat)

  /** pkt_is_type0, 3, 4 and 7, and the fields their companions extract. */
  function Decode(h: Word): Option<Head> {
    if h / 0x4000_0000 == 0 then
      Some(Head(Type0, h % 0x8000, h / 0x1_0000 % 0x4000 + 1))
    else if h / 0x4000_0000 == 3 then
      if h / 2 % 0x80 == 0 && h / 0x8000 % 2 == 0 then
        Some(Head(Type3, h / 0x100 % 0x100, h / 0x1_0000 % 0x4000 + 1))
      else None
    else if h / 0x1000_0000 == 4 then
      var id, count := h / 0x100 % 0x8_0000, h % 0x80;
      if h / 0x800_0000 % 2 == Parity.OddParity(id) && h / 0x80 % 2 == Parity.OddParity(count) then
        Some(Head(Type4, id, count))
      else None
    else if h / 0x1000_0000 == 7 && h / 0x100_0000 % 0x10 == 0 then
      var id, count := h / 0x1_0000 % 0x80, h % 0x4000;
      if h / 0x80_0000 % 2 == Parity.OddParity(id) && h / 0x8000 % 2 == Parity.OddParity(count) then
        Some(Head(Type7, id, count))
      else None
    else None
  }

  lemma Fields4(id: nat, count: nat, p: nat, q: nat)
    requires id < 0x4_0000 && count < 0x80 && p < 2 && q < 2
    ensures var h := Pack4(id, count, p, q);
            && h / 0x1000_0000 == 4 && h / 0x4000_0000 == 1
            && h / 0x100 % 0x8_0000 == id && h % 0x80 == count
            && h / 0x800_0000 % 2 == p && h / 0x80 % 2 == q
  {
    var h := Pack4(id, count, p, q);
    assert h / 0x80 == 0x80_0000 + p * 0x10_0000 + id * 2 + q;
    assert h / 0x100 == 0x40_0000 + p * 0x8_0000 + id;
    assert h / 0x800_0000 == 8 + p;
  }

  lemma Fields7(id: nat, count: nat, p: nat, q: nat)
    requires id < 0x80 && count < 0x4000 && p < 2 && q < 2
    ensures var h := Pack7(id, count, p, q);
            && h / 0x1000_0000 == 7 && h / 0x4000_0000 == 1 && h / 0x100_0000 % 0x10 == 0
            && h / 0x1_0000 % 0x80 == id && h % 0x4000 == count
            && h / 0x80_0000 % 2 == p && h / 0x8000 % 2 == q
  {
    var h := Pack7(id, count, p, q);
    assert h / 0x8000 == 0xE000 + p * 0x100 + id * 2 + q;
    assert h / 0x1_0000 == 0x7000 + p * 0x80 + id;
    assert h / 0x80_0000 == 0xE0 + p;
  }

  lemma Fields3(id: nat, n: nat)
    requires id < 0x80 && n < 0x4000
    ensures var h := 0xC000_0000 + n * 0x1_0000 + id * 0x100;
            && h / 2 % 0x80 == 0 && h / 0x8000 % 2 == 0 && h / 0x100 % 0x100 == id
  {
    var h := 0xC000_0000 + n * 0x1_0000 + id * 0x100;
    assert h / 2 == 0x6000_0000 + n * 0x8000 + id * 0x80;
    assert h / 0x100 == 0xC0_0000 + n * 0x100 + id;
    assert h / 0x8000 == 0x1_8000 + n * 2;
  }

  lemma Count3(id: nat, n: nat)
    requires id < 0x80 && n < 0x4000
    ensures var h := 0xC000_0000 + n * 0x1_0000 + id * 0x100;
            h / 0x4000_0000 == 3 && h / 0x1_0000 % 0x4000 == n
  {
    var h := 0xC000_0000 + n * 0x1_0000 + id * 0x100;
    assert h / 0x1_0000 == 0xC000 + n;
  }

  /** Every header has these bits, and decodes to what it was made of. */
  lemma HeaderDecodes(kind: Kind, id: nat, count: nat)
    requires Encodable(kind, id, count)
    ensures Header(kind, id, count)
         == match kind
            case Type0 => (count - 1) * 0x1_0000 + id
            case Type3 => 0xC000_0000 + (count - 1) * 0x1_0000 + id * 0x100
            case Type4 =>
              0x4000_0000 + Parity.OddParity(id) * 0x800_0000 + id * 0x100 + Parity.OddParity(count) * 0x80 + count
            case Type7 =>
              0x7000_0000 + Parity.OddParity(id) * 0x80_0000 + id * 0x1_0000 + Parity.OddParity(count) * 0x8000 + count
    ensures Decode(Header(kind, id, count)) == Some(Head(kind, id, count))
  {
    match kind
    case Type0 => Decodes0(id, count);
    case Type3 => Decodes3(id, count);
    case Type4 => Fields4(id, count, Parity.OddParity(id), Parity.OddParity(count));
    case Type7 => Fields7(id, count, Parity.OddParity(id), Parity.OddParity(count));
  }

  lemma Decodes0(id: nat, count: nat)
    requires Encodable(Type0, id, count)
    ensures Decode(Header(Type0, id, count)) == Some(Head(Type0, id, count))
  {
    var h := Header(Type0, id, count);
    assert h / 0x1_0000 == count - 1;
    assert h / 0x4000_0000 == 0;
  }

  lemma Decodes3(id: nat, count: nat)
    requires Encodable(Type3, id, count)
    ensures Decode(Header(Type3, id, count)) == Some(Head(Type3, id, count))
  {
    Fields3(id, count - 1);
    Count3(id, count - 1);
  }

  // ---------------------------------------------------------------- packets

  predicate Fits(p: Packet) {
    Encodable(p.kind, p.id, |p.payload|)
  }

  predicate AllFit(ps: seq<Packet>) {
    forall p :: p in ps ==> Fits(p)
  }

  function Encode(p: Packet): (dwords: seq<Word>)
    requires Fits(p)
  {
    [Header(p.kind, p.id, |p.payload|)] + p.payload
  }

  function EncodeAll(ps: seq<Packet>): seq<Word>
    requires AllFit(ps)
  {
    if ps == [] then [] else EncodeAll(ps[..|ps| - 1]) + Encode(ps[|ps| - 1])
  }

  /** The packets of a stream; None if its headers do not tile it exactly. */
  function Parse(dwords: seq<Word>): Option<seq<Packet>>
    decreases |dwords|, 1
  {
    if dwords == [] then Some([])
    else
      var head := Decode(dwords[0]);
      if head == None then None else ParseAfter(head.value, dwords)
  }

  /** The rest of a stream whose first header is known. */
  function ParseAfter(head: Head, dwords: seq<Word>): Option<seq<Packet>>
    decreases |dwords|, 0
  {
    var n := head.count + 1;
    if n > |dwords| then None
    else
      var rest := Parse(dwords[n..]);
      if rest == None then None
      else Some([Packet(head.kind, head.id, dwords[1..n])] + rest.value)
  }

  lemma ParsesAfter(dwords: seq<Word>, head: Head)
    requires dwords != [] && Decode(dwords[0]) == Some(head)
    ensures Parse(dwords) == ParseAfter(head, dwords)
  {
  }

  lemma ParseOne(p: Packet, rest: seq<Word>)
    requires Fits(p) && Parse(rest).Some?
    ensures Parse(Encode(p) + rest) == Some([p] + Parse(rest).value)
  {
    HeaderDecodes(p.kind, p.id, |p.payload|);
    var all := Encode(p) + rest;
    var n := |p.payload| + 1;
    ParsesAfter(all, Head(p.kind, p.id, |p.payload|));
    assert all[1..n] == p.payload;
    assert all[n..] == rest;
  }

  lemma ParseSingle(p: Packet)
    requires Fits(p)
    ensures Parse(Encode(p)) == Some([p])
  {
    ParseOne(p, []);
    assert Encode(p) + [] == Encode(p);
    assert [p] + [] == [p];
  }

  /** Streams that each parse, parse in sequence. */
  lemma {:induction false} ParseConcat(a: seq<Word>, b: seq<Word>)
    requires Parse(a).Some? && Parse(b).Some?
    ensures Parse(a + b) == Some(Parse(a).value + Parse(b).value)
    decreases |a|, 1
  {
    if a == [] {
      assert a + b == b;
      assert [] + Parse(b).value == Parse(b).value;
    } else {
      var head := Decode(a[0]).value;
      ParsesAfter(a, head);
      ParsesAfter(a + b, head);
      ParseConcatAfter(head, a, b);
    }
  }

  lemma ParseConcatAfter(head: Head, a: seq<Word>, b: seq<Word>)
    requires ParseAfter(head, a).Some? && Parse(b).Some?
    ensures ParseAfter(head, a + b) == Some(ParseAfter(head, a).value + Parse(b).value)
    decreases |a|, 0
  {
    var n := head.count + 1;
    ParseConcat(a[n..], b);
    Slices(a, b, n);
    Regroup([Packet(head.kind, head.id, a[1..n])], Parse(a[n..]).value, Parse(b).value);
  }

  lemma Slices<T>(a: seq<T>, b: seq<T>, n: nat)
    requires 1 <= n <= |a|
    ensures (a + b)[n..] == a[n..] + b && (a + b)[1..n] == a[1..n]
  {
  }

  /** The last element of a concatenation, and what comes before it. */
  lemma LastOfBoth<T>(a: seq<T>, b: seq<T>)
    requires b != []
    ensures var all, n := a + b, |a| + |b| - 1;
            all[..n] == a + b[..|b| - 1] && all[n] == b[|b| - 1]
  {
  }

  lemma Regroup<T>(a: seq<T>, b: seq<T>, c: seq<T>)
    ensures (a + b) + c == a + (b + c)
  {
  }

  /** Encoding and parsing are a round trip. */
  lemma {:induction false} ParseEncoded(ps: seq<Packet>)
    requires AllFit(ps)
    ensures Parse(EncodeAll(ps)) == Some(ps)
  {
    if ps != [] {
      var n := |ps| - 1;
      ParseEncoded(ps[..n]);
      ParseSingle(ps[n]);
      ParseConcat(EncodeAll(ps[..n]), Encode(ps[n]));
      assert ps[..n] + [ps[n]] == ps;
    }
  }

  /** How many dwords packets take up. */
  function Size(ps: seq<Packet>): nat {
    if ps == [] then 0 else Size(ps[..|ps| - 1]) + 1 + |ps[|ps| - 1].payload|
  }

  lemma {:induction false} EncodedSize(ps: seq<Packet>)
    requires AllFit(ps)
    ensures |EncodeAll(ps)| == Size(ps)
  {
    if ps != [] {
      EncodedSize(ps[..|ps| - 1]);
    }
  }

  lemma {:induction false} SizeConcat(a: seq<Packet>, b: seq<Packet>)
    ensures Size(a + b) == Size(a) + Size(b)
  {
    if b == [] {
      assert a + b == a;
    } else {
      SizeConcat(a, b[..|b| - 1]);
      assert (a + b)[..|a + b| - 1] == a + b[..|b| - 1];
    }
  }

  lemma EncodeNext(ps: seq<Packet>, p: Packet)
    requires AllFit(ps) && Fits(p)
    ensures AllFit(ps + [p]) && EncodeAll(ps + [p]) == EncodeAll(ps) + Encode(p)
  {
    assert (ps + [p])[..|ps|] == ps;
  }

  lemma SizeOne(p: Packet)
    ensures Size([p]) == 1 + |p.payload|
  {
    assert [p][..0] == [];
  }

  lemma SizeIf(on: bool, p: Packet)
    ensures Size(if on then [p] else []) == if on then 1 + |p.payload| else 0
  {
    if on { SizeOne(p); }
  }

  predicate Within(ps: seq<Packet>, n: nat) {
    AllFit(ps) && Size(ps) <= n
  }

  lemma WithinThen(a: seq<Packet>, i: nat, b: seq<Packet>, j: nat)
    requires Within(a, i) && Within(b, j)
    ensures Within(a + b, i + j)
  {
    SizeConcat(a, b);
  }

  lemma WithinIf(on: bool, p: Packet)
    requires Fits(p)
    ensures Within(if on then [p] else [], 1 + |p.payload|)
  {
    SizeIf(on, p);
  }
}
