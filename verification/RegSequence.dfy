/** Register sequences: what _execute_reg_sequence does with any words, and with encoded operations. */
module RegSequence {
  import opened Pm4

  datatype Operation = Write32(reg: Quad, value: Word) | Write64(reg: Quad, wide: Quad) | Delay(usec: Word)

  datatype Effect = RegWrite(offset: nat, word: nat) | Udelay(time: Word)

  /** What an operation asks for: a write of its value to its register, both of which may be 64 bits wide. */
  function Wish(op: Operation): Effect {
    match op
    case Write32(reg, value) => RegWrite(reg.Value(), value)
    case Write64(reg, wide) => RegWrite(reg.Value(), wide.Value())
    case Delay(usec) => Udelay(usec)
  }

  function Wishes(ops: seq<Operation>): seq<Effect> {
    if ops == [] then [] else Wishes(ops[..|ops| - 1]) + [Wish(ops[|ops| - 1])]
  }

  /** What is done: kgsl_regwrite takes 32-bit arguments, and the upper half of a register number or a value goes no
    further. */
  function Effect32(op: Operation): Effect {
    match op
    case Write32(reg, value) => RegWrite(reg.lo, value)
    case Write64(reg, wide) => RegWrite(reg.lo, wide.lo)
    case Delay(usec) => Udelay(usec)
  }

  function Effects(ops: seq<Operation>): seq<Effect> {
    if ops == [] then [] else Effects(ops[..|ops| - 1]) + [Effect32(ops[|ops| - 1])]
  }

  function Encode(op: Operation): seq<Word> {
    match op
    case Write32(reg, value) => [1, reg.lo, reg.hi, value]
    case Write64(reg, wide) => [2, reg.lo, reg.hi, wide.lo, wide.hi]
    case Delay(usec) => [3, usec]
  }

  function EncodeAll(ops: seq<Operation>): seq<Word> {
    if ops == [] then [] else Encode(ops[0]) + EncodeAll(ops[1..])
  }

  /** The operation at the front of some words, if there is a whole one. */
  function Front(words: seq<Word>): (op: Option<Operation>)
    ensures op.Some? ==> 0 < |Encode(op.value)| <= |words|
  {
    if |words| >= 4 && words[0] == 1 then Some(Write32(Quad(words[1], words[2]), words[3]))
    else if |words| >= 5 && words[0] == 2 then Some(Write64(Quad(words[1], words[2]), Quad(words[3], words[4])))
    else if |words| >= 2 && words[0] == 3 then Some(Delay(words[1]))
    else None
  }

  /** As many operations as can be read one after the other, and the words left over. */
  function Decode(words: seq<Word>): (result: (seq<Operation>, seq<Word>))
    decreases |words|
  {
    var op := Front(words);
    if op == None then ([], words)
    else
      var rest := Decode(words[|Encode(op.value)|..]);
      ([op.value] + rest.0, rest.1)
  }

  lemma FrontEncoded(words: seq<Word>)
    requires Front(words).Some?
    ensures var op := Front(words).value; words[..|Encode(op)|] == Encode(op)
  {
  }

  lemma FrontOfEncoded(op: Operation, rest: seq<Word>)
    ensures Front(Encode(op) + rest) == Some(op)
  {
  }

  lemma EncodeCons(op: Operation, ops: seq<Operation>)
    ensures EncodeAll([op] + ops) == Encode(op) + EncodeAll(ops)
  {
    assert ([op] + ops)[1..] == ops;
  }

  lemma Rejoin(words: seq<Word>, n: nat, a: seq<Word>, b: seq<Word>)
    requires n <= |words| && words[n..] == a + b
    ensures words == (words[..n] + a) + b
  {
  }

  /** What the words mean: 1 writes a value to a register, 2 a wide value to one, 3 waits; registers and wide values take two
    words, the lower half first, and only lower halves are written. Anything else is not read. */
  lemma FrontExactly(a: Word, b: Word, c: Word, d: Word, rest: seq<Word>)
    ensures Front([1, a, b, c] + rest) == Some(Write32(Quad(a, b), c)) && Effect32(Write32(Quad(a, b), c)) == RegWrite(a, c)
    ensures Front([2, a, b, c, d] + rest) == Some(Write64(Quad(a, b), Quad(c, d)))
         && Effect32(Write64(Quad(a, b), Quad(c, d))) == RegWrite(a, c)
    ensures Front([3, a] + rest) == Some(Delay(a)) && Effect32(Delay(a)) == Udelay(a)
    ensures a == 0 || a > 3 ==> Front([a] + rest) == None
    ensures |rest| < 3 ==> Front([1] + rest) == None
    ensures |rest| < 4 ==> Front([2] + rest) == None
    ensures Front([3]) == None && Front([]) == None
  {
  }

  /** What is decoded is an encoding, and nothing more can be read behind it. */
  lemma {:induction false} DecodeExact(words: seq<Word>)
    ensures var d := Decode(words); words == EncodeAll(d.0) + d.1 && Front(d.1) == None
    decreases |words|
  {
    var op := Front(words);
    if op.Some? {
      var n := |Encode(op.value)|;
      FrontEncoded(words);
      DecodeExact(words[n..]);
      EncodeCons(op.value, Decode(words[n..]).0);
      Rejoin(words, n, EncodeAll(Decode(words[n..]).0), Decode(words[n..]).1);
    }
  }

  /** Encoding any list of operations and reading it back is a round trip. */
  lemma {:induction false} RoundTrip(ops: seq<Operation>)
    ensures Decode(EncodeAll(ops)) == (ops, [])
  {
    if ops != [] {
      RoundTrip(ops[1..]);
      FrontOfEncoded(ops[0], EncodeAll(ops[1..]));
      assert EncodeAll(ops)[|Encode(ops[0])|..] == EncodeAll(ops[1..]);
      assert [ops[0]] + ops[1..] == ops;
    }
  }

  /** No other reading gets further: any operations whose encoding the words begin with are among those decoded. */
  lemma {:induction false} DecodeLongest(words: seq<Word>, ops: seq<Operation>)
    requires EncodeAll(ops) <= words
    ensures ops <= Decode(words).0
    decreases |ops|
  {
    if ops != [] {
      var n := |Encode(ops[0])|;
      var all := EncodeAll(ops);
      assert words[..n] == Encode(ops[0]) by { assert all[..n] == Encode(ops[0]); }
      assert words == Encode(ops[0]) + words[n..];
      FrontOfEncoded(ops[0], words[n..]);
      assert EncodeAll(ops[1..]) == all[n..] <= words[n..];
      DecodeLongest(words[n..], ops[1..]);
      assert ops == [ops[0]] + ops[1..];
    }
  }

  lemma DecodeNext(done: seq<Operation>, words: seq<Word>, op: Operation)
    requires Front(words) == Some(op)
    ensures var rest := Decode(words[|Encode(op)|..]);
            done + Decode(words).0 == (done + [op]) + rest.0 && Decode(words).1 == rest.1
  {
    Regroup(done, [op], Decode(words[|Encode(op)|..]).0);
  }

  lemma EffectsNext(done: seq<Operation>, op: Operation)
    ensures Effects(done + [op]) == Effects(done) + [Effect32(op)]
  {
    assert (done + [op])[..|done|] == done;
  }

  /** One turn of the loop: the operation at `cur`, what it does, and where the next one starts. */
  method Step(opcode: array<Word>, cur: nat) returns (op: Option<Operation>, effect: seq<Effect>, next: nat)
    requires cur < opcode.Length
    ensures op == Front(opcode[..][cur..]) && cur <= next <= opcode.Length
    ensures if op.Some? then next == cur + |Encode(op.value)| && effect == [Effect32(op.value)] else next == cur && effect == []
  {
    var length := opcode.Length - cur;
    op, effect, next := None, [], cur;
    if opcode[cur] == 1 && length >= 4 {
      op := Some(Write32(Quad(opcode[cur + 1], opcode[cur + 2]), opcode[cur + 3]));
      effect := [RegWrite(opcode[cur + 1], opcode[cur + 3])];
      next := cur + 4;
    } else if opcode[cur] == 2 && length >= 5 {
      op := Some(Write64(Quad(opcode[cur + 1], opcode[cur + 2]), Quad(opcode[cur + 3], opcode[cur + 4])));
      effect := [RegWrite(opcode[cur + 1], opcode[cur + 3])];
      next := cur + 5;
    } else if opcode[cur] == 3 && length >= 2 {
      op := Some(Delay(opcode[cur + 1]));
      effect := [Udelay(opcode[cur + 1])];
      next := cur + 2;
    }
  }

  function Joined(done: seq<Operation>, rest: (seq<Operation>, seq<Word>)): (seq<Operation>, seq<Word>) {
    (done + rest.0, rest.1)
  }

  /** What has been done, and what is still to be read, make up what can be read of the whole. */
  predicate SoFar(words: seq<Word>, cur: nat, done: seq<Operation>, log: seq<Effect>) {
    cur <= |words| && log == Effects(done) && Decode(words) == Joined(done, Decode(words[cur..]))
  }

  lemma SoFarStarts(words: seq<Word>)
    ensures SoFar(words, 0, [], [])
  {
    assert words[0..] == words;
    assert [] + Decode(words).0 == Decode(words).0;
  }

  lemma SoFarNext(words: seq<Word>, cur: nat, done: seq<Operation>, log: seq<Effect>, op: Operation)
    requires cur <= |words| && Front(words[cur..]) == Some(op)
    ensures SoFar(words, cur, done, log) ==> SoFar(words, cur + |Encode(op)|, done + [op], log + [Effect32(op)])
  {
    DecodeNext(done, words[cur..], op);
    EffectsNext(done, op);
    assert words[cur..][|Encode(op)|..] == words[cur + |Encode(op)|..];
  }

  lemma SoFarEnds(words: seq<Word>, cur: nat, done: seq<Operation>, log: seq<Effect>)
    requires cur <= |words| && Front(words[cur..]) == None
    ensures SoFar(words, cur, done, log) ==> log == Effects(Decode(words).0) && Decode(words).1 == words[cur..]
  {
    assert done + [] == done;
  }

  /** ... with what it adds to what has been done. */
  lemma SoFarTurns(words: seq<Word>, cur: nat, done: seq<Operation>, log: seq<Effect>, op: Option<Operation>)
      returns (more: seq<Operation>)
    requires cur < |words| && op == Front(words[cur..])
    ensures op == None && SoFar(words, cur, done, log) ==> log == Effects(Decode(words).0) && Decode(words).1 != []
    ensures op.Some? && SoFar(words, cur, done, log) ==>
              SoFar(words, cur + |Encode(op.value)|, more, log + [Effect32(op.value)])
  {
    if op == None {
      SoFarEnds(words, cur, done, log);
      more := done;
    } else {
      SoFarNext(words, cur, done, log, op.value);
      more := done + [op.value];
    }
  }

  /** _execute_reg_sequence: it performs the operations it can read, and fails if words are left over. */
  method Execute(opcode: array<Word>) returns (ok: bool, log: seq<Effect>)
    ensures log == Effects(Decode(opcode[..]).0)
    ensures ok <==> Decode(opcode[..]).1 == []
  {
    var cur := 0;
    log := [];
    ok := true;
    ghost var words := opcode[..];
    ghost var done: seq<Operation> := [];
    SoFarStarts(words);
    while cur < opcode.Length
      invariant SoFar(words, cur, done, log)
    {
      var op, effect, next := Step(opcode, cur);
      done := SoFarTurns(words, cur, done, log, op);
      if op == None {
        return false, log;
      }
      log := log + effect;
      cur := next;
    }
    assert words[cur..] == [];
    SoFarEnds(words, cur, done, log);
  }

  /** Run on an encoding, the interpreter performs exactly that list and succeeds; and it succeeds on nothing else. */
  lemma ExactlyEncodings(words: seq<Word>)
    ensures Decode(words).1 == [] <==> exists ops :: words == EncodeAll(ops)
  {
    DecodeExact(words);
    if Decode(words).1 == [] {
      assert words == EncodeAll(Decode(words).0);
    }
    forall ops | words == EncodeAll(ops) ensures Decode(words).1 == [] {
      RoundTrip(ops);
    }
  }

  /** No upper half is in use. */
  predicate Narrow(op: Operation) {
    match op
    case Write32(reg, _) => reg.hi == 0
    case Write64(reg, wide) => reg.hi == 0 && wide.hi == 0
    case Delay(_) => true
  }

  predicate AllNarrow(ops: seq<Operation>) {
    forall k :: 0 <= k < |ops| ==> Narrow(ops[k])
  }

  lemma NarrowExactly(op: Operation)
    ensures Effect32(op) == Wish(op) <==> Narrow(op)
  {
  }

  /** What the interpreter does is what the operations ask for exactly if none of them uses an upper half. */
  lemma {:induction false} WideWrites(ops: seq<Operation>)
    ensures |Effects(ops)| == |Wishes(ops)| == |ops|
    ensures Effects(ops) == Wishes(ops) <==> AllNarrow(ops)
  {
    if ops != [] {
      var before, last := ops[..|ops| - 1], ops[|ops| - 1];
      WideWrites(before);
      NarrowExactly(last);
      LastEqual(Effects(before), Effect32(last), Wishes(before), Wish(last));
      assert AllNarrow(ops) <==> AllNarrow(before) && Narrow(last);
    }
  }

  lemma LastEqual<T>(a: seq<T>, x: T, b: seq<T>, y: T)
    requires |a| == |b|
    ensures a + [x] == b + [y] <==> a == b && x == y
  {
    if a + [x] == b + [y] {
      assert (a + [x])[..|a|] == a && (b + [y])[..|b|] == b;
      assert (a + [x])[|a|] == x && (b + [y])[|b|] == y;
    }
  }

  /** For a sequence as the interpreter takes it: it does all that the operations it reads ask for exactly if those use no
    upper half. The shortest sequence that fails writes 1 in the upper half of a value. */
  lemma WideSequence(words: seq<Word>)
    ensures Effects(Decode(words).0) == Wishes(Decode(words).0) <==> AllNarrow(Decode(words).0)
    ensures var lost := [2, 0x100, 0, 0, 1];
            && Decode(lost) == ([Write64(Quad(0x100, 0), Quad(0, 1))], [])
            && Effects(Decode(lost).0) != Wishes(Decode(lost).0)
  {
    WideWrites(Decode(words).0);
    var op := Write64(Quad(0x100, 0), Quad(0, 1));
    RoundTrip([op]);
    assert [op][1..] == [] && EncodeAll([op]) == [2, 0x100, 0, 0, 1];
    assert !Narrow([op][0]);
    WideWrites([op]);
  }
}
