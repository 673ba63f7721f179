/** The containers of GPMU firmware and LM register sequences: block headers, and the walk over a file's blocks. */
module Firmware {
  import opened Pm4

  const GPMU_FIRMWARE_ID := 2
  const GPMU_SEQUENCE_ID := 3
  const HEADER_MAJOR := 1
  const HEADER_SEQUENCE := 5
  const MAX_HEADER_SIZE := 10
  const LM_SEQUENCE_ID := 1
  const MAX_SEQUENCE_ID := 3

  // ---------------------------------------------------------------- block headers

  /** A version field is refused if it is not zero and older than asked for; all other fields are let pass. */
  predicate FieldOk(id: Word, value: Word, major: nat) {
    id == HEADER_MAJOR ==> !(major > value && value != 0)
  }

  /** The first field after the ones a header of this type must start with. */
  function FirstField(sequence: bool): nat {
    if sequence then 3 else 1
  }

  /** A header of pairs of words, its size in front; it leaves at least one of the block's `remain` words. */
  predicate HeaderOk(words: seq<Word>, at: nat, remain: nat, sequence: bool, major: nat)
    requires at < |words| && at + remain <= |words|
  {
    var size := words[at];
    && 0 < size <= MAX_HEADER_SIZE && size < remain && size % 2 == 0
    && (sequence ==> words[at + 1] == HEADER_SEQUENCE && words[at + 2] < MAX_SEQUENCE_ID)
    && (forall i :: FirstField(sequence) <= i < size && i % 2 == 1 ==> FieldOk(words[at + i], words[at + i + 1], major))
  }

  /** Field f of a header asks for no newer version than there is; a version of 0 is any. */
  predicate VersionOk(words: seq<Word>, at: nat, f: nat, major: nat)
    requires at + 2 + 2 * f < |words|
  {
    words[at + 1 + 2 * f] == 1 ==> words[at + 2 + 2 * f] == 0 || words[at + 2 + 2 * f] >= major
  }

  /** A good header, written out: one to five pairs of words, fewer than are left in the block; of a sequence the first pair
    says 5 and a number below 3; and of the others none is a version that is too old. */
  lemma HeaderExactly(words: seq<Word>, at: nat, remain: nat, sequence: bool, major: nat)
    requires at < |words| && at + remain <= |words|
    ensures HeaderOk(words, at, remain, sequence, major)
        <==> && (words[at] == 2 || words[at] == 4 || words[at] == 6 || words[at] == 8 || words[at] == 10)
             && words[at] < remain
             && (sequence ==> words[at + 1] == 5 && words[at + 2] < 3)
             && forall f: nat :: (if sequence then 1 else 0) <= f && 2 * f < words[at] ==> VersionOk(words, at, f, major)
  {
    var size, first := words[at], if sequence then 1 else 0;
    if HeaderOk(words, at, remain, sequence, major) {
      forall f: nat | first <= f && 2 * f < size ensures VersionOk(words, at, f, major) {
        var i := 1 + 2 * f;
        assert FirstField(sequence) <= i < size && i % 2 == 1;
        assert FieldOk(words[at + i], words[at + i + 1], major);
      }
    }
    if 0 < size <= 10 && size < remain && size % 2 == 0
      && forall f: nat :: first <= f && 2 * f < size ==> VersionOk(words, at, f, major) {
      forall i | FirstField(sequence) <= i < size && i % 2 == 1 ensures FieldOk(words[at + i], words[at + i + 1], major) {
        assert VersionOk(words, at, (i - 1) / 2, major);
      }
    }
  }

  /** Where version 2 is asked for, a header that says 1 is refused, and any other number is let pass. */
  lemma VersionRefused(v: Word)
    ensures HeaderOk([2, 1, v, 0], 0, 4, false, 2) <==> v != 1
  {
    HeaderExactly([2, 1, v, 0], 0, 4, false, 2);
    assert VersionOk([2, 1, v, 0], 0, 0, 2) <==> v != 1;
  }

  /** _read_fw2_block_header. */
  method ReadBlockHeader(words: array<Word>, at: nat, remain: nat, sequence: bool, major: nat) returns (ok: bool)
    requires at < words.Length && at + remain <= words.Length
    ensures ok <==> HeaderOk(words[..], at, remain, sequence, major)
  {
    var size := words[at];
    if size > MAX_HEADER_SIZE || size >= remain || size % 2 != 0 || size == 0 {
      return false;
    }
    var i := 1;
    if sequence {
      if words[at + 1] != HEADER_SEQUENCE || words[at + 2] >= MAX_SEQUENCE_ID {
        return false;
      }
      i := i + 2;
    }
    while i < size
      invariant i % 2 == 1 && FirstField(sequence) <= i <= size + 1
      invariant forall k :: FirstField(sequence) <= k < i && k % 2 == 1 ==> FieldOk(words[at + k], words[at + k + 1], major)
    {
      if words[at + i] == HEADER_MAJOR && major > words[at + i + 1] && words[at + i + 1] != 0 {
        assert !FieldOk(words[at + i], words[at + i + 1], major);
        return false;
      }
      i := i + 2;
    }
    ok := true;
  }

  // ---------------------------------------------------------------- the walk over a register file

  datatype Span = Span(start: nat, size: nat)

  /** A block at t that the walk accepts: it ends inside the file, is a sequence, and, if it is the LM sequence, has a
    good header. Blocks of other sequences are not looked at any further. */
  predicate BlockOk(words: seq<Word>, t: nat, major: nat) {
    && t < |words| && 5 <= words[t] && t + words[t] < |words|
    && words[t + 1] == GPMU_SEQUENCE_ID
    && (words[t + 4] == LM_SEQUENCE_ID ==> HeaderOk(words, t + 2, words[t] - 2, true, major))
  }

  lemma BlockExactly(words: seq<Word>, t: nat, major: nat)
    ensures BlockOk(words, t, major)
        <==> t < |words| && words[t] >= 5 && t + words[t] + 1 <= |words| && words[t + 1] == 3
             && (words[t + 4] == 1 ==> HeaderOk(words, t + 2, words[t] - 2, true, major))
  {
  }

  /** The payload of the LM block at t. */
  function LmSpan(words: seq<Word>, t: nat, major: nat): (s: Span)
    requires BlockOk(words, t, major) && words[t + 4] == LM_SEQUENCE_ID
    ensures s.size > 0 && s.start == t + 2 + 1 + words[t + 2] && s.start + s.size == t + words[t] + 1
  {
    Span(t + words[t + 2] + 3, words[t] - words[t + 2] - 2)
  }

  datatype Walked = Walked(whole: bool, lm: Option<Span>)

  /** The walk from block t on, with what was found so far; `whole` is whether it gets to the end of the file. */
  function Walk(words: seq<Word>, t: nat, major: nat, lm: Option<Span>): Walked
    decreases |words| - t
  {
    if t >= |words| then Walked(true, lm)
    else if !BlockOk(words, t, major) then Walked(false, lm)
    else
      Walk(words, t + words[t] + 1, major, if words[t + 4] == LM_SEQUENCE_ID then Some(LmSpan(words, t, major)) else lm)
  }

  /** `released` is whether the firmware is given back; `lm` is lm_sequence and lm_size afterwards. */
  datatype Loaded = Loaded(released: bool, lm: Option<Span>)

  function Load(words: seq<Word>, major: nat, lm0: Option<Span>): Loaded {
    if |words| < 6 then Loaded(true, lm0)
    else
      var w := Walk(words, 0, major, lm0);
      Loaded(!w.whole || w.lm == None, w.lm)
  }

  /** _load_regfile, once the file has been read. On an error the firmware is released, but lm_sequence is left as it is. */
  method LoadRegfile(words: array<Word>, major: nat, lm0: Option<Span>) returns (r: Loaded)
    ensures r == Load(words[..], major, lm0)
  {
    var lm := lm0;
    if words.Length < 6 {
      return Loaded(true, lm);
    }
    var t := 0;
    while t < words.Length
      invariant Walk(words[..], t, major, lm) == Walk(words[..], 0, major, lm0)
    {
      var size := words[t];
      if t + size >= words.Length || size < 5 {
        return Loaded(true, lm);
      }
      if words[t + 1] != GPMU_SEQUENCE_ID {
        return Loaded(true, lm);
      }
      if words[t + 4] == LM_SEQUENCE_ID {
        var ok := ReadBlockHeader(words, t + 2, size - 2, true, major);
        if !ok {
          return Loaded(true, lm);
        }
        lm := Some(Span(t + words[t + 2] + 3, size - words[t + 2] - 2));
      }
      t := t + size + 1;
    }
    r := Loaded(lm == None, lm);
  }

  // ---------------------------------------------------------------- what files the walk accepts

  /** What a block holds behind its length and type. */
  predicate BodyOk(body: seq<Word>, major: nat) {
    4 <= |body| < 0xFFFF_FFFF && (body[2] == LM_SEQUENCE_ID ==> HeaderOk(body, 0, |body| - 1, true, major))
  }

  predicate BodiesOk(bodies: seq<seq<Word>>, major: nat) {
    forall k :: 0 <= k < |bodies| ==> BodyOk(bodies[k], major)
  }

  function Block(body: seq<Word>): seq<Word>
    requires |body| < 0xFFFF_FFFF
  {
    [|body| + 1, GPMU_SEQUENCE_ID] + body
  }

  function File(bodies: seq<seq<Word>>, major: nat): seq<Word>
    requires BodiesOk(bodies, major)
  {
    if bodies == [] then [] else Block(bodies[0]) + File(bodies[1..], major)
  }

  /** The payload of the last LM sequence among the blocks, the first of which lies at t. */
  function Wanted(bodies: seq<seq<Word>>, t: nat, major: nat, lm: Option<Span>): Option<Span>
    requires BodiesOk(bodies, major)
  {
    if bodies == [] then lm
    else
      var body := bodies[0];
      Wanted(bodies[1..], t + |body| + 2, major,
             if body[2] == LM_SEQUENCE_ID then Some(Span(t + body[0] + 3, |body| - 1 - body[0])) else lm)
  }

  /** A header is judged by the block's own words alone. */
  lemma HeaderLocal(words: seq<Word>, at: nat, body: seq<Word>, remain: nat, major: nat)
    requires at + |body| <= |words| && words[at..at + |body|] == body && 3 <= remain <= |body|
    ensures HeaderOk(words, at, remain, true, major) <==> HeaderOk(body, 0, remain, true, major)
  {
    assert forall k :: 0 <= k < |body| ==> words[at + k] == body[k];
    if HeaderOk(words, at, remain, true, major) {
      forall i | 3 <= i < body[0] && i % 2 == 1 ensures FieldOk(body[0 + i], body[0 + i + 1], major) {
        assert FieldOk(words[at + i], words[at + i + 1], major);
      }
    }
    if HeaderOk(body, 0, remain, true, major) {
      forall i | 3 <= i < words[at] && i % 2 == 1 ensures FieldOk(words[at + i], words[at + i + 1], major) {
        assert FieldOk(body[0 + i], body[0 + i + 1], major);
      }
    }
  }

  lemma BlockMatches(words: seq<Word>, t: nat, body: seq<Word>, major: nat)
    requires t + |body| + 2 <= |words| && 4 <= |body| < 0xFFFF_FFFF && words[t..t + |body| + 2] == Block(body)
    ensures BlockOk(words, t, major) <==> BodyOk(body, major)
    ensures words[t] == |body| + 1 && words[t + 2] == body[0] && words[t + 4] == body[2]
  {
    var block := words[t..t + |body| + 2];
    assert block[0] == words[t] && block[1] == words[t + 1] && block[2] == words[t + 2] && block[4] == words[t + 4];
    assert words[t + 2..t + 2 + |body|] == body;
    HeaderLocal(words, t + 2, body, |body| - 1, major);
  }

  lemma FileSplit(words: seq<Word>, t: nat, bodies: seq<seq<Word>>, major: nat)
    requires BodiesOk(bodies, major) && bodies != [] && t <= |words| && words[t..] == File(bodies, major)
    ensures var u := t + |bodies[0]| + 2;
            && u <= |words| && words[t..u] == Block(bodies[0]) && words[t + 2..u] == bodies[0]
            && words[u..] == File(bodies[1..], major)
  {
    var body, u := bodies[0], t + |bodies[0]| + 2;
    assert |words| - t == |File(bodies, major)| >= |body| + 2;
    assert words[t..u] == words[t..][..|body| + 2] == Block(body);
    assert words[t + 2..u] == words[t..u][2..];
    assert words[u..] == words[t..][|body| + 2..];
  }

  /** What is known of the LM sequence behind a block at t. */
  function Behind(body: seq<Word>, t: nat, major: nat, lm: Option<Span>): Option<Span>
    requires BodyOk(body, major)
  {
    if body[2] == LM_SEQUENCE_ID then Some(Span(t + body[0] + 3, |body| - 1 - body[0])) else lm
  }

  /** One good block: the walk goes on behind it. */
  lemma BlockWalked(words: seq<Word>, t: nat, body: seq<Word>, major: nat, lm: Option<Span>)
    requires t + |body| + 2 <= |words| && BodyOk(body, major) && words[t..t + |body| + 2] == Block(body)
    ensures Walk(words, t, major, lm) == Walk(words, t + |body| + 2, major, Behind(body, t, major, lm))
  {
    BlockMatches(words, t, body, major);
  }

  lemma WantedBehind(bodies: seq<seq<Word>>, t: nat, major: nat, lm: Option<Span>)
    requires BodiesOk(bodies, major) && bodies != []
    ensures Wanted(bodies, t, major, lm) == Wanted(bodies[1..], t + |bodies[0]| + 2, major, Behind(bodies[0], t, major, lm))
  {
  }

  lemma FileNext(words: seq<Word>, t: nat, bodies: seq<seq<Word>>, major: nat, lm: Option<Span>)
    requires BodiesOk(bodies, major) && bodies != [] && t + |bodies[0]| + 2 <= |words|
    requires words[t..t + |bodies[0]| + 2] == Block(bodies[0])
    requires var u, here := t + |bodies[0]| + 2, Behind(bodies[0], t, major, lm);
             Walk(words, u, major, here) == Walked(true, Wanted(bodies[1..], u, major, here))
    ensures Walk(words, t, major, lm) == Walked(true, Wanted(bodies, t, major, lm))
  {
    BlockWalked(words, t, bodies[0], major, lm);
    WantedBehind(bodies, t, major, lm);
  }

  /** Every file of good blocks is accepted, and its last LM sequence found. */
  lemma {:induction false} FileAccepted(words: seq<Word>, t: nat, bodies: seq<seq<Word>>, major: nat, lm: Option<Span>)
    requires BodiesOk(bodies, major) && t <= |words| && words[t..] == File(bodies, major)
    ensures Walk(words, t, major, lm) == Walked(true, Wanted(bodies, t, major, lm))
    decreases |bodies|
  {
    if bodies != [] {
      FileSplit(words, t, bodies, major);
      FileAccepted(words, t + |bodies[0]| + 2, bodies[1..], major, Behind(bodies[0], t, major, lm));
      FileNext(words, t, bodies, major, lm);
    }
  }

  /** Whatever is accepted is a file of good blocks: length, type, header and payload words partition it exactly. */
  lemma {:induction false} AcceptedFile(words: seq<Word>, t: nat, major: nat, lm: Option<Span>) returns (bodies: seq<seq<Word>>)
    requires t <= |words| && Walk(words, t, major, lm).whole
    ensures BodiesOk(bodies, major) && words[t..] == File(bodies, major)
    decreases |words| - t
  {
    if t == |words| {
      bodies := [];
    } else {
      var u := t + words[t] + 1;
      var body := words[t + 2..u];
      assert words[t..u] == Block(body);
      BlockMatches(words, t, body, major);
      var rest := AcceptedFile(words, u, major, if words[t + 4] == LM_SEQUENCE_ID then Some(LmSpan(words, t, major)) else lm);
      bodies := [body] + rest;
      assert bodies[1..] == rest;
      assert words[t..] == words[t..u] + words[u..];
    }
  }

  /** A file is accepted exactly when it consists of good blocks. */
  lemma AcceptedExactly(words: seq<Word>, major: nat, lm: Option<Span>)
    ensures Walk(words, 0, major, lm).whole <==> exists bodies :: BodiesOk(bodies, major) && words == File(bodies, major)
  {
    assert words[0..] == words;
    if Walk(words, 0, major, lm).whole {
      var bodies := AcceptedFile(words, 0, major, lm);
    }
    forall bodies | BodiesOk(bodies, major) && words == File(bodies, major) ensures Walk(words, 0, major, lm).whole {
      FileAccepted(words, 0, bodies, major, lm);
    }
  }

  lemma WantedHere(words: seq<Word>, t: nat, bodies: seq<seq<Word>>, major: nat, lm: Option<Span>)
    requires BodiesOk(bodies, major) && bodies != [] && t <= |words| && words[t..] == File(bodies, major)
    requires bodies[0][2] == LM_SEQUENCE_ID && forall j :: 1 <= j < |bodies| ==> bodies[j][2] != LM_SEQUENCE_ID
    ensures var w := Wanted(bodies, t, major, lm);
            && w.Some? && w.value.size > 0 && w.value.start + w.value.size <= |words|
            && words[w.value.start..w.value.start + w.value.size] == bodies[0][1 + bodies[0][0]..]
  {
    var body, u := bodies[0], t + |bodies[0]| + 2;
    FileSplit(words, t, bodies, major);
    var s := Span(t + body[0] + 3, |body| - 1 - body[0]);
    WantedNone(bodies[1..], u, major, Some(s));
    assert words[s.start..s.start + s.size] == words[t + 2..u][1 + body[0]..];
  }

  /** Block k is the last LM block, and its payload is what is handed on. */
  predicate LastLm(words: seq<Word>, bodies: seq<seq<Word>>, k: nat, w: Option<Span>) {
    && k < |bodies| && |bodies[k]| >= 4 && bodies[k][2] == LM_SEQUENCE_ID && 1 + bodies[k][0] <= |bodies[k]|
    && (forall j :: k < j < |bodies| ==> |bodies[j]| >= 4 && bodies[j][2] != LM_SEQUENCE_ID)
    && w.Some? && w.value.size > 0 && w.value.start + w.value.size <= |words|
    && words[w.value.start..w.value.start + w.value.size] == bodies[k][1 + bodies[k][0]..]
  }

  predicate AnyLm(bodies: seq<seq<Word>>) {
    exists j :: 0 <= j < |bodies| && |bodies[j]| >= 4 && bodies[j][2] == LM_SEQUENCE_ID
  }

  lemma LastLmLater(words: seq<Word>, bodies: seq<seq<Word>>, k: nat, w: Option<Span>)
    requires bodies != [] && LastLm(words, bodies[1..], k, w)
    ensures LastLm(words, bodies, k + 1, w)
  {
    forall j | k + 1 < j < |bodies| ensures |bodies[j]| >= 4 && bodies[j][2] != LM_SEQUENCE_ID {
      assert bodies[1..][j - 1] == bodies[j];
    }
  }

  lemma AnyLmFirst(bodies: seq<seq<Word>>)
    requires AnyLm(bodies) && !AnyLm(bodies[1..])
    ensures |bodies[0]| >= 4 && bodies[0][2] == LM_SEQUENCE_ID
  {
    assert forall j :: 1 <= j < |bodies| ==> bodies[1..][j - 1] == bodies[j];
  }

  lemma NoLmLater(bodies: seq<seq<Word>>, major: nat)
    requires BodiesOk(bodies, major) && bodies != [] && !AnyLm(bodies[1..])
    ensures forall j :: 1 <= j < |bodies| ==> bodies[j][2] != LM_SEQUENCE_ID
  {
    forall j | 1 <= j < |bodies| ensures bodies[j][2] != LM_SEQUENCE_ID {
      assert bodies[1..][j - 1] == bodies[j];
    }
  }

  /** An LM sequence handed on is the non-empty end of a block behind a whole header. */
  lemma {:induction false} WantedPayload(words: seq<Word>, t: nat, bodies: seq<seq<Word>>, major: nat, lm: Option<Span>) returns (k: nat)
    requires BodiesOk(bodies, major) && t <= |words| && words[t..] == File(bodies, major) && AnyLm(bodies)
    ensures LastLm(words, bodies, k, Wanted(bodies, t, major, lm))
    decreases |bodies|
  {
    var body := bodies[0];
    if AnyLm(bodies[1..]) {
      FileSplit(words, t, bodies, major);
      var rest := WantedPayload(words, t + |body| + 2, bodies[1..], major, Behind(body, t, major, lm));
      WantedBehind(bodies, t, major, lm);
      LastLmLater(words, bodies, rest, Wanted(bodies, t, major, lm));
      k := rest + 1;
    } else {
      AnyLmFirst(bodies);
      NoLmLater(bodies, major);
      WantedHere(words, t, bodies, major, lm);
      k := 0;
    }
  }

  lemma {:induction false} WantedNone(bodies: seq<seq<Word>>, t: nat, major: nat, lm: Option<Span>)
    requires BodiesOk(bodies, major) && forall j :: 0 <= j < |bodies| ==> bodies[j][2] != LM_SEQUENCE_ID
    ensures Wanted(bodies, t, major, lm) == lm
  {
    if bodies != [] {
      WantedNone(bodies[1..], t + |bodies[0]| + 2, major, lm);
    }
  }

  // ---------------------------------------------------------------- a file given back in part

  /** Where the blocks start that the walk accepts. */
  function Starts(words: seq<Word>, t: nat, major: nat): seq<nat>
    decreases |words| - t
  {
    if t >= |words| || !BlockOk(words, t, major) then [] else [t] + Starts(words, t + words[t] + 1, major)
  }

  predicate HasLm(words: seq<Word>, starts: seq<nat>) {
    exists k :: 0 <= k < |starts| && starts[k] + 4 < |words| && words[starts[k] + 4] == LM_SEQUENCE_ID
  }

  lemma HasLmFirst(words: seq<Word>, t: nat, rest: seq<nat>)
    requires t + 4 < |words|
    ensures HasLm(words, [t] + rest) <==> words[t + 4] == LM_SEQUENCE_ID || HasLm(words, rest)
  {
    assert ([t] + rest)[0] == t;
    assert forall k :: 0 <= k < |rest| ==> ([t] + rest)[k + 1] == rest[k];
  }

  lemma {:induction false} FoundExactly(words: seq<Word>, t: nat, major: nat, lm: Option<Span>)
    ensures Walk(words, t, major, lm).lm.Some? <==> lm.Some? || HasLm(words, Starts(words, t, major))
    decreases |words| - t
  {
    if t < |words| && BlockOk(words, t, major) {
      var u := t + words[t] + 1;
      var here := if words[t + 4] == LM_SEQUENCE_ID then Some(LmSpan(words, t, major)) else lm;
      FoundExactly(words, u, major, here);
      HasLmFirst(words, t, Starts(words, u, major));
    }
  }

  /** What was found before makes no difference to the walk, and is kept until a block of this file takes its place. */
  lemma {:induction false} FoundBefore(words: seq<Word>, t: nat, major: nat, lm: Option<Span>)
    ensures var w := Walk(words, t, major, None);
            Walk(words, t, major, lm) == Walked(w.whole, if w.lm.Some? then w.lm else lm)
    decreases |words| - t
  {
    if t < |words| && BlockOk(words, t, major) {
      var u := t + words[t] + 1;
      if words[t + 4] == LM_SEQUENCE_ID {
        FoundBefore(words, u, major, Some(LmSpan(words, t, major)));
      } else {
        FoundBefore(words, u, major, lm);
      }
    }
  }

  /** The LM sequence that the walk finds in this file. */
  function Found(words: seq<Word>, major: nat): Option<Span> {
    if |words| < 6 then None else Walk(words, 0, major, None).lm
  }

  /** The file is given back, and lm_sequence was made to point into it. */
  predicate Dangling(words: seq<Word>, major: nat, lm0: Option<Span>) {
    Load(words, major, lm0).released && Found(words, major).Some?
  }

  /** That is so exactly when a good LM block comes before the first bad block of a file that is long enough to be walked,
    whatever lm_sequence was before. Without a good LM block in front of a bad one it stays as it was, so behind a file that
    is given back it is set exactly then, or if it was set before. */
  lemma DanglingExactly(words: seq<Word>, major: nat, lm0: Option<Span>)
    ensures Dangling(words, major, lm0)
        <==> |words| >= 6 && !Walk(words, 0, major, lm0).whole && HasLm(words, Starts(words, 0, major))
    ensures Load(words, major, lm0).lm == if Found(words, major).Some? then Found(words, major) else lm0
    ensures Load(words, major, lm0).released
        <==> |words| < 6 || !Walk(words, 0, major, lm0).whole || (lm0 == None && Found(words, major) == None)
    ensures Load(words, major, lm0).released && Load(words, major, lm0).lm.Some?
        <==> Dangling(words, major, lm0) || (lm0.Some? && (|words| < 6 || !Walk(words, 0, major, lm0).whole))
  {
    FoundExactly(words, 0, major, None);
    FoundBefore(words, 0, major, lm0);
  }

  /** The shortest such file: an LM block with one word of payload, and a word that starts no block. */
  lemma DanglingFile(major: nat, lm0: Option<Span>)
    ensures Dangling([5, GPMU_SEQUENCE_ID, 2, HEADER_SEQUENCE, LM_SEQUENCE_ID, 7, 0], major, lm0)
  {
    var words: seq<Word> := [5, GPMU_SEQUENCE_ID, 2, HEADER_SEQUENCE, LM_SEQUENCE_ID, 7, 0];
    assert HeaderOk(words, 2, 3, true, major);
    assert BlockOk(words, 0, major) && LmSpan(words, 0, major) == Span(5, 1);
    assert !BlockOk(words, 6, major);
    assert Walk(words, 6, major, Some(Span(5, 1))) == Walked(false, Some(Span(5, 1)));
    FoundBefore(words, 0, major, lm0);
  }
}
