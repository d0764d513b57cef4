/**
  Blocks whose length varints are longer than they need to be. Such varints are legal
  (Protocol Buffers Encoding, "Base 128 Varints"), no builder writes them, and the splitter
  takes a block as it comes.
  */
module Paddings {
  import opened Bytes
  import opened Varint
  import opened Documents
  import opened Layouts

  /** A document of which each length varint is given as it stands. */
  datatype Loose =
    | Done
    | Plain(raw: bytes, more: Loose)
    | Moved(tag: byte, id: Id, length: bytes, payload: bytes, more: Loose)
    | Around(tag: byte, length: bytes, inner: Loose, more: Loose)

  /** The bytes are a varint, and this is what it states. */
  predicate Spells(length: bytes, n: nat) {
    Decode(length) == Some(Read(n, |length|))
  }

  lemma {:induction false} SpellsOn(v: bytes, n: nat, rest: bytes)
    requires Spells(v, n)
    ensures Decode(v + rest) == Some(Read(n, |v|))
    decreases |v|
  {
    if v[0] >= 128 {
      assert (v + rest)[1..] == v[1..] + rest;
      SpellsOn(v[1..], Decode(v[1..]).value.value, rest);
    }
  }

  predicate WellFormed(l: Loose) {
    match l
    case Done => true
    case Plain(_, r) => WellFormed(r)
    case Moved(_, _, v, b, r) => Spells(v, |b|) && WellFormed(r)
    case Around(_, v, i, r) => Spells(v, |LooseText(i)|) && WellFormed(i) && WellFormed(r)
  }

  function LooseText(l: Loose): bytes {
    match l
    case Done => []
    case Plain(b, r) => b + LooseText(r)
    case Moved(t, _, v, b, r) => [t] + v + b + LooseText(r)
    case Around(t, v, i, r) => [t] + v + LooseText(i) + LooseText(r)
  }

  predicate Bears(l: Loose) {
    match l
    case Done => false
    case Plain(_, r) => Bears(r)
    case Moved(_, _, _, _, _) => true
    case Around(_, _, i, r) => Bears(i) || Bears(r)
  }

  /** The directory the splitter writes, as `Lay` but with the varints as they stand. */
  function LooseLay(l: Loose, chain: seq<nat>, pos: nat, w: Writer): Writer {
    match l
    case Done => w
    case Plain(b, r) => LooseLay(r, chain, pos + |b|, Write(w, b))
    case Moved(t, id, v, b, r) =>
      LooseLay(r, chain, pos + 1 + |v| + |b|, Cut(Write(w, [t] + v), id, chain + [pos + 1]))
    case Around(t, v, i, r) =>
      var inside := LooseLay(i, chain + [pos + 1], pos + 1 + |v|, Write(w, [t] + v));
      LooseLay(r, chain, pos + 1 + |v| + |LooseText(i)|, inside)
  }

  /** No varint states a number in fewer bytes than its encoding. */
  lemma {:induction false} NoShorter(v: bytes, n: nat)
    requires Spells(v, n)
    ensures |v| >= Width(n) && (|v| == Width(n) <==> v == Encode(n))
    decreases |v|
  {
    if v[0] >= 128 {
      var rest := Decode(v[1..]).value;
      assert n == v[0] - 128 + 128 * rest.value;
      assert n % 128 == v[0] - 128 && n / 128 == rest.value;
      NoShorter(v[1..], rest.value);
      if n < 128 {
        assert v[1..] != [] && |v| > 1;
      } else {
        assert v == [v[0]] + v[1..];
        assert Encode(n)[1..] == Encode(n / 128);
      }
    }
  }

  // -------------------------------------------------- what the new lengths come to

  function SizeOf(n: int): nat {
    if n < 0 then 0 else Width(n)
  }

  /**
    What it counts as gone from around these fields: the difference in each filling, and in
    the width of each length varint, as if the old one had been as short as it can be.
    */
  function Gone(l: Loose, pointer: Id -> bytes): int
    decreases l, 0
  {
    match l
    case Done => 0
    case Plain(_, r) => Gone(r, pointer)
    case Moved(_, id, _, b, r) => |b| - |pointer(id)| + Width(|b|) - Width(|pointer(id)|) + Gone(r, pointer)
    case Around(_, _, i, r) =>
      (if Bears(i) then Gone(i, pointer) + Width(|LooseText(i)|) - SizeOf(NewLength(i, pointer)) else 0) + Gone(r, pointer)
  }

  /** The length it writes for a field around these. */
  function NewLength(l: Loose, pointer: Id -> bytes): int
    decreases l, 1
  {
    |LooseText(l)| - Gone(l, pointer)
  }

  /** What `generate_wbp_file` writes: pointers for blocks, and new lengths around them. */
  function Rewritten(l: Loose, pointer: Id -> bytes): bytes {
    match l
    case Done => []
    case Plain(b, r) => b + Rewritten(r, pointer)
    case Moved(t, id, _, _, r) => Record(t, pointer(id)) + Rewritten(r, pointer)
    case Around(t, v, i, r) =>
      (if !Bears(i) then [t] + v + LooseText(i)
       else [t] + (if NewLength(i, pointer) < 0 then [] else Encode(NewLength(i, pointer))) + Rewritten(i, pointer))
      + Rewritten(r, pointer)
  }

  /** Bytes the varints that are rewritten had to spare. */
  function Spare(l: Loose): int {
    match l
    case Done => 0
    case Plain(_, r) => Spare(r)
    case Moved(_, _, v, b, r) => |v| - Width(|b|) + Spare(r)
    case Around(_, v, i, r) => (if Bears(i) then |v| - Width(|LooseText(i)|) + Spare(i) else 0) + Spare(r)
  }

  /** A length that is written is too large by the bytes to spare inside it. */
  lemma {:induction false} NewLengthIsOff(l: Loose, pointer: Id -> bytes)
    requires WellFormed(l)
    ensures NewLength(l, pointer) == |Rewritten(l, pointer)| + Spare(l) && Spare(l) >= 0
  {
    hide Encode;
    match l
    case Done =>
    case Plain(_, r) => NewLengthIsOff(r, pointer);
    case Moved(_, _, v, b, r) =>
      NoShorter(v, |b|);
      NewLengthIsOff(r, pointer);
    case Around(_, v, i, r) =>
      NoShorter(v, |LooseText(i)|);
      NewLengthIsOff(i, pointer);
      NewLengthIsOff(r, pointer);
      if !Bears(i) { NothingRewritten(i, pointer); }
  }

  lemma {:induction false} NothingRewritten(l: Loose, pointer: Id -> bytes)
    requires !Bears(l)
    ensures Rewritten(l, pointer) == LooseText(l) && Spare(l) == 0 && Gone(l, pointer) == 0
  {
    match l
    case Done =>
    case Plain(_, r) => NothingRewritten(r, pointer);
    case Around(_, _, i, r) => NothingRewritten(i, pointer); NothingRewritten(r, pointer);
  }

  /** Every length in what is written states what follows it. */
  predicate LengthsRight(l: Loose, pointer: Id -> bytes) {
    match l
    case Done => true
    case Plain(_, r) => LengthsRight(r, pointer)
    case Moved(_, _, _, _, r) => LengthsRight(r, pointer)
    case Around(_, _, i, r) =>
      && (Bears(i) ==> NewLength(i, pointer) == |Rewritten(i, pointer)| && LengthsRight(i, pointer))
      && LengthsRight(r, pointer)
  }

  /** Every length varint on the way to a block is as short as it can be. */
  predicate Tight(l: Loose) {
    match l
    case Done => true
    case Plain(_, r) => Tight(r)
    case Moved(_, _, v, b, r) => v == Encode(|b|) && Tight(r)
    case Around(_, v, i, r) => (Bears(i) ==> v == Encode(|LooseText(i)|) && Tight(i)) && Tight(r)
  }

  /** Every one but the outermost. */
  predicate TightInside(l: Loose) {
    match l
    case Done => true
    case Plain(_, r) => TightInside(r)
    case Moved(_, _, _, _, r) => TightInside(r)
    case Around(_, _, i, r) => (Bears(i) ==> Tight(i)) && TightInside(r)
  }

  lemma {:induction false} SpareIsTight(l: Loose)
    requires WellFormed(l)
    ensures Spare(l) >= 0 && (Spare(l) == 0 <==> Tight(l))
  {
    match l
    case Done =>
    case Plain(_, r) => SpareIsTight(r);
    case Moved(_, _, v, b, r) => NoShorter(v, |b|); SpareIsTight(r);
    case Around(_, v, i, r) => NoShorter(v, |LooseText(i)|); SpareIsTight(i); SpareIsTight(r);
  }

  lemma {:induction false} TightIsTightInside(l: Loose)
    requires Tight(l)
    ensures TightInside(l)
  {
    match l
    case Done =>
    case Plain(_, r) => TightIsTightInside(r);
    case Moved(_, _, _, _, r) => TightIsTightInside(r);
    case Around(_, _, _, r) => TightIsTightInside(r);
  }

  /**
    The pointer form of a block that was split is right exactly when every length varint
    that leads to a sub-block, the outermost aside, was as short as it can be.
    */
  lemma {:induction false} PointerFormIsRight(l: Loose, pointer: Id -> bytes)
    requires WellFormed(l)
    ensures LengthsRight(l, pointer) <==> TightInside(l)
  {
    match l
    case Done =>
    case Plain(_, r) => PointerFormIsRight(r, pointer);
    case Moved(_, _, _, _, r) => PointerFormIsRight(r, pointer);
    case Around(_, _, i, r) =>
      NewLengthIsOff(i, pointer);
      SpareIsTight(i);
      PointerFormIsRight(i, pointer);
      PointerFormIsRight(r, pointer);
      if Tight(i) { TightIsTightInside(i); }
  }

  // ----------------------------------------------------------------- tight blocks

  /** A document, with its varints written out. */
  function Loosened(d: Doc): Loose {
    match d
    case End => Done
    case Raw(b, r) => Plain(b, Loosened(r))
    case Hole(t, id, h, _, r) => Moved(t, id, Encode(|h|), h, Loosened(r))
    case Sub(t, i, r) => Around(t, Encode(|Text(i)|), Loosened(i), Loosened(r))
  }

  lemma EncodeSpells(n: nat)
    ensures Spells(Encode(n), n)
  {
    DecodeEncode(n, []);
    assert Encode(n) + [] == Encode(n);
  }

  lemma {:induction false} LoosenedIsTight(d: Doc)
    ensures LooseText(Loosened(d)) == Text(d) && WellFormed(Loosened(d))
    ensures Tight(Loosened(d)) && Bears(Loosened(d)) == Bearing(d)
  {
    hide Encode, Decode;
    match d
    case End =>
    case Raw(_, r) => LoosenedIsTight(r);
    case Hole(_, _, h, _, r) => EncodeSpells(|h|); LoosenedIsTight(r);
    case Sub(_, i, r) => EncodeSpells(|Text(i)|); LoosenedIsTight(i); LoosenedIsTight(r);
  }

  lemma {:induction false} LoosenedLays(d: Doc, chain: seq<nat>, pos: nat, w: Writer)
    ensures LooseLay(Loosened(d), chain, pos, w) == Lay(d, chain, pos, w)
    decreases d
  {
    hide Encode, Write, Cut;
    match d
    case End =>
    case Raw(b, r) => LoosenedLays(r, chain, pos + |b|, Write(w, b));
    case Hole(t, id, h, _, r) =>
      LoosenedLays(r, chain, pos + RecordSize(|h|), Cut(Write(w, [t] + Encode(|h|)), id, chain + [pos + 1]));
    case Sub(t, i, r) =>
      LoosenedIsTight(i);
      var w' := Write(w, [t] + Encode(|Text(i)|));
      LoosenedLays(i, chain + [pos + 1], Inside(i, pos), w');
      LoosenedLays(r, chain, pos + RecordSize(|Text(i)|), Lay(i, chain + [pos + 1], Inside(i, pos), w'));
  }

  /** The other filling of every hole is its block's pointer. */
  predicate Pointed(d: Doc, pointer: Id -> bytes) {
    match d
    case End => true
    case Raw(_, r) => Pointed(r, pointer)
    case Hole(_, id, _, th, r) => th == pointer(id) && Pointed(r, pointer)
    case Sub(_, i, r) => Pointed(i, pointer) && Pointed(r, pointer)
  }

  /** On a document these lengths are those of its other filling. */
  lemma {:induction false} LoosenedFlips(d: Doc, pointer: Id -> bytes)
    requires Pointed(d, pointer)
    ensures Rewritten(Loosened(d), pointer) == Text(Flip(d))
  {
    hide Encode;
    match d
    case End =>
    case Raw(_, r) => LoosenedFlips(r, pointer);
    case Hole(_, _, _, _, r) => LoosenedFlips(r, pointer);
    case Sub(_, i, r) =>
      LoosenedFlips(r, pointer);
      LoosenedIsTight(i);
      if Bearing(i) {
        LoosenedFlips(i, pointer);
        NewLengthIsOff(Loosened(i), pointer);
        SpareIsTight(Loosened(i));
      } else {
        NoHoles(i);
      }
  }

  // ------------------------------------------------------------- one that is not

  /** A message in a message in a message; the one in the middle states 3 in two bytes. */
  function Padded(id: Id): Loose {
    Around(0x0a, [6], Around(0x0a, [0x83, 0], Moved(0x12, id, [1], [0x41], Done), Done), Done)
  }

  lemma PaddedText(id: Id)
    ensures LooseText(Padded(id)) == [0x0a, 6, 0x0a, 0x83, 0, 0x12, 1, 0x41] && WellFormed(Padded(id))
  {
    var hole := Moved(0x12, id, [1], [0x41], Done);
    var middle := Around(0x0a, [0x83, 0], hole, Done);
    var three, one := [0x83, 0], [1];
    assert three[1..] == [0] && Decode([0]) == Some(Read(0, 1));
    assert Spells(three, 3) && Spells(one, 1) && Spells([6], 6);
    assert LooseText(hole) == [0x12, 1, 0x41];
    assert LooseText(middle) == [0x0a, 0x83, 0, 0x12, 1, 0x41];
    assert WellFormed(Done) && WellFormed(hole);
    assert WellFormed(middle);
  }

  lemma MovedAlone(t: byte, id: Id, v: bytes, b: bytes, chain: seq<nat>, pos: nat, w: Writer)
    ensures LooseLay(Moved(t, id, v, b, Done), chain, pos, w) == Cut(Write(w, [t] + v), id, chain + [pos + 1])
  {
  }

  lemma PaddedLays(id: Id)
    ensures Close(LooseLay(Padded(id), [], 0, EMPTY)) ==
            [Part([0x0a, 6, 0x0a, 0x83, 0, 0x12, 1]), Ref(id, [1, 3, 6]), Part([])]
  {
    var hole := Moved(0x12, id, [1], [0x41], Done);
    var middle := Around(0x0a, [0x83, 0], hole, Done);
    var outer: seq<nat>, one: seq<nat>, two: seq<nat> := [], [1], [1, 3];
    assert outer + [1] == one && one + [3] == two && two + [6] == [1, 3, 6];
    var w0 := Write(EMPTY, [0x0a] + [6]);
    var w1 := Write(w0, [0x0a] + [0x83, 0]);
    var w2 := Cut(Write(w1, [0x12] + [1]), id, two + [6]);
    assert Write(w1, [0x12] + [1]) == Writer([], [0x0a, 6, 0x0a, 0x83, 0, 0x12, 1]);
    assert w2.done == [Part([0x0a, 6, 0x0a, 0x83, 0, 0x12, 1]), Ref(id, two + [6])];
    MovedAlone(0x12, id, [1], [0x41], two, 5, w1);
    assert LooseLay(hole, two, 5, w1) == w2;
    assert LooseLay(middle, one, 2, w0) == LooseLay(hole, two, 5, w1);
    assert LooseLay(Padded(id), outer, 0, EMPTY) == LooseLay(middle, one, 2, w0);
  }

  /** With a pointer of 70 bytes its outer length is written as 75, before 74 bytes. */
  lemma PaddedIsOff(id: Id, pointer: Id -> bytes)
    requires |pointer(id)| == 70
    ensures NewLength(Padded(id).inner, pointer) == 75 && |Rewritten(Padded(id).inner, pointer)| == 74
    ensures !LengthsRight(Padded(id), pointer)
  {
    var hole := Moved(0x12, id, [1], [0x41], Done);
    var middle := Around(0x0a, [0x83, 0], hole, Done);
    PaddedText(id);
    assert LooseText(hole) == [0x12, 1, 0x41];
    assert LooseText(middle) == [0x0a, 0x83, 0, 0x12, 1, 0x41];
    OneByte(1);
    OneByte(3);
    OneByte(70);
    OneByte(72);
    assert Gone(hole, pointer) == -69 && NewLength(hole, pointer) == 72;
    assert |Rewritten(hole, pointer)| == 72 && |Rewritten(middle, pointer)| == 74;
    assert Gone(middle, pointer) == -69;
  }

  lemma OneByte(n: nat)
    requires n < 128
    ensures Width(n) == 1
  {
  }
}
