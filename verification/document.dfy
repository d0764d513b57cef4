/**
  Serialized messages with holes.

  A message is the list of its fields. What the library needs of a field is whether
  it is plain bytes, a length-delimited field standing for a block (a *hole*), or a
  sub-message. A hole has two fillings: the one the serialization at hand has
  (`here`) and the one it is to be exchanged for (`there`). Building a multiblock
  object replaces pointers by block contents; writing its pointer form back replaces
  block contents by pointers. The two are each other's `Flip`, so positions, lengths
  and pointer chains are defined once, in the coordinates of `here`.
  */
module Documents {
  import opened Bytes
  import opened Varint

  type Id = bytes

  datatype Doc =
    | End
    | Raw(raw: bytes, rest: Doc)
    | Hole(tag: byte, id: Id, here: bytes, there: bytes, rest: Doc)
    | Sub(tag: byte, inner: Doc, rest: Doc)

  // ------------------------------------------------------------ serialization

  /** A length-delimited record (Protocol Buffers Encoding, "Length-Delimited Records"). */
  function Record(tag: byte, payload: bytes): bytes {
    [tag] + Encode(|payload|) + payload
  }

  function RecordSize(payload: nat): nat {
    1 + Width(payload) + payload
  }

  /** The serialization with the fillings at hand. */
  function Text(d: Doc): bytes {
    match d
    case End => []
    case Raw(b, r) => b + Text(r)
    case Hole(t, _, h, _, r) => Record(t, h) + Text(r)
    case Sub(t, i, r) => Record(t, Text(i)) + Text(r)
  }

  /** The same message with every hole filled the other way. */
  function Flip(d: Doc): Doc {
    match d
    case End => End
    case Raw(b, r) => Raw(b, Flip(r))
    case Hole(t, id, h, th, r) => Hole(t, id, th, h, Flip(r))
    case Sub(t, i, r) => Sub(t, Flip(i), Flip(r))
  }

  lemma FlipTwice(d: Doc)
    ensures Flip(Flip(d)) == d
  {
  }

  predicate Bearing(d: Doc) {
    match d
    case End => false
    case Raw(_, r) => Bearing(r)
    case Hole(_, _, _, _, _) => true
    case Sub(_, i, r) => Bearing(i) || Bearing(r)
  }

  lemma FlipBearing(d: Doc)
    ensures Bearing(Flip(d)) == Bearing(d)
  {
  }

  lemma NoHoles(d: Doc)
    requires !Bearing(d)
    ensures Flip(d) == d
  {
  }

  function HoleIds(d: Doc): set<Id> {
    match d
    case End => {}
    case Raw(_, r) => HoleIds(r)
    case Hole(_, id, _, _, r) => {id} + HoleIds(r)
    case Sub(_, i, r) => HoleIds(i) + HoleIds(r)
  }

  /** The bytes a whole field occupies. */
  function First(d: Doc): bytes
    requires !d.End?
  {
    match d
    case Raw(b, _) => b
    case Hole(t, _, h, _, _) => Record(t, h)
    case Sub(t, i, _) => Record(t, Text(i))
  }

  // ------------------------------------------------------- trees of positions

  /**
    The lengths tree: below the position of each enclosing length varint, the
    positions inside it; at the position of a block's own length varint, the block.
    */
  datatype Node = Leaf(id: Id) | Branch(kids: map<nat, Node>)

  type Kids = map<nat, Node>

  /** The tree of a document whose text starts at `pos`. */
  function TreeOf(d: Doc, pos: nat): Kids {
    match d
    case End => map[]
    case Raw(b, r) => TreeOf(r, pos + |b|)
    case Hole(_, id, h, _, r) => TreeOf(r, pos + RecordSize(|h|))[pos + 1 := Leaf(id)]
    case Sub(_, i, r) =>
      var others := TreeOf(r, pos + RecordSize(|Text(i)|));
      if Bearing(i)
      then others[pos + 1 := Branch(TreeOf(i, Inside(i, pos)))]
      else others
  }

  /** Where the content of a sub-message begins, when its record begins at `pos`. */
  function Inside(inner: Doc, pos: nat): nat {
    pos + 1 + Width(|Text(inner)|)
  }

  lemma {:induction false} TreeBounds(d: Doc, pos: nat)
    ensures forall k <- TreeOf(d, pos) :: pos < k < pos + |Text(d)|
  {
    hide Encode;
    match d
    case End =>
    case Raw(b, r) => TreeBounds(r, pos + |b|);
    case Hole(_, _, h, _, r) => TreeBounds(r, pos + RecordSize(|h|));
    case Sub(_, i, r) => TreeBounds(r, pos + RecordSize(|Text(i)|));
  }

  lemma {:induction false} TreeEmpty(d: Doc, pos: nat)
    ensures TreeOf(d, pos) == map[] <==> !Bearing(d)
  {
    match d
    case End =>
    case Raw(b, r) => TreeEmpty(r, pos + |b|);
    case Hole(_, _, h, _, r) => assert pos + 1 in TreeOf(d, pos);
    case Sub(_, i, r) =>
      TreeEmpty(r, pos + RecordSize(|Text(i)|));
      assert Bearing(i) ==> pos + 1 in TreeOf(d, pos);
  }

  // -------------------------------------------------------------------- chains

  /**
    `chain` leads to a hole for `id`: the positions of the length varints around it,
    outermost first, and last the position of its own.
    */
  predicate IsSpot(d: Doc, pos: nat, chain: seq<nat>, id: Id) {
    match d
    case End => false
    case Raw(b, r) => IsSpot(r, pos + |b|, chain, id)
    case Hole(_, hid, h, _, r) =>
      || (chain == [pos + 1] && id == hid)
      || IsSpot(r, pos + RecordSize(|h|), chain, id)
    case Sub(_, i, r) =>
      || (|chain| > 1 && chain[0] == pos + 1 && IsSpot(i, Inside(i, pos), chain[1..], id))
      || IsSpot(r, pos + RecordSize(|Text(i)|), chain, id)
  }

  lemma {:induction false} SpotBounds(d: Doc, pos: nat, chain: seq<nat>, id: Id)
    requires IsSpot(d, pos, chain, id)
    ensures |chain| > 0 && pos < chain[0] < pos + |Text(d)|
    ensures Bearing(d)
  {
    match d
    case Raw(b, r) => SpotBounds(r, pos + |b|, chain, id);
    case Hole(_, hid, h, _, r) =>
      if !(chain == [pos + 1] && id == hid) { SpotBounds(r, pos + RecordSize(|h|), chain, id); }
    case Sub(_, i, r) =>
      if |chain| > 1 && chain[0] == pos + 1 && IsSpot(i, Inside(i, pos), chain[1..], id) {
        SpotBounds(i, Inside(i, pos), chain[1..], id);
      } else {
        SpotBounds(r, pos + RecordSize(|Text(i)|), chain, id);
      }
  }

  /** No chain runs through another block's position, and none names two blocks. */
  lemma {:induction false} SpotsPrefixFree(d: Doc, pos: nat, c0: seq<nat>, id0: Id, c1: seq<nat>, id1: Id)
    requires IsSpot(d, pos, c0, id0) && IsSpot(d, pos, c1, id1) && c0 <= c1
    ensures c0 == c1 && id0 == id1
  {
    SpotBounds(d, pos, c0, id0);
    SpotBounds(d, pos, c1, id1);
    match d
    case Raw(b, r) => SpotsPrefixFree(r, pos + |b|, c0, id0, c1, id1);
    case Hole(_, hid, h, _, r) =>
      var next := pos + RecordSize(|h|);
      forall c, id | IsSpot(r, next, c, id) ensures |c| > 0 && c[0] > pos + 1 { SpotBounds(r, next, c, id); }
      if c0[0] != pos + 1 { SpotsPrefixFree(r, next, c0, id0, c1, id1); }
    case Sub(_, i, r) =>
      var next := pos + RecordSize(|Text(i)|);
      forall c, id | IsSpot(r, next, c, id) ensures |c| > 0 && c[0] > pos + 1 { SpotBounds(r, next, c, id); }
      if c0[0] == pos + 1 {
        SpotsPrefixFree(i, Inside(i, pos), c0[1..], id0, c1[1..], id1);
      } else {
        SpotsPrefixFree(r, next, c0, id0, c1, id1);
      }
  }

  // ------------------------------------------------- the tree and its chains

  /** Following `chain` down from `kids` ends in the block `id`. */
  predicate HasLeaf(kids: Kids, chain: seq<nat>, id: Id)
    decreases |chain|
  {
    && |chain| > 0
    && chain[0] in kids
    && match kids[chain[0]]
       case Leaf(lid) => |chain| == 1 && lid == id
       case Branch(sub) => HasLeaf(sub, chain[1..], id)
  }

  /** Every branch leads to a block. */
  predicate Solid(kids: Kids)
    decreases Branch(kids)
  {
    forall k <- kids :: kids[k].Branch? ==> kids[k].kids != map[] && Solid(kids[k].kids)
  }

  lemma {:induction false} TreeLeaves(d: Doc, pos: nat, chain: seq<nat>, id: Id)
    ensures HasLeaf(TreeOf(d, pos), chain, id) <==> IsSpot(d, pos, chain, id)
  {
    hide Encode;
    match d
    case End =>
    case Raw(b, r) => TreeLeaves(r, pos + |b|, chain, id);
    case Hole(_, _, h, _, r) =>
      var next := pos + RecordSize(|h|);
      TreeLeaves(r, next, chain, id);
      TreeBounds(r, next);
      if IsSpot(r, next, chain, id) { SpotBounds(r, next, chain, id); }
    case Sub(_, i, r) =>
      var next := pos + RecordSize(|Text(i)|);
      TreeLeaves(r, next, chain, id);
      TreeBounds(r, next);
      if IsSpot(r, next, chain, id) { SpotBounds(r, next, chain, id); }
      if |chain| > 0 {
        TreeLeaves(i, Inside(i, pos), chain[1..], id);
        if IsSpot(i, Inside(i, pos), chain[1..], id) { SpotBounds(i, Inside(i, pos), chain[1..], id); }
      }
  }

  lemma {:induction false} TreeSolid(d: Doc, pos: nat)
    ensures Solid(TreeOf(d, pos))
  {
    match d
    case End =>
    case Raw(b, r) => TreeSolid(r, pos + |b|);
    case Hole(_, _, h, _, r) => TreeSolid(r, pos + RecordSize(|h|));
    case Sub(_, i, r) =>
      TreeSolid(r, pos + RecordSize(|Text(i)|));
      TreeSolid(i, Inside(i, pos));
      TreeEmpty(i, Inside(i, pos));
  }

  /** A solid, non-empty tree has a leaf. */
  lemma {:induction false} SomeLeaf(kids: Kids) returns (chain: seq<nat>, id: Id)
    requires Solid(kids) && kids != map[]
    ensures HasLeaf(kids, chain, id)
    decreases Branch(kids)
  {
    var k :| k in kids;
    match kids[k]
    case Leaf(lid) => chain, id := [k], lid;
    case Branch(sub) =>
      var c, i := SomeLeaf(sub);
      chain, id := [k] + c, i;
      assert chain[1..] == c;
  }

  /** A solid tree is determined by its leaves, whatever order it was filled in. */
  lemma {:induction false} SameLeaves(a: Kids, b: Kids)
    requires Solid(a) && Solid(b)
    requires forall c, id :: HasLeaf(a, c, id) <==> HasLeaf(b, c, id)
    ensures a == b
    decreases Branch(a)
  {
    SameKeys(a, b);
    SameKeys(b, a);
    forall k | k in a
      ensures a[k] == b[k]
    {
      if a[k].Leaf? {
        assert HasLeaf(a, [k], a[k].id);
        assert HasLeaf(b, [k], a[k].id);
        if b[k].Branch? { assert !HasLeaf(b[k].kids, [k][1..], a[k].id); }
      } else {
        var c, id := SomeLeaf(a[k].kids);
        assert ([k] + c)[1..] == c;
        assert HasLeaf(a, [k] + c, id);
        assert HasLeaf(b, [k] + c, id);
        assert b[k].Branch?;
        forall c, id
          ensures HasLeaf(a[k].kids, c, id) <==> HasLeaf(b[k].kids, c, id)
        {
          assert ([k] + c)[1..] == c;
          assert HasLeaf(a, [k] + c, id) <==> HasLeaf(b, [k] + c, id);
        }
        SameLeaves(a[k].kids, b[k].kids);
      }
    }
  }

  lemma SameKeys(a: Kids, b: Kids)
    requires Solid(a)
    requires forall c, id :: HasLeaf(a, c, id) ==> HasLeaf(b, c, id)
    ensures a.Keys <= b.Keys
  {
    forall k | k in a
      ensures k in b
    {
      match a[k]
      case Leaf(lid) => assert HasLeaf(a, [k], lid);
      case Branch(sub) =>
        var c, id := SomeLeaf(sub);
        assert ([k] + c)[1..] == c;
        assert HasLeaf(a, [k] + c, id);
    }
  }

  // ----------------------------------------------------------------- lengths

  /** What a length varint states here and must state there; whether it is a block's. */
  datatype Length = Length(there: nat, here: nat, leaf: bool)

  /** Every length varint above a hole, by its position. */
  function Lengths(d: Doc, pos: nat): map<nat, Length> {
    match d
    case End => map[]
    case Raw(b, r) => Lengths(r, pos + |b|)
    case Hole(_, _, h, th, r) => map[pos + 1 := Length(|th|, |h|, true)] + Lengths(r, pos + RecordSize(|h|))
    case Sub(_, i, r) => OwnLength(i, pos) + Lengths(i, Inside(i, pos)) + Lengths(r, pos + RecordSize(|Text(i)|))
  }

  function OwnLength(inner: Doc, pos: nat): map<nat, Length> {
    if Bearing(inner) then map[pos + 1 := Length(|Text(Flip(inner))|, |Text(inner)|, false)] else map[]
  }

  lemma TextStep(d: Doc)
    requires !d.End?
    ensures Text(d) == First(d) + Text(d.rest)
    ensures |First(d)| == if d.Raw? then |d.raw| else RecordSize(if d.Hole? then |d.here| else |Text(d.inner)|)
  {
  }

  lemma {:induction false} LengthBounds(d: Doc, pos: nat)
    ensures forall k <- Lengths(d, pos) :: pos < k < pos + |Text(d)|
    ensures Lengths(d, pos) == map[] <==> !Bearing(d)
  {
    hide Encode, Text, First, Flip;
    if !d.End? {
      var next := pos + |First(d)|;
      TextStep(d);
      LengthBounds(d.rest, next);
      if d.Sub? { LengthBounds(d.inner, Inside(d.inner, pos)); }
      SomeLength(d, pos);
    }
  }

  lemma SomeLength(d: Doc, pos: nat)
    requires !d.End?
    ensures d.Hole? || (d.Sub? && Bearing(d.inner)) ==> pos + 1 in Lengths(d, pos)
    ensures forall k <- Lengths(d.rest, pos + |First(d)|) :: k in Lengths(d, pos)
  {
    hide Encode, Text, Flip;
  }

  // ------------------------------------------ taking the fields in any order

  /** The field whose length varint is at `key`, alone. */
  ghost function Pick(d: Doc, pos: nat, key: nat): Doc
    requires key in TreeOf(d, pos)
    decreases d
  {
    match d
    case Raw(b, r) => Pick(r, pos + |b|, key)
    case Hole(t, id, h, th, r) =>
      if key == pos + 1 then Hole(t, id, h, th, End) else Pick(r, pos + RecordSize(|h|), key)
    case Sub(t, i, r) =>
      if key == pos + 1 && Bearing(i) then Sub(t, i, End) else Pick(r, pos + RecordSize(|Text(i)|), key)
  }

  /** The document with that field turned into plain bytes. */
  ghost function Freeze(d: Doc, pos: nat, key: nat): Doc
    requires key in TreeOf(d, pos)
    decreases d
  {
    match d
    case Raw(b, r) => Raw(b, Freeze(r, pos + |b|, key))
    case Hole(t, id, h, th, r) =>
      if key == pos + 1 then Raw(Record(t, h), r) else Hole(t, id, h, th, Freeze(r, pos + RecordSize(|h|), key))
    case Sub(t, i, r) =>
      if key == pos + 1 && Bearing(i)
      then Raw(Record(t, Text(i)), r)
      else Sub(t, i, Freeze(r, pos + RecordSize(|Text(i)|), key))
  }

  lemma {:induction false} PickFacts(d: Doc, pos: nat, key: nat)
    requires key in TreeOf(d, pos)
    ensures pos < key && key - 1 + |Text(Pick(d, pos, key))| <= pos + |Text(d)|
    ensures var p := Pick(d, pos, key);
      match TreeOf(d, pos)[key]
      case Leaf(id) => p.Hole? && p.id == id && p.rest == End
      case Branch(kids) => p.Sub? && p.rest == End && Bearing(p.inner) && kids == TreeOf(p.inner, Inside(p.inner, key - 1))
    ensures HoleIds(Pick(d, pos, key)) <= HoleIds(d)
  {
    hide Encode;
    TreeBounds(d, pos);
    match d
    case Raw(b, r) => PickFacts(r, pos + |b|, key);
    case Hole(t, _, h, _, r) =>
      TreeBounds(r, pos + RecordSize(|h|));
      if key != pos + 1 { PickFacts(r, pos + RecordSize(|h|), key); }
    case Sub(t, i, r) =>
      TreeBounds(r, pos + RecordSize(|Text(i)|));
      if !(key == pos + 1 && Bearing(i)) { PickFacts(r, pos + RecordSize(|Text(i)|), key); }
  }

  lemma {:induction false} PickAt(d: Doc, pos: nat, key: nat, whole: bytes)
    requires key in TreeOf(d, pos) && At(whole, pos, Text(d))
    ensures key > 0 && At(whole, key - 1, Text(Pick(d, pos, key)))
  {
    hide Encode;
    TreeBounds(d, pos);
    AtSplit(whole, pos, First(d), Text(d.rest));
    if d.Raw? || key in TreeOf(d.rest, pos + |First(d)|) {
      TreeBounds(d.rest, pos + |First(d)|);
      PickAt(d.rest, pos + |First(d)|, key, whole);
    } else {
      assert Text(Pick(d, pos, key)) == First(d) + [];
    }
  }

  /** Freezing a field keeps the text, hence every other position. */
  lemma {:induction false} FreezeText(d: Doc, pos: nat, key: nat)
    requires key in TreeOf(d, pos)
    ensures Text(Freeze(d, pos, key)) == Text(d)
    decreases d
  {
    hide Encode, Text, First, Freeze, Pick, TreeOf;
    FreezeStep(d, pos, key);
    TextStep(d);
    TextStep(Freeze(d, pos, key));
    if !(key == pos + 1 && (d.Hole? || (d.Sub? && Bearing(d.inner)))) {
      FreezeText(d.rest, pos + |First(d)|, key);
    } else {
      RawFirst(First(d), d.rest);
    }
  }

  lemma RawFirst(b: bytes, r: Doc)
    ensures First(Raw(b, r)) == b
  {
  }

  lemma {:induction false} FreezeTree(d: Doc, pos: nat, key: nat)
    requires key in TreeOf(d, pos)
    ensures TreeOf(Freeze(d, pos, key), pos) == TreeOf(d, pos) - {key}
    ensures HoleIds(d) == HoleIds(Freeze(d, pos, key)) + HoleIds(Pick(d, pos, key))
    decreases d
  {
    hide Encode, Text;
    var next := pos + |First(d)|;
    TreeBounds(d.rest, next);
    if key in TreeOf(d.rest, next) && (d.Raw? || key != pos + 1) {
      FreezeTree(d.rest, next, key);
    }
  }

  /** What freezing takes out of the other filling is the picked field's share. */
  lemma {:induction false} FreezeSize(d: Doc, pos: nat, key: nat)
    requires key in TreeOf(d, pos)
    ensures var f, p := Freeze(d, pos, key), Pick(d, pos, key);
      |Text(Flip(d))| + |Text(p)| == |Text(Flip(f))| + |Text(Flip(p))|
    decreases d
  {
    hide Encode;
    var next := pos + |First(d)|;
    TreeBounds(d.rest, next);
    if key in TreeOf(d.rest, next) && (d.Raw? || key != pos + 1) {
      FreezeSize(d.rest, next, key);
    } else {
      assert Text(Pick(d, pos, key)) == First(d) + [];
      assert Text(Flip(Pick(d, pos, key))) == First(Flip(d)) + [];
      assert Text(Flip(d)) == First(Flip(d)) + Text(Flip(d.rest));
      assert Text(Flip(Freeze(d, pos, key))) == First(d) + Text(Flip(d.rest));
    }
  }

  /** The lengths of the first field. */
  ghost function FieldLengths(d: Doc, pos: nat): map<nat, Length> {
    match d
    case End => map[]
    case Raw(_, _) => map[]
    case Hole(_, _, h, th, _) => map[pos + 1 := Length(|th|, |h|, true)]
    case Sub(_, i, _) => OwnLength(i, pos) + Lengths(i, Inside(i, pos))
  }

  lemma LengthsStep(d: Doc, pos: nat)
    requires !d.End?
    ensures var next := pos + |First(d)|;
      && Lengths(d, pos) == FieldLengths(d, pos) + Lengths(d.rest, next)
      && (forall k <- FieldLengths(d, pos) :: pos < k < next)
      && (forall k <- Lengths(d.rest, next) :: next < k)
  {
    hide Encode, Text;
    LengthBounds(d.rest, pos + |First(d)|);
    if d.Sub? { LengthBounds(d.inner, Inside(d.inner, pos)); }
    MapAssoc(map[], map[], Lengths(d.rest, pos + |First(d)|));
    assert map[] + Lengths(d.rest, pos + |First(d)|) == Lengths(d.rest, pos + |First(d)|);
  }

  /** What is recorded inside the first field, or after it, is recorded. */
  lemma LengthAt(d: Doc, pos: nat, k: nat)
    requires !d.End?
    ensures var next := pos + |First(d)|;
      && (k in Lengths(d.rest, next) ==> k in Lengths(d, pos) && Lengths(d, pos)[k] == Lengths(d.rest, next)[k])
      && (d.Sub? && k in Lengths(d.inner, Inside(d.inner, pos)) ==>
            k in Lengths(d, pos) && Lengths(d, pos)[k] == Lengths(d.inner, Inside(d.inner, pos))[k])
      && (d.Hole? && k == pos + 1 ==> k in Lengths(d, pos) && Lengths(d, pos)[k] == Length(|d.there|, |d.here|, true))
  {
    hide Encode, Text, Lengths, First;
    LengthsStep(d, pos);
  }

  /** The field at `key` is the first, or one of the rest. */
  lemma FreezeStep(d: Doc, pos: nat, key: nat)
    requires key in TreeOf(d, pos)
    ensures !d.End?
    ensures var f, p, next := Freeze(d, pos, key), Pick(d, pos, key), pos + |First(d)|;
      if key == pos + 1 && (d.Hole? || (d.Sub? && Bearing(d.inner))) then
        && f == Raw(First(d), d.rest)
        && !p.End? && p.rest == End && FieldLengths(p, pos) == FieldLengths(d, pos)
      else
        && key in TreeOf(d.rest, next) && p == Pick(d.rest, next, key)
        && !f.End? && f.rest == Freeze(d.rest, next, key)
        && First(f) == First(d) && FieldLengths(f, pos) == FieldLengths(d, pos)
  {
    hide Encode, Text, Lengths;
  }

  lemma {:induction false} FreezeLengths(d: Doc, pos: nat, key: nat)
    requires key in TreeOf(d, pos) && key > 0
    ensures Lengths(d, pos) == Lengths(Freeze(d, pos, key), pos) + Lengths(Pick(d, pos, key), key - 1)
    decreases d
  {
    hide Encode, Text, Lengths, FieldLengths, Freeze, Pick, TreeOf, First;
    FreezeStep(d, pos, key);
    var f, p, next := Freeze(d, pos, key), Pick(d, pos, key), pos + |First(d)|;
    LengthsStep(d, pos);
    if key == pos + 1 && (d.Hole? || (d.Sub? && Bearing(d.inner))) {
      FrozenFirst(d, pos, p);
      MapSwap(FieldLengths(d, pos), Lengths(d.rest, next));
    } else {
      LengthsStep(f, pos);
      FreezeLengths(d.rest, next, key);
      MapAssoc(FieldLengths(d, pos), Lengths(f.rest, next), Lengths(p, key - 1));
    }
  }

  /** A first field turned into plain bytes, and a field alone. */
  lemma FrozenFirst(d: Doc, pos: nat, p: Doc)
    requires !d.End? && !p.End? && p.rest == End && FieldLengths(p, pos) == FieldLengths(d, pos)
    ensures Lengths(Raw(First(d), d.rest), pos) == Lengths(d.rest, pos + |First(d)|)
    ensures Lengths(p, pos) == FieldLengths(d, pos)
  {
    hide Encode, Text, First;
    LengthsStep(p, pos);
    assert FieldLengths(p, pos) + map[] == FieldLengths(p, pos);
  }

  /** The picked field's lengths and the others' are at different positions. */
  lemma {:induction false} FreezeApart(d: Doc, pos: nat, key: nat, k: nat)
    requires key in TreeOf(d, pos) && key > 0
    requires k in Lengths(Pick(d, pos, key), key - 1)
    ensures k > pos && k !in Lengths(Freeze(d, pos, key), pos)
    decreases d
  {
    hide Encode, Text, Lengths, FieldLengths, Freeze, Pick, TreeOf, First;
    FreezeStep(d, pos, key);
    var f, p, next := Freeze(d, pos, key), Pick(d, pos, key), pos + |First(d)|;
    LengthsStep(d, pos);
    if key == pos + 1 && (d.Hole? || (d.Sub? && Bearing(d.inner))) {
      FrozenFirst(d, pos, p);
    } else {
      LengthsStep(f, pos);
      FreezeApart(d.rest, next, key, k);
    }
  }

  lemma FreezeKeeps(d: Doc, pos: nat, key: nat, k: nat)
    requires key in TreeOf(d, pos)
    requires k in Lengths(Freeze(d, pos, key), pos)
    ensures k in Lengths(d, pos) && Lengths(d, pos)[k] == Lengths(Freeze(d, pos, key), pos)[k]
  {
    hide Encode, Text, Lengths, Freeze, Pick, TreeOf;
    TreeBounds(d, pos);
    FreezeLengths(d, pos, key);
    if k in Lengths(Pick(d, pos, key), key - 1) { FreezeApart(d, pos, key, k); }
  }

  /** The bytes taken by the fields that bear holes. */
  ghost function BearingSize(d: Doc): nat {
    match d
    case End => 0
    case Raw(_, r) => BearingSize(r)
    case Hole(_, _, h, _, r) => RecordSize(|h|) + BearingSize(r)
    case Sub(_, i, r) => (if Bearing(i) then RecordSize(|Text(i)|) else 0) + BearingSize(r)
  }

  lemma {:induction false} BearingFits(d: Doc)
    ensures BearingSize(d) <= |Text(d)|
  {
    if !d.End? { BearingFits(d.rest); }
  }

  lemma {:induction false} FreezeBearing(d: Doc, pos: nat, key: nat)
    requires key in TreeOf(d, pos)
    ensures BearingSize(d) == BearingSize(Freeze(d, pos, key)) + |Text(Pick(d, pos, key))|
    decreases d
  {
    hide Encode, Text;
    match d
    case Raw(b, r) => FreezeBearing(r, pos + |b|, key);
    case Hole(t, id, h, th, r) =>
      if key != pos + 1 { FreezeBearing(r, pos + RecordSize(|h|), key); } else { TextStep(Hole(t, id, h, th, End)); EmptyText(); }
    case Sub(t, i, r) =>
      if !(key == pos + 1 && Bearing(i)) { FreezeBearing(r, pos + RecordSize(|Text(i)|), key); }
      else { TextStep(Sub(t, i, End)); EmptyText(); }
  }

  lemma EmptyText()
    ensures Text(End) == []
  {
  }

  lemma {:induction false} NoIds(d: Doc)
    requires !Bearing(d)
    ensures HoleIds(d) == {}
  {
    if !d.End? {
      NoIds(d.rest);
      if d.Sub? { NoIds(d.inner); }
    }
  }

  /** A field alone: its lengths, its ids and its sizes both ways. */
  lemma LoneSub(t: byte, i: Doc, pos: nat)
    requires Bearing(i)
    ensures Lengths(Sub(t, i, End), pos) == map[pos + 1 := Length(|Text(Flip(i))|, |Text(i)|, false)] + Lengths(i, Inside(i, pos))
    ensures pos + 1 !in Lengths(i, Inside(i, pos))
    ensures |Text(Sub(t, i, End))| == RecordSize(|Text(i)|)
    ensures |Text(Flip(Sub(t, i, End)))| == RecordSize(|Text(Flip(i))|)
    ensures HoleIds(Sub(t, i, End)) == HoleIds(i)
  {
    hide Encode;
    LengthBounds(i, Inside(i, pos));
    MapSwap(OwnLength(i, pos) + Lengths(i, Inside(i, pos)), map[]);
  }

  lemma LoneHole(t: byte, id: Id, h: bytes, th: bytes, pos: nat)
    ensures Lengths(Hole(t, id, h, th, End), pos) == map[pos + 1 := Length(|th|, |h|, true)]
    ensures |Text(Hole(t, id, h, th, End))| == RecordSize(|h|)
    ensures |Text(Flip(Hole(t, id, h, th, End)))| == RecordSize(|th|)
    ensures HoleIds(Hole(t, id, h, th, End)) == {id}
  {
    hide Encode;
  }

  lemma MapAssoc<T>(a: map<nat, T>, b: map<nat, T>, c: map<nat, T>)
    ensures a + (b + c) == (a + b) + c
  {
  }

  lemma MapSwap<T>(a: map<nat, T>, b: map<nat, T>)
    requires a.Keys !! b.Keys
    ensures a + b == b + a
    ensures a + map[] == a
  {
  }
}
