/** `build_multiblock`: from a message with block pointers to a multiblock directory. */
module Builder {
  import opened Bytes
  import opened Varint
  import opened Documents
  import opened Layouts
  import opened Pointers
  import opened Messages
  import opened LengthsTrees
  import opened Stores
  import opened Reader

  datatype BuildError =
    | Inconsistent(missing: set<Id>)
    | NotATree
    | NotInRegistry(id: Id)
    | Unmeasurable(measuring: MeasureError)
    | NoVarint(position: nat)
    | NoPointerLength(position: nat)
    | TooShort
    | Misplaced(position: nat)
    | Unreadable(reading: ReadError)

  /** Where each pointer's length varint is, and how many bytes the pointer has. */
  function PointerSizes(d: Doc, pos: nat): map<nat, nat> {
    match d
    case End => map[]
    case Raw(b, r) => PointerSizes(r, pos + |b|)
    case Hole(_, _, h, _, r) => map[pos + 1 := |h|] + PointerSizes(r, pos + RecordSize(|h|))
    case Sub(_, i, r) => PointerSizes(i, Inside(i, pos)) + PointerSizes(r, pos + RecordSize(|Text(i)|))
  }

  /** The part of a dictionary of positions that lies in a stretch of the buffer. */
  ghost predicate Agrees<T>(whole: map<nat, T>, part: map<nat, T>, lo: nat, hi: nat) {
    && (forall k <- part :: k in whole && whole[k] == part[k])
    && (forall k <- whole :: lo < k < hi ==> k in part)
  }

  /** What the dictionaries hold, with the rest of the document added, stays the same. */
  ghost predicate Gathers(c0: Container, sizes0: map<nat, nat>, d0: Doc, pos0: nat,
                          c: Container, sizes: map<nat, nat>, d: Doc, pos: nat, pointers: seq<nat>)
  {
    && AddAll(c0, Spots(d0, pointers, pos0)) == AddAll(c, Spots(d, pointers, pos))
    && sizes0 + PointerSizes(d0, pos0) == sizes + PointerSizes(d, pos)
  }

  lemma NothingLeft(c0: Container, sizes0: map<nat, nat>, d0: Doc, pos0: nat, c: Container, sizes: map<nat, nat>,
                    pos: nat, pointers: seq<nat>)
    requires Gathers(c0, sizes0, d0, pos0, c, sizes, End, pos, pointers)
    ensures c == AddAll(c0, Spots(d0, pointers, pos0)) && sizes == sizes0 + PointerSizes(d0, pos0)
  {
  }

  lemma RawStep(c0: Container, sizes0: map<nat, nat>, d0: Doc, pos0: nat, c: Container, sizes: map<nat, nat>, d: Doc,
                pos: nat, pointers: seq<nat>)
    requires Gathers(c0, sizes0, d0, pos0, c, sizes, d, pos, pointers) && d.Raw?
    ensures Gathers(c0, sizes0, d0, pos0, c, sizes, d.rest, pos + |d.raw|, pointers)
  {
  }

  lemma LinkStep(c0: Container, sizes0: map<nat, nat>, d0: Doc, pos0: nat, c: Container, sizes: map<nat, nat>, d: Doc,
                 pos: nat, pointers: seq<nat>)
    requires Gathers(c0, sizes0, d0, pos0, c, sizes, d, pos, pointers) && d.Hole?
    ensures var c' := c[d.id := (if d.id in c then c[d.id] else []) + [pointers + [pos + 1]]];
      Gathers(c0, sizes0, d0, pos0, c', sizes[pos + 1 := |d.here|], d.rest, pos + RecordSize(|d.here|), pointers)
  {
    hide Encode, Text;
    var spot := Spot(d.id, pointers + [pos + 1]);
    var more := Spots(d.rest, pointers, pos + RecordSize(|d.here|));
    assert Spots(d, pointers, pos) == [spot] + more;
    assert ([spot] + more)[1..] == more;
    MapAssoc(sizes, map[pos + 1 := |d.here|], PointerSizes(d.rest, pos + RecordSize(|d.here|)));
  }

  lemma NestedStep(c0: Container, sizes0: map<nat, nat>, d0: Doc, pos0: nat, c: Container, sizes: map<nat, nat>,
                   d: Doc, pos: nat, pointers: seq<nat>)
    requires Gathers(c0, sizes0, d0, pos0, c, sizes, d, pos, pointers) && d.Sub?
    ensures var inside := Inside(d.inner, pos);
      Gathers(c0, sizes0, d0, pos0, AddAll(c, Spots(d.inner, pointers + [pos + 1], inside)),
              sizes + PointerSizes(d.inner, inside),
              d.rest, pos + RecordSize(|Text(d.inner)|), pointers)
  {
    hide Encode;
    var inside, next := Inside(d.inner, pos), pos + RecordSize(|Text(d.inner)|);
    AddAllAppend(c, Spots(d.inner, pointers + [pos + 1], inside), Spots(d.rest, pointers, next));
    MapAssoc(sizes, PointerSizes(d.inner, inside), PointerSizes(d.rest, next));
  }

  // ------------------------------------------------------------------- searching

  /** The dictionaries `search_on_message` fills in place. */
  class Search {
    const ctx: Context
    var container: Container
    var pointerLengths: map<nat, nat>

    constructor (ctx: Context)
      ensures this.ctx == ctx && container == map[] && pointerLengths == map[]
    {
      this.ctx := ctx;
      container := map[];
      pointerLengths := map[];
    }

    /** `search_on_message`: the content of blocks does not matter here, any will do. */
    method SearchOnMessage(message: Message, pointers: seq<nat>, initialPosition: nat, ghost content: Id -> bytes)
      modifies this
      ensures var d := DocOf(message, ctx, content);
        && container == AddAll(old(container), Spots(d, pointers, initialPosition))
        && pointerLengths == old(pointerLengths) + PointerSizes(d, initialPosition)
      decreases message
    {
      hide Encode, AddAll, Spots, PointerSizes, Text, Serialize, PointerBytes, Gathers;
      var position: nat := initialPosition;
      var fields := message;
      ghost var d0, c0, sizes0 := DocOf(message, ctx, content), container, pointerLengths;
      assert Gathers(c0, sizes0, d0, initialPosition, container, pointerLengths, d0, initialPosition, pointers) by {
        StartGathering(c0, sizes0, d0, initialPosition, pointers);
      }
      while fields != NoFields
        invariant fields == message || fields < message
        invariant Gathers(c0, sizes0, d0, initialPosition, container, pointerLengths, DocOf(fields, ctx, content), position, pointers)
        decreases fields
      {
        ghost var d := DocOf(fields, ctx, content);
        match fields {
          case Nested(_, inner, _) =>
            var size := |Serialize(inner)|;
            DocText(inner, ctx, content);
            NestedStep(c0, sizes0, d0, initialPosition, container, pointerLengths, d, position, pointers);
            SearchOnMessage(inner, pointers + [position + 1], position + 1 + Width(size), content);
            position := position + 1 + Width(size) + size;
          case Link(_, pointer, _) =>
            var size := |PointerBytes(pointer)|;
            var id := Selected(ctx, pointer);
            if id.Some? {
              LinkStep(c0, sizes0, d0, initialPosition, container, pointerLengths, d, position, pointers);
              container := container[id.value :=
                (if id.value in container then container[id.value] else []) + [pointers + [position + 1]]];
              pointerLengths := pointerLengths[position + 1 := size];
            } else {
              RawStep(c0, sizes0, d0, initialPosition, container, pointerLengths, d, position, pointers);
            }
            position := position + 1 + Width(size) + size;
          case Blob(_, payload, _) =>
            RawStep(c0, sizes0, d0, initialPosition, container, pointerLengths, d, position, pointers);
            position := position + 1 + Width(|payload|) + |payload|;
          case Scalar(raw, _) =>
            RawStep(c0, sizes0, d0, initialPosition, container, pointerLengths, d, position, pointers);
            position := position + |raw|;
        }
        fields := fields.more;
      }
      NothingLeft(c0, sizes0, d0, initialPosition, container, pointerLengths, position, pointers);
    }
  }

  lemma StartGathering(c: Container, sizes: map<nat, nat>, d: Doc, pos: nat, pointers: seq<nat>)
    ensures Gathers(c, sizes, d, pos, c, sizes, d, pos, pointers)
  {
  }

  // ------------------------------------------------------------------- measuring

  /** `pointer_lengths` has the measured length of every pointer in the document. */
  ghost predicate Measured(pointerLengths: map<nat, nat>, lengths: map<nat, Length>) {
    forall k <- lengths :: lengths[k].leaf ==> k in pointerLengths && pointerLengths[k] == lengths[k].here
  }

  /** The error names a block that is not stored, or is what measuring one met. */
  predicate CannotMeasure(s: Store, error: BuildError) {
    match error
    case NotInRegistry(id) => id !in s
    case Unmeasurable(_) => true
    case _ => false
  }

  /** `traverse_tree`, the recursion of `compute_real_lengths`, over dictionaries in any order. */
  method TraverseTree(s: Store, tree: Kids, buffer: bytes, initialTotalLength: nat, pointerLengths: map<nat, nat>,
                      ghost d: Doc, ghost pos: nat)
    returns (r: Result<(nat, map<nat, Length>), BuildError>)
    requires tree == TreeOf(d, pos) && At(buffer, pos, Text(d)) && initialTotalLength == |Text(d)|
    requires Holds(Flip(d), Contents(s)) && Measured(pointerLengths, Lengths(d, pos))
    ensures r.Ok? <==> AllWhole(s, HoleIds(d))
    ensures r.Err? ==> CannotMeasure(s, r.error)
    ensures r.Ok? ==> r.value == (|Text(Flip(d))|, Lengths(d, pos))
    decreases Branch(tree), 0
  {
    hide *;
    var realLengths: map<nat, Length> := map[];
    var totalTreeLength, totalBlockLength := 0, 0;
    var todo := tree;
    ghost var left := d;
    StartTraversing(s, d, pos, buffer, pointerLengths);
    while todo != map[]
      invariant todo == TreeOf(left, pos)
      invariant todo.Keys <= tree.Keys && forall k <- todo :: todo[k] == tree[k]
      invariant Traversing(s, d, pos, buffer, pointerLengths, left, realLengths, totalTreeLength, totalBlockLength)
      decreases |todo|
    {
      var key :| key in todo;
      FieldReady(s, d, pos, buffer, pointerLengths, left, realLengths, totalTreeLength, totalBlockLength, key);
      var field := MeasureField(s, todo[key], key, buffer, pointerLengths, left, pos);
      if field.Err? {
        FieldMissing(s, left, d, pos, key);
        return Err(field.error);
      }
      var (entry, inside) := field.value;
      TraverseStep(s, d, pos, buffer, pointerLengths, left, realLengths, totalTreeLength, totalBlockLength, key, entry,
                   inside);
      realLengths := realLengths[key := entry] + inside;
      totalTreeLength := totalTreeLength + entry.there + Width(entry.there) + 1;
      totalBlockLength := totalBlockLength + entry.here + Width(entry.here) + 1;
      todo := todo - {key};
      left := Freeze(left, pos, key);
    }
    EndTraversing(s, d, pos, buffer, pointerLengths, left, realLengths, totalTreeLength, totalBlockLength);
    if initialTotalLength < totalBlockLength {
      return Err(TooShort);
    }
    return Ok((totalTreeLength + initialTotalLength - totalBlockLength, realLengths));
  }

  /** `left` is `d` with the fields taken so far turned into plain bytes. */
  ghost predicate Traversing(s: Store, d: Doc, pos: nat, buffer: bytes, pointerLengths: map<nat, nat>, left: Doc,
                             realLengths: map<nat, Length>, trees: int, blocks: int) {
    && At(buffer, pos, Text(left)) && Holds(Flip(left), Contents(s))
    && |Text(Flip(d))| + blocks == |Text(Flip(left))| + trees
    && BearingSize(d) == BearingSize(left) + blocks && |Text(left)| == |Text(d)|
    && Collected(realLengths, Lengths(left, pos), Lengths(d, pos)) && Measured(pointerLengths, Lengths(left, pos))
    && HoleIds(left) <= HoleIds(d) && AllWhole(s, HoleIds(d) - HoleIds(left))
  }

  lemma StartTraversing(s: Store, d: Doc, pos: nat, buffer: bytes, pointerLengths: map<nat, nat>)
    requires At(buffer, pos, Text(d)) && Holds(Flip(d), Contents(s)) && Measured(pointerLengths, Lengths(d, pos))
    ensures Traversing(s, d, pos, buffer, pointerLengths, d, map[], 0, 0)
  {
    hide At, Text, Holds, Flip, Contents, Lengths, Measured, HoleIds, BearingSize, Whole;
    NothingCollected(Lengths(d, pos));
    assert HoleIds(d) - HoleIds(d) == {};
  }

  lemma FieldReady(s: Store, d: Doc, pos: nat, buffer: bytes, pointerLengths: map<nat, nat>, left: Doc,
                   realLengths: map<nat, Length>, trees: int, blocks: int, key: nat)
    requires Traversing(s, d, pos, buffer, pointerLengths, left, realLengths, trees, blocks) && key in TreeOf(left, pos)
    ensures key > 0
    ensures At(buffer, key - 1, Text(Pick(left, pos, key))) && Holds(Flip(Pick(left, pos, key)), Contents(s))
    ensures Measured(pointerLengths, Lengths(Pick(left, pos, key), key - 1))
    ensures TreeOf(Freeze(left, pos, key), pos) == TreeOf(left, pos) - {key}
    ensures HoleIds(Pick(left, pos, key)) <= HoleIds(d)
  {
    hide At, Text, Holds, Flip, Contents, Lengths, HoleIds, BearingSize, AllWhole, Collected, TreeOf, Pick, Freeze;
    FreezeAll(s, left, pos, key, buffer);
  }

  lemma FieldMissing(s: Store, left: Doc, d: Doc, pos: nat, key: nat)
    requires key in TreeOf(left, pos) && HoleIds(Pick(left, pos, key)) <= HoleIds(d)
    requires !AllWhole(s, HoleIds(Pick(left, pos, key)))
    ensures !AllWhole(s, HoleIds(d))
  {
    hide Whole, HoleIds, Pick, TreeOf;
  }

  lemma TraverseStep(s: Store, d: Doc, pos: nat, buffer: bytes, pointerLengths: map<nat, nat>, left: Doc,
                     realLengths: map<nat, Length>, trees: int, blocks: int, key: nat, entry: Length, inside: map<nat, Length>)
    requires Traversing(s, d, pos, buffer, pointerLengths, left, realLengths, trees, blocks)
    requires key in TreeOf(left, pos) && key > 0
    requires var p := Pick(left, pos, key);
      && AllWhole(s, HoleIds(p)) && map[key := entry] + inside == Lengths(p, key - 1)
      && RecordSize(entry.there) == |Text(Flip(p))| && RecordSize(entry.here) == |Text(p)|
    ensures Traversing(s, d, pos, buffer, pointerLengths, Freeze(left, pos, key), realLengths[key := entry] + inside,
                       trees + entry.there + Width(entry.there) + 1, blocks + entry.here + Width(entry.here) + 1)
  {
    hide Encode, At, Text, Holds, Flip, Contents, Lengths, HoleIds, BearingSize, Collected, TreeOf, Pick, Freeze,
        Whole, Measured;
    FreezeAll(s, left, pos, key, buffer);
    PutAll(realLengths, key, entry, inside);
    Collect(realLengths, left, pos, key, Lengths(d, pos), realLengths[key := entry] + inside, pointerLengths);
  }

  lemma EndTraversing(s: Store, d: Doc, pos: nat, buffer: bytes, pointerLengths: map<nat, nat>, left: Doc,
                      realLengths: map<nat, Length>, trees: int, blocks: int)
    requires Traversing(s, d, pos, buffer, pointerLengths, left, realLengths, trees, blocks) && TreeOf(left, pos) == map[]
    ensures blocks <= |Text(d)| && AllWhole(s, HoleIds(d))
    ensures trees + |Text(d)| - blocks == |Text(Flip(d))| && realLengths == Lengths(d, pos)
  {
    hide At, Text, Holds, Flip, Contents, Lengths, HoleIds, TreeOf, Measured, Whole, Collected;
    Frozen(left, pos);
    BearingFits(d);
    NoneBear(left, pos);
    CollectedAll(realLengths, Lengths(d, pos));
    assert HoleIds(d) - {} == HoleIds(d);
  }

  lemma {:induction false} NoneBear(d: Doc, pos: nat)
    requires TreeOf(d, pos) == map[]
    ensures BearingSize(d) == 0
  {
    hide Encode, Text;
    TreeEmpty(d, pos);
    if !d.End? { NoneBear(d.rest, pos + |First(d)|); }
  }

  /** One entry of the tree: a branch recurses, a leaf asks how long the block is. */
  method MeasureField(s: Store, node: Node, key: nat, buffer: bytes, pointerLengths: map<nat, nat>, ghost d: Doc,
                      ghost pos: nat)
    returns (r: Result<(Length, map<nat, Length>), BuildError>)
    requires key in TreeOf(d, pos) && key > 0 && node == TreeOf(d, pos)[key]
    requires At(buffer, key - 1, Text(Pick(d, pos, key)))
    requires Holds(Flip(Pick(d, pos, key)), Contents(s))
    requires Measured(pointerLengths, Lengths(Pick(d, pos, key), key - 1))
    ensures var p := Pick(d, pos, key);
      && (r.Ok? <==> AllWhole(s, HoleIds(p)))
      && (r.Err? ==> CannotMeasure(s, r.error))
      && (r.Ok? ==>
            && map[key := r.value.0] + r.value.1 == Lengths(p, key - 1)
            && RecordSize(r.value.0.there) == |Text(Flip(p))| && RecordSize(r.value.0.here) == |Text(p)|)
    decreases node, 1
  {
    hide Encode, Text, Flip, TreeOf, Lengths, Bearing, Holds, Contents, At, Whole, Pick;
    ghost var p := Pick(d, pos, key);
    match node {
      case Branch(kids) =>
        BranchField(s, d, pos, key, buffer);
        var initialLength := GetPositionLength(key, buffer);
        if initialLength.None? {
          return Err(NoVarint(key));
        }
        var inside := TraverseTree(s, kids, buffer, initialLength.value, pointerLengths, p.inner, Inside(p.inner, key - 1));
        match inside {
          case Err(e) =>
            return Err(e);
          case Ok((realLength, internalLengths)) =>
            return Ok((Length(realLength, initialLength.value, false), internalLengths));
        }
      case Leaf(id) =>
        LeafField(s, d, pos, key);
        if key !in pointerLengths {
          return Err(NoPointerLength(key));
        }
        var blockLength := GetBlockLength(s, id);
        match blockLength {
          case Err(e) =>
            return Err(e);
          case Ok(realLength) =>
            return Ok((Length(realLength, pointerLengths[key], true), map[]));
        }
    }
  }

  ghost predicate AllWhole(s: Store, ids: set<Id>) {
    forall id <- ids :: Whole(s, id)
  }

  /** With no field left to take, the document is its own exchange. */
  lemma Frozen(d: Doc, pos: nat)
    requires TreeOf(d, pos) == map[]
    ensures Flip(d) == d && HoleIds(d) == {} && Lengths(d, pos) == map[]
  {
    TreeEmpty(d, pos);
    NoHoles(d);
    NoIds(d);
    LengthBounds(d, pos);
  }

  lemma LeafField(s: Store, d: Doc, pos: nat, key: nat)
    requires key in TreeOf(d, pos) && key > 0 && TreeOf(d, pos)[key].Leaf?
    requires Holds(Flip(Pick(d, pos, key)), Contents(s))
    ensures var p := Pick(d, pos, key); var id := TreeOf(d, pos)[key].id;
      && p.Hole? && HoleIds(p) == {id} && |p.there| == |Expansion(s, id)|
      && Lengths(p, key - 1) == map[key := Length(|p.there|, |p.here|, true)]
      && |Text(p)| == RecordSize(|p.here|) && |Text(Flip(p))| == RecordSize(|p.there|)
  {
    hide Encode;
    PickFacts(d, pos, key);
    var p := Pick(d, pos, key);
    assert p == Hole(p.tag, p.id, p.here, p.there, End);
    LoneHole(p.tag, p.id, p.here, p.there, key - 1);
  }

  lemma BranchField(s: Store, d: Doc, pos: nat, key: nat, buffer: bytes)
    requires key in TreeOf(d, pos) && key > 0 && TreeOf(d, pos)[key].Branch?
    requires At(buffer, key - 1, Text(Pick(d, pos, key)))
    requires Holds(Flip(Pick(d, pos, key)), Contents(s))
    ensures Pick(d, pos, key).Sub?
    ensures var p := Pick(d, pos, key); var i := p.inner; var inside := Inside(i, key - 1);
      && p.Sub? && HoleIds(p) == HoleIds(i)
      && TreeOf(d, pos)[key].kids == TreeOf(i, inside)
      && key < |buffer| && Decode(buffer[key..]) == Some(Read(|Text(i)|, Width(|Text(i)|)))
      && At(buffer, inside, Text(i))
      && Holds(Flip(i), Contents(s))
      && Lengths(p, key - 1) == map[key := Length(|Text(Flip(i))|, |Text(i)|, false)] + Lengths(i, inside)
      && key !in Lengths(i, inside)
      && |Text(p)| == RecordSize(|Text(i)|) && |Text(Flip(p))| == RecordSize(|Text(Flip(i))|)
  {
    hide Encode, Lengths, TreeOf, Pick;
    PickFacts(d, pos, key);
    var p := Pick(d, pos, key);
    assert p == Sub(p.tag, p.inner, End);
    assert Text(p) == Record(p.tag, Text(p.inner)) + [];
    RecordAt(buffer, key - 1, p.tag, Text(p.inner));
    LoneSub(p.tag, p.inner, key - 1);
  }

  ghost predicate Submap(a: map<nat, Length>, b: map<nat, Length>) {
    forall k <- a :: k in b && a[k] == b[k]
  }

  /** The lengths gathered so far, and those of the fields still to come, are all of them. */
  ghost predicate Collected(got: map<nat, Length>, left: map<nat, Length>, all: map<nat, Length>) {
    && Submap(got, all) && Submap(left, all)
    && forall k <- all :: k in got || k in left
  }

  lemma Collect(got: map<nat, Length>, d: Doc, pos: nat, key: nat, all: map<nat, Length>, got': map<nat, Length>,
                pointerLengths: map<nat, nat>)
    requires key in TreeOf(d, pos) && key > 0
    requires Collected(got, Lengths(d, pos), all) && Measured(pointerLengths, Lengths(d, pos))
    requires got' == got + Lengths(Pick(d, pos, key), key - 1)
    ensures Collected(got', Lengths(Freeze(d, pos, key), pos), all)
    ensures Measured(pointerLengths, Lengths(Freeze(d, pos, key), pos))
  {
    FreezeLengths(d, pos, key);
    forall k | k in Lengths(Freeze(d, pos, key), pos)
      ensures k in Lengths(d, pos) && Lengths(d, pos)[k] == Lengths(Freeze(d, pos, key), pos)[k]
    {
      FreezeKeeps(d, pos, key, k);
    }
  }

  lemma PutAll(got: map<nat, Length>, key: nat, entry: Length, more: map<nat, Length>)
    ensures got[key := entry] + more == got + (map[key := entry] + more)
  {
  }

  lemma NothingCollected(all: map<nat, Length>)
    ensures Collected(map[], all, all)
  {
  }

  lemma CollectedAll(got: map<nat, Length>, all: map<nat, Length>)
    requires Collected(got, map[], all)
    ensures got == all
  {
  }

  lemma FreezeAll(s: Store, d: Doc, pos: nat, key: nat, buffer: bytes)
    requires key in TreeOf(d, pos) && At(buffer, pos, Text(d)) && Holds(Flip(d), Contents(s))
    ensures key > 0
    ensures var f, p := Freeze(d, pos, key), Pick(d, pos, key);
      && Text(f) == Text(d) && TreeOf(f, pos) == TreeOf(d, pos) - {key}
      && HoleIds(d) == HoleIds(f) + HoleIds(p)
      && |Text(Flip(d))| + |Text(p)| == |Text(Flip(f))| + |Text(Flip(p))|
      && BearingSize(d) == BearingSize(f) + |Text(p)|
      && Submap(Lengths(p, key - 1), Lengths(d, pos))
      && At(buffer, key - 1, Text(p))
      && Holds(Flip(f), Contents(s)) && Holds(Flip(p), Contents(s))
  {
    hide Encode;
    var f := Freeze(d, pos, key);
    PickAt(d, pos, key, buffer);
    FreezeText(d, pos, key);
    FreezeTree(d, pos, key);
    FreezeSize(d, pos, key);
    FreezeBearing(d, pos, key);
    FreezeLengths(d, pos, key);
    FreezeHolds(d, pos, key, Contents(s));
  }

  /** `get_block_length`: both shapes are measurable, nothing at all is not. */
  method GetBlockLength(s: Store, id: Id) returns (r: Result<nat, BuildError>)
    ensures r.Ok? <==> Whole(s, id)
    ensures r.Err? ==> CannotMeasure(s, r.error)
    ensures r.Ok? ==> r.value == |Expansion(s, id)|
  {
    if id !in s {
      WholeIsStored(s, id);
      return Err(NotInRegistry(id));
    }
    var length := GetExpandedBlockLength(s, id, {});
    match length {
      case Err(e) => return Err(Unmeasurable(e));
      case Ok(n) => return Ok(n);
    }
  }

  // ------------------------------------------------------------------ sorting

  /** The lengths in the order of their positions: the pointer-bearing fields in preorder. */
  ghost function LengthList(d: Doc, pos: nat): seq<(nat, Length)> {
    match d
    case End => []
    case Raw(b, r) => LengthList(r, pos + |b|)
    case Hole(_, _, h, th, r) => [(pos + 1, Length(|th|, |h|, true))] + LengthList(r, pos + RecordSize(|h|))
    case Sub(_, i, r) =>
      (if Bearing(i) then [(pos + 1, Length(|Text(Flip(i))|, |Text(i)|, false))] + LengthList(i, Inside(i, pos)) else [])
      + LengthList(r, pos + RecordSize(|Text(i)|))
  }

  ghost predicate Ascending<T>(list: seq<(nat, T)>) {
    forall i, j | 0 <= i < j < |list| :: list[i].0 < list[j].0
  }

  ghost predicate Lists<T(!new)>(list: seq<(nat, T)>, m: map<nat, T>) {
    forall k, l :: (k, l) in list <==> k in m && m[k] == l
  }

  lemma {:induction false} ListBounds(d: Doc, pos: nat)
    ensures forall e <- LengthList(d, pos) :: pos < e.0 < pos + |Text(d)|
  {
    hide Encode;
    match d
    case End =>
    case Raw(b, r) => ListBounds(r, pos + |b|);
    case Hole(_, _, h, _, r) => ListBounds(r, pos + RecordSize(|h|));
    case Sub(_, i, r) =>
      ListBounds(i, Inside(i, pos));
      ListBounds(r, pos + RecordSize(|Text(i)|));
  }

  lemma AscendingAppend<T>(a: seq<(nat, T)>, b: seq<(nat, T)>, middle: nat)
    requires Ascending(a) && Ascending(b)
    requires (forall e <- a :: e.0 < middle) && (forall e <- b :: middle <= e.0)
    ensures Ascending(a + b)
  {
    forall i, j | 0 <= i < j < |a + b|
      ensures (a + b)[i].0 < (a + b)[j].0
    {
      if i < |a| { assert a[i] in a; }
      if j >= |a| { assert b[j - |a|] in b; }
    }
  }

  /** The first field's share of the list. */
  ghost function FieldList(d: Doc, pos: nat): seq<(nat, Length)> {
    match d
    case End => []
    case Raw(_, _) => []
    case Hole(_, _, h, th, _) => [(pos + 1, Length(|th|, |h|, true))]
    case Sub(_, i, _) =>
      if Bearing(i) then [(pos + 1, Length(|Text(Flip(i))|, |Text(i)|, false))] + LengthList(i, Inside(i, pos)) else []
  }

  lemma ListStep(d: Doc, pos: nat)
    requires !d.End?
    ensures LengthList(d, pos) == FieldList(d, pos) + LengthList(d.rest, pos + |First(d)|)
  {
    hide Encode, Text;
    TextStep(d);
    if d.Raw? { assert [] + LengthList(d.rest, pos + |First(d)|) == LengthList(d.rest, pos + |First(d)|); }
  }

  ghost predicate Between(list: seq<(nat, Length)>, low: nat, high: nat) {
    forall e <- list :: low < e.0 < high
  }

  lemma {:induction false} ListAscends(d: Doc, pos: nat)
    ensures Ascending(LengthList(d, pos))
  {
    hide *;
    if d.End? {
      NothingAscends(pos);
    } else {
      ListAscends(d.rest, pos + |First(d)|);
      if d.Sub? { ListAscends(d.inner, Inside(d.inner, pos)); }
      FieldAscends(d, pos);
      RestAscends(d, pos);
    }
  }

  lemma NothingAscends(pos: nat)
    ensures Ascending(LengthList(End, pos))
  {
  }

  lemma FieldAscends(d: Doc, pos: nat)
    requires !d.End? && (d.Sub? ==> Ascending(LengthList(d.inner, Inside(d.inner, pos))))
    ensures Ascending(FieldList(d, pos)) && Between(FieldList(d, pos), pos, pos + |First(d)|)
  {
    hide Encode, Text, Flip, LengthList;
    TextStep(d);
    if d.Sub? {
      ListBounds(d.inner, Inside(d.inner, pos));
      var own := [(pos + 1, Length(|Text(Flip(d.inner))|, |Text(d.inner)|, false))];
      AscendingAppend(own, LengthList(d.inner, Inside(d.inner, pos)), Inside(d.inner, pos));
    }
  }

  lemma RestAscends(d: Doc, pos: nat)
    requires !d.End? && Ascending(FieldList(d, pos)) && Between(FieldList(d, pos), pos, pos + |First(d)|)
    requires Ascending(LengthList(d.rest, pos + |First(d)|))
    ensures Ascending(LengthList(d, pos))
  {
    hide Encode, Text, First, LengthList, FieldList, Ascending;
    var next := pos + |First(d)|;
    ListStep(d, pos);
    ListBounds(d.rest, next);
    AscendingAppend(FieldList(d, pos), LengthList(d.rest, next), next);
  }

  lemma FieldListed(d: Doc, pos: nat, k: nat, l: Length)
    requires d.Sub? ==>
      ((k, l) in LengthList(d.inner, Inside(d.inner, pos)) <==>
        k in Lengths(d.inner, Inside(d.inner, pos)) && Lengths(d.inner, Inside(d.inner, pos))[k] == l)
    ensures (k, l) in FieldList(d, pos) <==> k in FieldLengths(d, pos) && FieldLengths(d, pos)[k] == l
  {
    hide Encode, Text, Flip, Lengths, LengthList;
    if d.Sub? { LengthBounds(d.inner, Inside(d.inner, pos)); }
  }

  /** The pair is in the list exactly when the length is recorded. */
  ghost predicate ListedAt(d: Doc, pos: nat, k: nat, l: Length) {
    (k, l) in LengthList(d, pos) <==> k in Lengths(d, pos) && Lengths(d, pos)[k] == l
  }

  lemma {:induction false} ListsLengths(d: Doc, pos: nat, k: nat, l: Length)
    ensures ListedAt(d, pos, k, l)
  {
    hide *;
    if d.End? {
      NothingListedAt(pos, k, l);
    } else {
      ListsLengths(d.rest, pos + |First(d)|, k, l);
      if d.Sub? { ListsLengths(d.inner, Inside(d.inner, pos), k, l); }
      ListsFirst(d, pos, k, l);
    }
  }

  lemma NothingListedAt(pos: nat, k: nat, l: Length)
    ensures ListedAt(End, pos, k, l)
  {
  }

  lemma ListsFirst(d: Doc, pos: nat, k: nat, l: Length)
    requires !d.End? && ListedAt(d.rest, pos + |First(d)|, k, l)
    requires d.Sub? ==> ListedAt(d.inner, Inside(d.inner, pos), k, l)
    ensures ListedAt(d, pos, k, l)
  {
    hide Encode, Text, Flip, First, Lengths, FieldLengths, LengthList, FieldList;
    LengthsStep(d, pos);
    ListStep(d, pos);
    FieldListed(d, pos, k, l);
    ListedTogether(FieldList(d, pos), LengthList(d.rest, pos + |First(d)|), FieldLengths(d, pos),
                   Lengths(d.rest, pos + |First(d)|), k, l);
  }

  lemma ListedTogether(a: seq<(nat, Length)>, b: seq<(nat, Length)>, m: map<nat, Length>, n: map<nat, Length>, k: nat,
                       l: Length)
    requires (k, l) in a <==> k in m && m[k] == l
    requires (k, l) in b <==> k in n && n[k] == l
    requires k in m ==> k !in n
    ensures (k, l) in a + b <==> k in m + n && (m + n)[k] == l
  {
  }

  lemma NoLength(pos: nat)
    ensures Lengths(End, pos) == map[]
  {
  }

  /** An ascending listing is unique. */
  lemma {:induction false} SameListing<T(!new)>(a: seq<(nat, T)>, b: seq<(nat, T)>)
    requires Ascending(a) && Ascending(b)
    requires forall e :: e in a <==> e in b
    ensures a == b
  {
    assert |a| > 0 ==> a[0] in a && a[0] in b;
    assert |b| > 0 ==> b[0] in b && b[0] in a;
    if a != [] {
      assert a[0] in b && b[0] in a;
      var i :| 0 <= i < |b| && b[i] == a[0];
      var j :| 0 <= j < |a| && a[j] == b[0];
      assert a[0] == b[0];
      forall e
        ensures e in a[1..] <==> e in b[1..]
      {
        assert a == [a[0]] + a[1..] && b == [b[0]] + b[1..];
        if e in a[1..] { assert e in b; }
        if e in b[1..] { assert e in a; }
      }
      SameListing(a[1..], b[1..]);
    }
  }

  /** `dict(sorted(...))`. */
  method SortByPosition<T(!new)>(m: map<nat, T>) returns (list: seq<(nat, T)>)
    ensures Ascending(list) && Lists(list, m)
  {
    list := [];
    var todo := m;
    while todo != map[]
      invariant Ascending(list)
      invariant todo.Keys <= m.Keys && forall k <- todo :: todo[k] == m[k]
      invariant forall k, l :: (k, l) in list <==> k in m && m[k] == l && k !in todo
      invariant forall e <- list :: forall k <- todo :: e.0 < k
      decreases |todo|
    {
      var least :| least in todo;
      var others := todo.Keys - {least};
      while others != {}
        invariant others <= todo.Keys && least in todo
        invariant forall k <- todo :: least <= k || k in others
      {
        var k :| k in others;
        others := others - {k};
        if k < least { least := k; }
      }
      list := list + [(least, todo[least])];
      todo := todo - {least};
    }
  }

  lemma SortedIsPreorder(d: Doc, pos: nat, list: seq<(nat, Length)>)
    requires Ascending(list) && Lists(list, Lengths(d, pos))
    ensures list == LengthList(d, pos)
  {
    ListAscends(d, pos);
    forall e: (nat, Length)
      ensures e in list <==> e in LengthList(d, pos)
    {
      ListsLengths(d, pos, e.0, e.1);
      assert e == (e.0, e.1);
    }
    SameListing(list, LengthList(d, pos));
  }

  // --------------------------------------------------------- writing the parts

  /** A slice as the language takes it: out of range is cut short, backwards is empty. */
  function Slice(b: bytes, from: nat, to: nat): bytes {
    var hi := if to < |b| then to else |b|;
    if from < hi then b[from..hi] else []
  }

  /** The state of the writing loop: finished parts, the part being written, the next byte. */
  datatype Output = Output(parts: seq<bytes>, pending: bytes, at: nat)

  function Emit(buffer: bytes, e: (nat, Length), o: Output): Output {
    var pending := o.pending + Slice(buffer, o.at, e.0) + Encode(e.1.there);
    var at := e.0 + Width(e.1.here);
    if e.1.leaf then Output(o.parts + [pending], [], at + e.1.here) else Output(o.parts, pending, at)
  }

  function EmitAll(buffer: bytes, list: seq<(nat, Length)>, o: Output): Output {
    if list == [] then o else EmitAll(buffer, list[1..], Emit(buffer, list[0], o))
  }

  lemma {:induction false} EmitAppend(buffer: bytes, a: seq<(nat, Length)>, b: seq<(nat, Length)>, o: Output)
    ensures EmitAll(buffer, a + b, o) == EmitAll(buffer, b, EmitAll(buffer, a, o))
    decreases a
  {
    if a == [] {
      assert a + b == b;
    } else {
      assert (a + b)[1..] == a[1..] + b;
      EmitAppend(buffer, a[1..], b, Emit(buffer, a[0], o));
    }
  }

  /** `generate_buffer`: whatever is written after the last block's length is not kept. */
  method GenerateBuffer(buffer: bytes, lengths: seq<(nat, Length)>) returns (r: seq<bytes>)
    ensures var o := EmitAll(buffer, lengths, Output([], [], 0));
      r == o.parts + [Slice(buffer, o.at, |buffer|)]
  {
    var listOfBytes: seq<bytes> := [];
    var newBuff: bytes := [];
    var i: nat := 0;
    var n := 0;
    while n < |lengths|
      invariant 0 <= n <= |lengths|
      invariant EmitAll(buffer, lengths, Output([], [], 0)) == EmitAll(buffer, lengths[n..], Output(listOfBytes, newBuff, i))
    {
      assert lengths[n..][1..] == lengths[n + 1..];
      var (key, value) := lengths[n];
      newBuff := newBuff + Slice(buffer, i, key) + Encode(value.there);
      i := key + Width(value.here);
      if value.leaf {
        i := i + value.here;
        listOfBytes := listOfBytes + [newBuff];
        newBuff := [];
      }
      n := n + 1;
    }
    return listOfBytes + [Slice(buffer, i, |buffer|)];
  }

  /** The writing loop, at `pos` of the buffer, is where the directory writer is. */
  ghost predicate InStep(buffer: bytes, pos: nat, o: Output, w: Writer) {
    && o.at <= pos <= |buffer|
    && w.open == o.pending + buffer[o.at..pos]
    && Parts(w.done) == o.parts
  }

  lemma SliceInStep(buffer: bytes, pos: nat, o: Output, w: Writer, b: bytes)
    requires InStep(buffer, pos, o, w) && At(buffer, pos, b)
    ensures InStep(buffer, pos + |b|, o, Write(w, b))
    ensures Slice(buffer, o.at, pos) == buffer[o.at..pos]
  {
    assert buffer[o.at..pos + |b|] == buffer[o.at..pos] + b;
  }

  /** Passing one length varint: what is there is skipped, what must be there is written. */
  lemma EmitInStep(buffer: bytes, pos: nat, o: Output, w: Writer, t: byte, here: nat, there: nat)
    requires InStep(buffer, pos, o, w) && At(buffer, pos, [t] + Encode(here))
    ensures InStep(buffer, pos + 1 + Width(here), Emit(buffer, (pos + 1, Length(there, here, false)), o), Write(w, [t] + Encode(there)))
  {
    hide Encode;
    AtSplit(buffer, pos, [t], Encode(here));
    SliceInStep(buffer, pos, o, w, [t]);
    SliceInStep(buffer, pos + 1, o, Write(w, [t]), []);
    var o' := Emit(buffer, (pos + 1, Length(there, here, false)), o);
    assert buffer[o'.at..o'.at] == [];
    assert (w.open + [t]) + Encode(there) == w.open + ([t] + Encode(there));
  }

  lemma CutInStep(buffer: bytes, pos: nat, o: Output, w: Writer, t: byte, id: Id, chain: seq<nat>, here: nat, there: nat)
    requires InStep(buffer, pos, o, w) && At(buffer, pos, [t] + Encode(here))
    requires pos + RecordSize(here) <= |buffer|
    ensures InStep(buffer, pos + RecordSize(here), Emit(buffer, (pos + 1, Length(there, here, true)), o),
                   Cut(Write(w, [t] + Encode(there)), id, chain))
  {
    hide Encode;
    EmitInStep(buffer, pos, o, w, t, here, there);
    CutParts(Write(w, [t] + Encode(there)), id, chain);
    var next, at := pos + RecordSize(here), pos + 1 + Width(here);
    assert buffer[next..next] == [] && buffer[at..at] == [];
    var plain := Emit(buffer, (pos + 1, Length(there, here, false)), o);
    assert Emit(buffer, (pos + 1, Length(there, here, true)), o) == Output(plain.parts + [plain.pending], [], next);
    assert Write(w, [t] + Encode(there)).open == plain.pending;
  }

  /** One document through the loop is the same document through the directory writer. */
  lemma {:induction false} EmitIsLay(buffer: bytes, d: Doc, pos: nat, o: Output, chain: seq<nat>, there: nat, w: Writer)
    requires At(buffer, pos, Text(d)) && InStep(buffer, pos, o, w)
    ensures InStep(buffer, pos + |Text(d)|, EmitAll(buffer, LengthList(d, pos), o), Lay(Flip(d), chain, there, w))
    decreases d
  {
    hide Encode, At, InStep, Record;
    match d
    case End =>
    case Raw(b, r) =>
      AtSplit(buffer, pos, b, Text(r));
      AtFits(buffer, pos, b);
      SliceInStep(buffer, pos, o, w, b);
      EmitIsLay(buffer, r, pos + |b|, o, chain, there + |b|, Write(w, b));
    case Hole(t, id, h, th, r) =>
      RecordLength(t, h);
      HeadAt(buffer, pos, t, h, Text(r));
      EmitIsLayHole(buffer, t, id, h, th, r, pos, o, chain, there, w);
    case Sub(t, i, r) =>
      RecordLength(t, Text(i));
      HeadAt(buffer, pos, t, Text(i), Text(r));
      EmitIsLaySub(buffer, t, i, r, pos, o, chain, there, w);
  }

  lemma {:induction false} EmitIsLayHole(buffer: bytes, t: byte, id: Id, h: bytes, th: bytes, r: Doc, pos: nat, o: Output,
                                         chain: seq<nat>, there: nat, w: Writer)
    requires InStep(buffer, pos, o, w) && At(buffer, pos, [t] + Encode(|h|)) && pos + RecordSize(|h|) <= |buffer|
    requires At(buffer, pos + RecordSize(|h|), Text(r))
    ensures InStep(buffer, pos + RecordSize(|h|) + |Text(r)|, EmitAll(buffer, LengthList(Hole(t, id, h, th, r), pos), o),
                   Lay(Flip(Hole(t, id, h, th, r)), chain, there, w))
    decreases Hole(t, id, h, th, r), 0
  {
    hide Encode, InStep, At;
    var entry, more := (pos + 1, Length(|th|, |h|, true)), LengthList(r, pos + RecordSize(|h|));
    CutInStep(buffer, pos, o, w, t, id, chain + [there + 1], |h|, |th|);
    EmitIsLay(buffer, r, pos + RecordSize(|h|), Emit(buffer, entry, o), chain, there + RecordSize(|th|),
              Cut(Write(w, [t] + Encode(|th|)), id, chain + [there + 1]));
    assert ([entry] + more)[1..] == more;
  }

  lemma AtFits(buffer: bytes, pos: nat, piece: bytes)
    requires At(buffer, pos, piece)
    ensures pos + |piece| <= |buffer|
  {
  }

  lemma HeadAndPayload(t: byte, payload: bytes)
    ensures Record(t, payload) == ([t] + Encode(|payload|)) + payload && |[t] + Encode(|payload|)| == 1 + Width(|payload|)
  {
  }

  lemma HeadAt(buffer: bytes, pos: nat, t: byte, payload: bytes, more: bytes)
    requires At(buffer, pos, Record(t, payload) + more)
    ensures At(buffer, pos, [t] + Encode(|payload|)) && pos + RecordSize(|payload|) <= |buffer|
    ensures At(buffer, pos + 1 + Width(|payload|), payload)
    ensures At(buffer, pos + RecordSize(|payload|), more)
    ensures At(buffer, pos, Record(t, payload))
  {
    hide Encode, At, Record;
    RecordLength(t, payload);
    HeadAndPayload(t, payload);
    AtSplit(buffer, pos, Record(t, payload), more);
    AtSplit(buffer, pos, [t] + Encode(|payload|), payload);
    AtFits(buffer, pos, Record(t, payload));
  }

  lemma {:induction false} EmitIsLaySub(buffer: bytes, t: byte, i: Doc, r: Doc, pos: nat, o: Output, chain: seq<nat>,
                                        there: nat, w: Writer)
    requires InStep(buffer, pos, o, w) && At(buffer, pos, [t] + Encode(|Text(i)|)) && At(buffer, Inside(i, pos), Text(i))
    requires At(buffer, pos, Record(t, Text(i))) && At(buffer, pos + RecordSize(|Text(i)|), Text(r))
    ensures InStep(buffer, pos + RecordSize(|Text(i)|) + |Text(r)|, EmitAll(buffer, LengthList(Sub(t, i, r), pos), o),
                   Lay(Flip(Sub(t, i, r)), chain, there, w))
    decreases Sub(t, i, r), 1
  {
    if Bearing(i) {
      EmitIsLayBearing(buffer, t, i, r, pos, o, chain, there, w);
    } else {
      EmitIsLayPlain(buffer, t, i, r, pos, o, chain, there, w);
    }
  }

  lemma {:induction false} EmitIsLayBearing(buffer: bytes, t: byte, i: Doc, r: Doc, pos: nat, o: Output,
                                            chain: seq<nat>, there: nat, w: Writer)
    requires InStep(buffer, pos, o, w) && At(buffer, pos, [t] + Encode(|Text(i)|)) && At(buffer, Inside(i, pos), Text(i))
    requires At(buffer, pos + RecordSize(|Text(i)|), Text(r)) && Bearing(i)
    ensures InStep(buffer, pos + RecordSize(|Text(i)|) + |Text(r)|, EmitAll(buffer, LengthList(Sub(t, i, r), pos), o),
                   Lay(Flip(Sub(t, i, r)), chain, there, w))
    decreases Sub(t, i, r), 0
  {
    hide Encode, InStep, At, Text, Emit, Bearing;
    var next, i' := pos + RecordSize(|Text(i)|), Flip(i);
    var w0 := Write(w, [t] + Encode(|Text(i')|));
    var w' := Lay(i', chain + [there + 1], Inside(i', there), w0);
    var inner, more := LengthList(i, Inside(i, pos)), LengthList(r, next);
    var own := [(pos + 1, Length(|Text(i')|, |Text(i)|, false))];
    var o0 := Emit(buffer, own[0], o);
    EmitInStep(buffer, pos, o, w, t, |Text(i)|, |Text(i')|);
    EmitIsLay(buffer, i, Inside(i, pos), o0, chain + [there + 1], Inside(i', there), w0);
    var o' := EmitAll(buffer, inner, o0);
    EmitIsLay(buffer, r, next, o', chain, there + RecordSize(|Text(i')|), w');
    assert (own + inner)[1..] == inner;
    EmitAppend(buffer, own + inner, more, o);
    FlipSub(t, i, r, pos);
  }

  lemma FlipSub(t: byte, i: Doc, r: Doc, pos: nat)
    ensures Flip(Sub(t, i, r)) == Sub(t, Flip(i), Flip(r))
    ensures Bearing(i) ==>
      LengthList(Sub(t, i, r), pos) ==
      [(pos + 1, Length(|Text(Flip(i))|, |Text(i)|, false))] + LengthList(i, Inside(i, pos))
      + LengthList(r, pos + RecordSize(|Text(i)|))
  {
  }

  lemma {:induction false} EmitIsLayPlain(buffer: bytes, t: byte, i: Doc, r: Doc, pos: nat, o: Output, chain: seq<nat>,
                                          there: nat, w: Writer)
    requires InStep(buffer, pos, o, w) && At(buffer, pos, Record(t, Text(i)))
    requires At(buffer, pos + RecordSize(|Text(i)|), Text(r)) && !Bearing(i)
    ensures InStep(buffer, pos + RecordSize(|Text(i)|) + |Text(r)|, EmitAll(buffer, LengthList(Sub(t, i, r), pos), o),
                   Lay(Flip(Sub(t, i, r)), chain, there, w))
    decreases Sub(t, i, r), 0
  {
    hide Encode, InStep, At, Text, EmitAll, Bearing, Record;
    var next, i' := pos + RecordSize(|Text(i)|), Flip(i);
    HeadAndPayload(t, Text(i));
    var w0 := Write(w, [t] + Encode(|Text(i')|));
    var w' := Lay(i', chain + [there + 1], Inside(i', there), w0);
    NoHoles(i);
    LayPlain(i, chain + [there + 1], Inside(i', there), w0);
    SliceInStep(buffer, pos, o, w, Record(t, Text(i)));
    assert Write(w0, Text(i)) == Write(w, Record(t, Text(i)));
    EmitIsLay(buffer, r, next, o, chain, there + RecordSize(|Text(i)|), w');
    assert LengthList(Sub(t, i, r), pos) == LengthList(r, next);
  }

  /** The list of lengths ends in a block, so no byte is left in the part being written. */
  lemma {:induction false} EndsInLeaf(buffer: bytes, d: Doc, pos: nat, o: Output)
    requires Bearing(d)
    ensures EmitAll(buffer, LengthList(d, pos), o).pending == []
    decreases d
  {
    hide Encode;
    match d
    case Raw(b, r) => EndsInLeaf(buffer, r, pos + |b|, o);
    case Hole(_, _, h, th, r) =>
      var entry := (pos + 1, Length(|th|, |h|, true));
      var more := LengthList(r, pos + RecordSize(|h|));
      assert ([entry] + more)[1..] == more;
      if Bearing(r) { EndsInLeaf(buffer, r, pos + RecordSize(|h|), Emit(buffer, entry, o)); } else { NothingListed(r, pos + RecordSize(|h|)); }
    case Sub(_, i, r) =>
      var next := pos + RecordSize(|Text(i)|);
      var mine := if Bearing(i) then [(pos + 1, Length(|Text(Flip(i))|, |Text(i)|, false))] + LengthList(i, Inside(i, pos)) else [];
      EmitAppend(buffer, mine, LengthList(r, next), o);
      if Bearing(r) {
        EndsInLeaf(buffer, r, next, EmitAll(buffer, mine, o));
      } else {
        NothingListed(r, next);
        assert mine[1..] == LengthList(i, Inside(i, pos));
        EndsInLeaf(buffer, i, Inside(i, pos), Emit(buffer, mine[0], o));
      }
  }

  lemma {:induction false} NothingListed(d: Doc, pos: nat)
    requires !Bearing(d)
    ensures LengthList(d, pos) == []
  {
    match d
    case End =>
    case Raw(b, r) => NothingListed(r, pos + |b|);
    case Sub(_, i, r) => NothingListed(r, pos + RecordSize(|Text(i)|));
  }

  /** The parts the loop writes are the parts of the expanded document's directory. */
  lemma PartsWritten(d: Doc)
    ensures var o := EmitAll(Text(d), LengthList(d, 0), Output([], [], 0));
      o.parts + [Slice(Text(d), o.at, |Text(d)|)] == Parts(DirectoryOf(Flip(d)))
  {
    hide Encode, Lay, EmitAll, LengthList, Text, Flip, Parts;
    var buffer, start := Text(d), Output([], [], 0);
    var o, w := EmitAll(buffer, LengthList(d, 0), start), Lay(Flip(d), [], 0, EMPTY);
    StartInStep(buffer);
    EmitIsLay(buffer, d, 0, start, [], 0, EMPTY);
    NothingPending(buffer, d, start);
    assert w.open == buffer[o.at..];
    PartsAppend(w.done, [Part(w.open)]);
    LastPart(w.open);
  }

  lemma StartInStep(buffer: bytes)
    ensures At(buffer, 0, buffer) && InStep(buffer, 0, Output([], [], 0), EMPTY)
  {
  }

  lemma NothingPending(buffer: bytes, d: Doc, start: Output)
    requires start.pending == []
    ensures EmitAll(buffer, LengthList(d, 0), start).pending == []
  {
    if Bearing(d) { EndsInLeaf(buffer, d, 0, start); } else { NothingListed(d, 0); }
  }

  lemma LastPart(b: bytes)
    ensures Parts([Part(b)]) == [b]
  {
    assert [Part(b)][1..] == [];
  }
}
