/** The lengths of the pointer form, and the pointer form itself. */
module PointerForm {
  import opened Bytes
  import opened Varint
  import opened Documents
  import opened Layouts
  import opened Stores
  import opened Builder
  import opened Driver

  /** By position: the length to write, and how much of the stream goes away with it. */
  type Pruned = map<nat, (nat, int)>

  /** What the loop over a dictionary's values adds up, in whatever order it goes. */
  ghost function PrunedSum(m: Pruned): int {
    if m == map[] then 0 else var k :| k in m; m[k].1 + PrunedSum(m - {k})
  }

  lemma {:induction false} PrunedSumTakes(m: Pruned, k: nat)
    requires k in m
    ensures PrunedSum(m) == m[k].1 + PrunedSum(m - {k})
    decreases |m|
  {
    var j :| j in m && PrunedSum(m) == m[j].1 + PrunedSum(m - {j});
    if j != k {
      PrunedSumTakes(m - {j}, k);
      PrunedSumTakes(m - {k}, j);
      assert m - {j} - {k} == m - {k} - {j};
    }
  }

  lemma PrunedSumPut(m: Pruned, k: nat, v: (nat, int))
    requires k !in m
    ensures PrunedSum(m[k := v]) == PrunedSum(m) + v.1
  {
    PrunedSumTakes(m[k := v], k);
    assert m[k := v] - {k} == m;
  }

  lemma NothingPruned()
    ensures PrunedSum(map[]) == 0
  {
  }

  /** The nested lengths have joined the others, and what they pruned is counted once, outside. */
  ghost predicate Joined(lengths: Pruned, nested: Pruned, joined: Pruned, prunedLength: int) {
    && prunedLength == PrunedSum(nested)
    && joined.Keys == lengths.Keys + nested.Keys
    && (forall k <- joined :: joined[k] == if k in nested then (nested[k].0, 0) else lengths[k])
    && (lengths.Keys !! nested.Keys ==> PrunedSum(joined) == PrunedSum(lengths))
  }

  lemma JoinedFacts(lengths: Pruned, nested: Pruned, joined: Pruned, prunedLength: int)
    requires Joined(lengths, nested, joined, prunedLength)
    ensures prunedLength == PrunedSum(nested)
    ensures joined.Keys == lengths.Keys + nested.Keys
    ensures forall k <- joined :: joined[k] == if k in nested then (nested[k].0, 0) else lengths[k]
    ensures lengths.Keys !! nested.Keys ==> PrunedSum(joined) == PrunedSum(lengths)
  {
  }

  /** All but those in `todo` have. */
  ghost predicate Joining(lengths: Pruned, nested: Pruned, todo: Pruned, joined: Pruned, prunedLength: int) {
    && todo.Keys <= nested.Keys && (forall k <- todo :: todo[k] == nested[k])
    && prunedLength + PrunedSum(todo) == PrunedSum(nested)
    && joined.Keys == lengths.Keys + (nested.Keys - todo.Keys)
    && (forall k <- joined :: joined[k] == if k in nested && k !in todo then (nested[k].0, 0) else lengths[k])
    && (lengths.Keys !! nested.Keys ==> PrunedSum(joined) == PrunedSum(lengths))
  }

  lemma JoinsOne(lengths: Pruned, nested: Pruned, todo: Pruned, joined: Pruned, prunedLength: int, k: nat)
    requires Joining(lengths, nested, todo, joined, prunedLength) && k in todo
    ensures k in nested
    ensures Joining(lengths, nested, todo - {k}, joined[k := (nested[k].0, 0)], prunedLength + nested[k].1)
  {
    hide PrunedSum;
    PrunedSumTakes(todo, k);
    if lengths.Keys !! nested.Keys { PrunedSumPut(joined, k, (nested[k].0, 0)); }
    var joined' := joined[k := (nested[k].0, 0)];
    assert joined'.Keys == lengths.Keys + (nested.Keys - (todo - {k}).Keys);
  }

  lemma JoiningStarts(lengths: Pruned, nested: Pruned)
    ensures Joining(lengths, nested, nested, lengths, 0)
  {
    assert nested.Keys - nested.Keys == {} && lengths.Keys + {} == lengths.Keys;
  }

  lemma AllJoined(lengths: Pruned, nested: Pruned, joined: Pruned, prunedLength: int)
    requires Joining(lengths, nested, map[], joined, prunedLength)
    ensures Joined(lengths, nested, joined, prunedLength)
  {
    NothingPruned();
    var nothing: Pruned := map[];
    assert nested.Keys - nothing.Keys == nested.Keys;
  }

  /** The loop over the nested lengths: their pruned bytes are added up, and count no more. */
  method TakeNested(lengths: Pruned, nested: Pruned) returns (lengths': Pruned, prunedLength: int)
    ensures Joined(lengths, nested, lengths', prunedLength)
  {
    hide *;
    lengths' := lengths;
    prunedLength := 0;
    var todo := nested;
    JoiningStarts(lengths, nested);
    while todo != map[]
      invariant Joining(lengths, nested, todo, lengths', prunedLength)
      decreases |todo|
    {
      var k :| k in todo;
      JoinsOne(lengths, nested, todo, lengths', prunedLength, k);
      prunedLength := prunedLength + nested[k].1;
      lengths' := lengths'[k := (nested[k].0, 0)];
      todo := todo - {k};
    }
    AllJoined(lengths, nested, lengths', prunedLength);
  }

  // ------------------------------------------------------------- new lengths

  /** The stored object is the document `e`, whose part at hand is `d`, at `pos` of the stream. */
  ghost predicate Ready(s: Store, es: Directory, f: Flow, pointerLengths: map<nat, nat>, d: Doc, pos: nat) {
    && Realizes(s, es, f) && Holds(d, Contents(s)) && AllWhole(s, HoleIds(d))
    && forall k <- Lengths(d, pos) :: var l := Lengths(d, pos)[k];
         StatesAt(s, es, k, l.here) && (l.leaf ==> k in pointerLengths && pointerLengths[k] == l.there)
  }

  ghost predicate Recomputed(lengths: Pruned, d: Doc, pos: nat) {
    && lengths.Keys == Lengths(d, pos).Keys
    && (forall k <- lengths :: lengths[k].0 == Lengths(d, pos)[k].there)
    && PrunedSum(lengths) == |Text(d)| - |Text(Flip(d))|
  }

  /** The lengths recomputed so far, with those of the fields left, are those of the document. */
  ghost predicate Recomputing(lengths: Pruned, left: Doc, d: Doc, pos: nat) {
    && lengths.Keys !! Lengths(left, pos).Keys
    && lengths.Keys + Lengths(left, pos).Keys == Lengths(d, pos).Keys
    && Submap(Lengths(left, pos), Lengths(d, pos))
    && (forall k <- lengths :: lengths[k].0 == Lengths(d, pos)[k].there)
    && PrunedSum(lengths) + |Text(left)| - |Text(Flip(left))| == |Text(d)| - |Text(Flip(d))|
  }

  lemma StartRecomputing(d: Doc, pos: nat)
    ensures Recomputing(map[], d, d, pos)
  {
  }

  lemma EndRecomputing(lengths: Pruned, left: Doc, d: Doc, pos: nat)
    requires Recomputing(lengths, left, d, pos) && TreeOf(left, pos) == map[]
    ensures Recomputed(lengths, d, pos)
  {
    Frozen(left, pos);
    assert Flip(left) == left;
    assert lengths.Keys + {} == lengths.Keys;
  }

  lemma ReadyFreeze(s: Store, es: Directory, f: Flow, pl: map<nat, nat>, d: Doc, pos: nat, key: nat)
    requires Ready(s, es, f, pl, d, pos) && key in TreeOf(d, pos)
    ensures key > 0 && Ready(s, es, f, pl, Freeze(d, pos, key), pos) && Ready(s, es, f, pl, Pick(d, pos, key), key - 1)
    ensures TreeOf(Freeze(d, pos, key), pos) == TreeOf(d, pos) - {key}
  {
    hide Encode, StatesAt, Lengths, Text, Flip, Freeze, Pick, TreeOf, Holds, HoleIds, Realizes, Whole;
    PickFacts(d, pos, key);
    FreezeKeepsHolding(d, pos, key, Contents(s));
    FreezeTree(d, pos, key);
    FreezeLengths(d, pos, key);
    forall k | k in Lengths(Freeze(d, pos, key), pos)
      ensures k in Lengths(d, pos) && Lengths(d, pos)[k] == Lengths(Freeze(d, pos, key), pos)[k]
    {
      FreezeKeeps(d, pos, key, k);
    }
  }

  /** A branch: the varint states the sub-message's length, and its content is ready too. */
  lemma ReadyBranch(s: Store, es: Directory, f: Flow, pl: map<nat, nat>, d: Doc, pos: nat, key: nat)
    requires key in TreeOf(d, pos) && key > 0 && TreeOf(d, pos)[key].Branch?
    requires Ready(s, es, f, pl, Pick(d, pos, key), key - 1)
    ensures Pick(d, pos, key).Sub?
    ensures var p := Pick(d, pos, key); var i := p.inner; var inside := Inside(i, key - 1);
      && TreeOf(d, pos)[key].kids == TreeOf(i, inside)
      && Ready(s, es, f, pl, i, inside)
      && StatesAt(s, es, key, |Text(i)|)
      && Lengths(p, key - 1) == map[key := Length(|Text(Flip(i))|, |Text(i)|, false)] + Lengths(i, inside)
      && key !in Lengths(i, inside)
      && |Text(p)| == RecordSize(|Text(i)|) && |Text(Flip(p))| == RecordSize(|Text(Flip(i))|)
  {
    hide Encode, StatesAt, Lengths, Text, Flip, HoleIds, TreeOf, Pick, Bearing, Realizes;
    PickFacts(d, pos, key);
    var p := Pick(d, pos, key);
    assert p == Sub(p.tag, p.inner, End);
    LoneSub(p.tag, p.inner, key - 1);
    var outer, inner := Lengths(p, key - 1), Lengths(p.inner, Inside(p.inner, key - 1));
    assert key in outer;
    forall k | k in inner ensures k in outer && outer[k] == inner[k] { }
    assert forall k <- inner :: StatesAt(s, es, k, outer[k].here);
  }

  /** A leaf: the varint states the block's expanded length, and its pointer is measured. */
  lemma ReadyLeaf(s: Store, es: Directory, f: Flow, pl: map<nat, nat>, d: Doc, pos: nat, key: nat)
    requires key in TreeOf(d, pos) && key > 0 && TreeOf(d, pos)[key].Leaf?
    requires Ready(s, es, f, pl, Pick(d, pos, key), key - 1)
    ensures var p := Pick(d, pos, key); var id := TreeOf(d, pos)[key].id;
      && p.Hole? && Whole(s, id) && |p.here| == |Expansion(s, id)|
      && StatesAt(s, es, key, |p.here|)
      && key in pl && pl[key] == |p.there|
      && Lengths(p, key - 1) == map[key := Length(|p.there|, |p.here|, true)]
      && |Text(p)| == RecordSize(|p.here|) && |Text(Flip(p))| == RecordSize(|p.there|)
  {
    hide Encode, StatesAt, Whole, Lengths, Text, Flip, HoleIds, TreeOf, Pick, Bearing, Realizes;
    PickFacts(d, pos, key);
    var p := Pick(d, pos, key);
    assert p == Hole(p.tag, p.id, p.here, p.there, End);
    LoneHole(p.tag, p.id, p.here, p.there, key - 1);
    assert p.id in HoleIds(p);
    assert key in Lengths(p, key - 1);
  }

  lemma KeyStated(s: Store, es: Directory, f: Flow, pl: map<nat, nat>, d: Doc, pos: nat, key: nat)
    requires key in TreeOf(d, pos) && key > 0
    requires Ready(s, es, f, pl, Pick(d, pos, key), key - 1)
    ensures var p := Pick(d, pos, key);
      && Realizes(s, es, f)
      && key in Lengths(p, key - 1)
      && StatesAt(s, es, key, Lengths(p, key - 1)[key].here)
  {
    hide Encode, StatesAt;
    match TreeOf(d, pos)[key]
    case Branch(_) => ReadyBranch(s, es, f, pl, d, pos, key);
    case Leaf(_) => ReadyLeaf(s, es, f, pl, d, pos, key);
  }

  lemma KeyFresh(lengths: Pruned, left: Doc, d: Doc, pos: nat, key: nat)
    requires Recomputing(lengths, left, d, pos) && key in TreeOf(left, pos) && key > 0
    requires key in Lengths(Pick(left, pos, key), key - 1)
    ensures key !in lengths
  {
    FreezeLengths(left, pos, key);
  }

  /** What the recursion returns for a branch are its lengths but its own, all still to come. */
  lemma NestedApart(lengths: Pruned, nested: Pruned, left: Doc, d: Doc, pos: nat, key: nat)
    requires Recomputing(lengths, left, d, pos) && key in TreeOf(left, pos) && key > 0
    requires Pick(left, pos, key).Sub?
    requires var p := Pick(left, pos, key); var i := p.inner;
      && Recomputed(nested, i, Inside(i, key - 1))
      && Lengths(p, key - 1) == map[key := Length(|Text(Flip(i))|, |Text(i)|, false)] + Lengths(i, Inside(i, key - 1))
      && key !in Lengths(i, Inside(i, key - 1))
    ensures var p := Pick(left, pos, key); var inner := Lengths(p, key - 1);
      && lengths.Keys !! nested.Keys
      && nested.Keys == inner.Keys - {key}
      && (forall k <- nested :: nested[k].0 == inner[k].there)
      && PrunedSum(nested) == |Text(p.inner)| - |Text(Flip(p.inner))|
  {
    hide Encode, Lengths, Pick, Freeze, Text, Flip, TreeOf, PrunedSum;
    FreezeSplit(left, pos, key);
  }

  /** One field recomputed: its own entry and what it gives off, its nested entries nothing more. */
  lemma RecomputeField(lengths: Pruned, left: Doc, d: Doc, pos: nat, key: nat, lengths': Pruned, entry: (nat, int))
    requires Recomputing(lengths, left, d, pos) && key in TreeOf(left, pos) && key > 0
    requires var p := Pick(left, pos, key); var inner := Lengths(p, key - 1);
      && key in inner && entry == (inner[key].there, |Text(p)| - |Text(Flip(p))|)
      && key !in lengths'
      && lengths'.Keys == lengths.Keys + (inner.Keys - {key})
      && (forall k <- lengths' :: lengths'[k].0 == if k in inner then inner[k].there else lengths[k].0)
      && PrunedSum(lengths') == PrunedSum(lengths)
    ensures Recomputing(lengths'[key := entry], Freeze(left, pos, key), d, pos)
  {
    hide Encode, Lengths, Freeze, Pick, Text, Flip, TreeOf, PrunedSum;
    FreezeText(left, pos, key);
    FreezeSize(left, pos, key);
    FreezeSplit(left, pos, key);
    PrunedSumPut(lengths', key, entry);
  }

  lemma FreezeSplit(d: Doc, pos: nat, key: nat)
    requires key in TreeOf(d, pos) && key > 0
    ensures var f, p := Lengths(Freeze(d, pos, key), pos), Lengths(Pick(d, pos, key), key - 1);
      f.Keys !! p.Keys && Lengths(d, pos).Keys == f.Keys + p.Keys && Submap(f, Lengths(d, pos)) && Submap(p, Lengths(d, pos))
  {
    var f, p := Lengths(Freeze(d, pos, key), pos), Lengths(Pick(d, pos, key), key - 1);
    FreezeLengths(d, pos, key);
    forall k | k in f ensures k in Lengths(d, pos) && Lengths(d, pos)[k] == f[k] { FreezeKeeps(d, pos, key, k); }
    forall k | k in p ensures k !in f { FreezeApart(d, pos, key, k); }
  }

  /** `__rec_compute_wbp_lengths`. */
  method RecComputeWbpLengths(s: Store, tree: Kids, fileList: Directory, pointerLengths: map<nat, nat>,
                              ghost d: Doc, ghost pos: nat, ghost f: Flow)
    returns (r: Result<Pruned, DriverError>)
    ensures tree == TreeOf(d, pos) && Ready(s, fileList, f, pointerLengths, d, pos) ==>
      r.Ok? && Recomputed(r.value, d, pos)
    decreases Branch(tree), 0
  {
    hide *;
    var lengths: Pruned := map[];
    var todo := tree;
    ghost var left := d;
    ghost var ready := tree == TreeOf(d, pos) && Ready(s, fileList, f, pointerLengths, d, pos);
    StartRecomputing(d, pos);
    while todo != map[]
      invariant todo.Keys <= tree.Keys && forall k <- todo :: todo[k] == tree[k]
      invariant ready ==> todo == TreeOf(left, pos) && Ready(s, fileList, f, pointerLengths, left, pos)
      invariant ready ==> Recomputing(lengths, left, d, pos)
      decreases |todo|
    {
      var key :| key in todo;
      if ready { ReadyFreeze(s, fileList, f, pointerLengths, left, pos, key); }
      var field := RecomputeNode(s, todo[key], key, fileList, pointerLengths, lengths, left, d, pos, f, ready);
      match field {
        case Err(e) =>
          return Err(e);
        case Ok(lengths') =>
          lengths := lengths';
      }
      todo := todo - {key};
      left := if ready then Freeze(left, pos, key) else left;
    }
    if ready { EndRecomputing(lengths, left, d, pos); }
    return Ok(lengths);
  }

  lemma SizeChange(here: nat, there: nat)
    ensures RecordSize(here) - RecordSize(there) == (here - there) + Width(here) - Width(there)
  {
  }

  /** The body of its loop, for one entry of the tree. */
  method RecomputeNode(s: Store, node: Node, key: nat, fileList: Directory, pointerLengths: map<nat, nat>, lengths: Pruned,
                       ghost left: Doc, ghost d: Doc, ghost pos: nat, ghost f: Flow, ghost ready: bool)
    returns (r: Result<Pruned, DriverError>)
    requires ready ==> key > 0 && key in TreeOf(left, pos) && node == TreeOf(left, pos)[key]
    requires ready ==> Ready(s, fileList, f, pointerLengths, Pick(left, pos, key), key - 1)
    requires ready ==> Recomputing(lengths, left, d, pos)
    ensures ready ==> r.Ok? && Recomputing(r.value, Freeze(left, pos, key), d, pos)
    ensures node.Leaf? && Realizes(s, fileList, f) && Whole(s, node.id) && key in pointerLengths ==>
      forall n: nat :: StatesAt(s, fileList, key, n) ==>
        var pruned := |Expansion(s, node.id)| - pointerLengths[key];
        if pruned > n then r == Err(PrunedTooLong(key))
        else r == Ok(lengths[key := (n - pruned, pruned + Width(n) - Width(n - pruned))])
    decreases node, 1
  {
    hide *;
    ghost var p := if ready then Pick(left, pos, key) else End;
    if ready {
      KeyStated(s, fileList, f, pointerLengths, left, pos, key);
      KeyFresh(lengths, left, d, pos, key);
    }
    var positionLength: nat;
    var read := ReadLength(s, fileList, key, f);
    match read {
      case Err(e) =>
        return Err(e);
      case Ok(n) =>
        positionLength := n;
    }
    var prunedLength: int;
    var lengths' := lengths;
    match node {
      case Branch(kids) =>
        if ready { ReadyBranch(s, fileList, f, pointerLengths, left, pos, key); }
        ghost var i := if ready then p.inner else End;
        ghost var inside := if ready then Inside(i, key - 1) else 0;
        var nested := RecComputeWbpLengths(s, kids, fileList, pointerLengths, i, inside, f);
        match nested {
          case Err(e) =>
            return Err(e);
          case Ok(n) =>
            if ready { NestedApart(lengths, n, left, d, pos, key); }
            lengths', prunedLength := TakeNested(lengths, n);
            JoinedFacts(lengths, n, lengths', prunedLength);
        }
      case Leaf(id) =>
        if ready { ReadyLeaf(s, fileList, f, pointerLengths, left, pos, key); }
        if key !in pointerLengths {
          return Err(NoPointer(key));
        }
        var length := GetExpandedBlockLength(s, id, {});
        match length {
          case Err(e) =>
            return Err(BadMeasure(e));
          case Ok(n) =>
            prunedLength := n - pointerLengths[key];
        }
    }
    if prunedLength > positionLength {
      return Err(PrunedTooLong(key));
    }
    var newLength: nat := positionLength - prunedLength;
    var entry := (newLength, prunedLength + Width(positionLength) - Width(newLength));
    if ready { SizeChange(positionLength, newLength); }
    if ready { RecomputeField(lengths, left, d, pos, key, lengths', entry); }
    return Ok(lengths'[key := entry]);
  }
}
