/** `generate_wbp_file`, put together: load, check, recompute, rewrite, write out. */
module Collapse {
  import opened Bytes
  import opened Varint
  import opened Documents
  import opened Layouts
  import opened Pointers
  import opened Messages
  import opened LengthsTrees
  import opened Stores
  import opened Reader
  import opened Builder
  import opened Build
  import opened Symbols
  import opened Driver
  import opened PointerForm

  // --------------------------------------------------------- what chains point at

  /** The requirements the driver puts on a chain of `_.json`. */
  predicate ValidChain(chain: seq<nat>) {
    |chain| > 0 && forall i | 0 <= i < |chain| - 1 :: chain[i] <= chain[i + 1]
  }

  /** Not empty, and nowhere descending. */
  lemma {:induction false} ValidChainExactly(chain: seq<nat>)
    ensures ValidChain(chain) <==> chain != [] && forall i, j | 0 <= i <= j < |chain| :: chain[i] <= chain[j]
  {
    if |chain| > 1 {
      var n := |chain| - 1;
      ValidChainExactly(chain[..n]);
      if ValidChain(chain) {
        assert ValidChain(chain[..n]);
        forall i, j | 0 <= i <= j < |chain| ensures chain[i] <= chain[j] {
          assert i < n ==> chain[..n][i] <= chain[..n][n - 1];
          assert j < n ==> chain[..n][i] <= chain[..n][j];
          assert chain[n - 1] <= chain[n];
        }
      }
    }
  }

  function Last(chain: seq<nat>): nat
    requires |chain| > 0
  {
    chain[|chain| - 1]
  }

  /** Every pointer to come is the one the library writes for its block. */
  predicate PointersWritten(env: Environment, omitTypes: bool, d: Doc) {
    match d
    case End => true
    case Raw(_, r) => PointersWritten(env, omitTypes, r)
    case Hole(_, id, _, th, r) => th == Written(env, omitTypes, id) && PointersWritten(env, omitTypes, r)
    case Sub(_, i, r) => PointersWritten(env, omitTypes, i) && PointersWritten(env, omitTypes, r)
  }

  function Written(env: Environment, omitTypes: bool, id: Id): bytes {
    PointerBytes(BlockPointer(id, omitTypes, env.hashType))
  }

  /** A chain ends at its block's own length varint, after the varints of what is around it. */
  lemma {:induction false} SpotLength(env: Environment, omit: bool, d: Doc, pos: nat, chain: seq<nat>, id: Id,
                                      content: Id -> bytes)
    requires IsSpot(d, pos, chain, id) && Holds(d, content) && PointersWritten(env, omit, d)
    ensures ValidChain(chain) && pos < chain[0] && id in HoleIds(d)
    ensures Last(chain) in Lengths(d, pos)
    ensures Lengths(d, pos)[Last(chain)] == Length(|Written(env, omit, id)|, |content(id)|, true)
    decreases d
  {
    hide Encode, Written, Lengths, Text;
    SpotBounds(d, pos, chain, id);
    TextStep(d);
    var next := pos + |First(d)|;
    LengthAt(d, pos, chain[|chain| - 1]);
    if IsSpot(d.rest, next, chain, id) {
      SpotLength(env, omit, d.rest, next, chain, id, content);
    } else if d.Sub? {
      SpotLength(env, omit, d.inner, Inside(d.inner, pos), chain[1..], id, content);
      assert Last(chain) == Last(chain[1..]);
      assert chain == [chain[0]] + chain[1..];
    }
  }

  /** Every block's length varint ends a chain. */
  lemma {:induction false} LeafSpot(d: Doc, pos: nat, k: nat) returns (chain: seq<nat>, id: Id)
    requires k in Lengths(d, pos) && Lengths(d, pos)[k].leaf
    ensures IsSpot(d, pos, chain, id) && |chain| > 0 && Last(chain) == k
  {
    hide Encode;
    match d
    case Raw(b, r) => chain, id := LeafSpot(r, pos + |b|, k);
    case Hole(_, hid, h, _, r) =>
      LengthBounds(r, pos + RecordSize(|h|));
      if k == pos + 1 { chain, id := [k], hid; } else { chain, id := LeafSpot(r, pos + RecordSize(|h|), k); }
    case Sub(_, i, r) =>
      var next := pos + RecordSize(|Text(i)|);
      if k in Lengths(r, next) {
        chain, id := LeafSpot(r, next, k);
      } else {
        var c, hid := LeafSpot(i, Inside(i, pos), k);
        chain, id := [pos + 1] + c, hid;
        assert chain[1..] == c;
      }
  }

  /** The symbols before a recorded position weigh just that much, and a varint follows. */
  lemma {:induction false} LengthSymbol(d: Doc, k: nat, pre: seq<Sym>, post: seq<Sym>, content: Id -> bytes)
    returns (pre': seq<Sym>, post': seq<Sym>)
    requires Holds(d, content) && k in Lengths(d, Weight(pre, content))
    ensures VarintIn(pre + DocSyms(d) + post, k, pre', Lengths(d, Weight(pre, content))[k].here, post', content)
    decreases d
  {
    hide Encode, VarintIn, Sy, Weight;
    match d
    case Raw(b, r) =>
      WeightBytes(b, content);
      WeightAppend(pre, Sy(b), content);
      pre', post' := LengthSymbol(r, k, pre + Sy(b), post, content);
      assert pre + (Sy(b) + DocSyms(r)) + post == (pre + Sy(b)) + DocSyms(r) + post;
    case Hole(t, id, h, th, r) =>
      pre', post' := LengthSymbolHole(t, id, h, th, r, k, pre, post, content);
    case Sub(t, i, r) =>
      pre', post' := LengthSymbolSub(t, i, r, k, pre, post, content);
  }

  lemma {:induction false} LengthSymbolHole(t: byte, id: Id, h: bytes, th: bytes, r: Doc, k: nat, pre: seq<Sym>,
                                            post: seq<Sym>, content: Id -> bytes)
    returns (pre': seq<Sym>, post': seq<Sym>)
    requires var d := Hole(t, id, h, th, r); Holds(d, content) && k in Lengths(d, Weight(pre, content))
    ensures var d := Hole(t, id, h, th, r);
      VarintIn(pre + DocSyms(d) + post, k, pre', Lengths(d, Weight(pre, content))[k].here, post', content)
    decreases Hole(t, id, h, th, r), 0
  {
    hide Encode, Sy, Weight, Lengths;
    LengthAt(Hole(t, id, h, th, r), Weight(pre, content), k);
    LengthsStep(Hole(t, id, h, th, r), Weight(pre, content));
    var here := Sy(Encode(|h|));
    var left, pos := pre + Sy([t]), Weight(pre, content);
    WeightHead(t, |h|, content);
    WeightBlock(id, content);
    WeightAppend(pre, Sy([t]), content);
    WeightAppend(pre, Sy([t]) + here, content);
    assert pre + (Sy([t]) + here) == left + here;
    WeightAppend(left + here, [K(id)], content);
    Assoc(pre, Sy([t]), here, [K(id)], DocSyms(r), post);
    LengthBounds(r, pos + RecordSize(|h|));
    if k == pos + 1 {
      pre', post' := left, [K(id)] + DocSyms(r) + post;
    } else {
      pre', post' := LengthSymbol(r, k, (left + here) + [K(id)], post, content);
    }
  }

  lemma {:induction false} LengthSymbolSub(t: byte, i: Doc, r: Doc, k: nat, pre: seq<Sym>, post: seq<Sym>,
                                           content: Id -> bytes)
    returns (pre': seq<Sym>, post': seq<Sym>)
    requires var d := Sub(t, i, r); Holds(d, content) && k in Lengths(d, Weight(pre, content))
    ensures var d := Sub(t, i, r);
      VarintIn(pre + DocSyms(d) + post, k, pre', Lengths(d, Weight(pre, content))[k].here, post', content)
    decreases Sub(t, i, r), 0
  {
    hide Encode, Sy, Weight, Text, Lengths;
    var here := Sy(Encode(|Text(i)|));
    var left, pos := pre + Sy([t]), Weight(pre, content);
    LengthsStep(Sub(t, i, r), pos);
    RecordLength(t, Text(i));
    var inside, next := left + here, pos + RecordSize(|Text(i)|);
    WeightHead(t, |Text(i)|, content);
    WeightDoc(i, content);
    WeightAppend(pre, Sy([t]), content);
    WeightAppend(pre, Sy([t]) + here, content);
    assert pre + (Sy([t]) + here) == inside;
    WeightAppend(inside, DocSyms(i), content);
    Assoc(pre, Sy([t]), here, DocSyms(i), DocSyms(r), post);
    LengthBounds(r, next);
    LengthBounds(i, Inside(i, pos));
    if k in Lengths(r, next) {
      pre', post' := LengthSymbol(r, k, inside + DocSyms(i), post, content);
    } else if k in Lengths(i, Inside(i, pos)) {
      pre', post' := LengthSymbol(i, k, inside, DocSyms(r) + post, content);
    } else {
      assert k == pos + 1 && k in OwnLength(i, pos);
      pre', post' := left, DocSyms(i) + (DocSyms(r) + post);
    }
  }

  /** In a document's directory every recorded varint is read where it is recorded. */
  lemma VarintsReadable(s: Store, d: Doc, k: nat)
    requires Holds(d, Contents(s)) && k in Lengths(d, 0)
    ensures StatesAt(s, DirectoryOf(d), k, Lengths(d, 0)[k].here)
  {
    hide Encode;
    DirectoryAlternates(d);
    DirectoryFlattens(d);
    assert Weight([], Contents(s)) == 0;
    var pre, post := LengthSymbol(d, k, [], [], Contents(s));
    assert [] + DocSyms(d) + [] == DocSyms(d);
    var j := FindVarint(s, DirectoryOf(d), pre, Lengths(d, 0)[k].here, post);
  }

  // ---------------------------------------------------------------- loading

  /** The stored directory is that of `e`, whose pointers the library writes. */
  ghost predicate Collapsible(env: Environment, s: Store, es: Directory, omitTypes: bool, e: Doc) {
    && es == DirectoryOf(e)
    && Holds(e, Contents(s)) && AllWhole(s, HoleIds(e))
    && PointersWritten(env, omitTypes, e)
  }

  ghost predicate Gathered(env: Environment, omit: bool, spots: seq<Spot>, pointerLengths: map<nat, nat>) {
    && (forall spot <- spots :: ValidChain(spot.chain) && Last(spot.chain) in pointerLengths)
    && (forall k <- pointerLengths :: exists spot <- spots ::
          ValidChain(spot.chain) && k == Last(spot.chain) && pointerLengths[k] == |Written(env, omit, spot.id)|)
  }

  /** The loading loop of `generate_wbp_file`: chains by block, and pointer lengths by position. */
  method GatherChains(env: Environment, es: Directory, omitTypes: bool)
    returns (r: Result<(Container, map<nat, nat>), DriverError>)
    ensures r.Ok? <==> forall spot <- Refs(es) :: ValidChain(spot.chain)
    ensures r.Ok? ==> r.value.0 == AddAll(map[], Refs(es)) && Gathered(env, omitTypes, Refs(es), r.value.1)
  {
    hide AddAll, Written, Gathered, Refs, Last;
    var blocks: Container := map[];
    var pointerLengths: map<nat, nat> := map[];
    var i := 0;
    ghost var all := AddAll(map[], Refs(es));
    NothingGathered(env, omitTypes, es);
    while i < |es|
      invariant 0 <= i <= |es|
      invariant all == AddAll(blocks, Refs(es[i..]))
      invariant Refs(es) == Refs(es[..i]) + Refs(es[i..])
      invariant Gathered(env, omitTypes, Refs(es[..i]), pointerLengths)
    {
      RefsStep(es, i, blocks);
      match es[i] {
        case Part(_) =>
        case Ref(id, chain) =>
          assert Spot(id, chain) in Refs(es);
          if !ValidChain(chain) {
            return Err(InvalidBlock);
          }
          GatheredStep(env, omitTypes, Refs(es[..i]), pointerLengths, Spot(id, chain));
          blocks := blocks[id := (if id in blocks then blocks[id] else []) + [chain]];
          pointerLengths := pointerLengths[Last(chain) := |Written(env, omitTypes, id)|];
      }
      i := i + 1;
    }
    assert es[..i] == es && es[i..] == [];
    NoRefs(blocks);
    GatheredAreValid(env, omitTypes, Refs(es), pointerLengths);
    return Ok((blocks, pointerLengths));
  }

  lemma NothingGathered(env: Environment, omit: bool, es: Directory)
    ensures Refs(es[..0]) == [] && es[0..] == es && Gathered(env, omit, [], map[])
  {
  }

  lemma GatheredAreValid(env: Environment, omit: bool, spots: seq<Spot>, pointerLengths: map<nat, nat>)
    requires Gathered(env, omit, spots, pointerLengths)
    ensures forall spot <- spots :: ValidChain(spot.chain)
  {
  }

  lemma NoRefs(blocks: Container)
    ensures AddAll(blocks, Refs([])) == blocks
  {
  }

  lemma RefsStep(es: Directory, i: nat, blocks: Container)
    requires i < |es|
    ensures Refs(es[..i + 1]) == Refs(es[..i]) + (if es[i].Ref? then [Spot(es[i].id, es[i].chain)] else [])
    ensures es[i].Part? ==> Refs(es[..i + 1]) == Refs(es[..i]) && Refs(es[i..]) == Refs(es[i + 1..])
    ensures Refs(es[i..]) == (if es[i].Ref? then [Spot(es[i].id, es[i].chain)] else []) + Refs(es[i + 1..])
    ensures AddAll(blocks, Refs(es[i..])) == AddAll(if es[i].Ref? then Add(blocks, Spot(es[i].id, es[i].chain)) else blocks, Refs(es[i + 1..]))
  {
    assert es[..i + 1] == es[..i] + [es[i]];
    PartsAppend(es[..i], [es[i]]);
    assert [es[i]][1..] == [];
    assert es[i..][1..] == es[i + 1..];
    var more := Refs(es[i + 1..]);
    if es[i].Ref? {
      var spot := Spot(es[i].id, es[i].chain);
      assert Refs([es[i]]) == [spot] + Refs([]);
      assert Refs(es[i..]) == [spot] + more;
      assert ([spot] + more)[1..] == more;
    } else {
      assert Refs([es[i]]) == [] + Refs([]);
      assert Refs(es[i..]) == [] + more == more;
    }
  }

  lemma GatheredStep(env: Environment, omit: bool, spots: seq<Spot>, pointerLengths: map<nat, nat>, spot: Spot)
    requires Gathered(env, omit, spots, pointerLengths) && ValidChain(spot.chain)
    ensures Gathered(env, omit, spots + [spot], pointerLengths[Last(spot.chain) := |Written(env, omit, spot.id)|])
  {
    var pl := pointerLengths[Last(spot.chain) := |Written(env, omit, spot.id)|];
    forall k | k in pl
      ensures exists x <- spots + [spot] :: ValidChain(x.chain) && k == Last(x.chain) && pl[k] == |Written(env, omit, x.id)|
    {
      if k == Last(spot.chain) {
        assert spot in spots + [spot];
      } else {
        var x :| x in spots && ValidChain(x.chain) && k == Last(x.chain) && pointerLengths[k] == |Written(env, omit, x.id)|;
        assert x in spots + [spot];
      }
    }
  }

  // -------------------------------------------------------------- validating

  /** A chain whose block can be measured, and whose last varint can be read. */
  ghost predicate Checkable(s: Store, es: Directory, pointerLengths: map<nat, nat>, chain: seq<nat>, id: Id) {
    |chain| > 0 && Last(chain) in pointerLengths && Whole(s, id) && exists n: nat :: StatesAt(s, es, Last(chain), n)
  }

  /** The varint states no less than the block has beyond its pointer. */
  ghost predicate Bounds(s: Store, es: Directory, pointerLengths: map<nat, nat>, chain: seq<nat>, id: Id) {
    |chain| > 0 && Last(chain) in pointerLengths
    && forall n: nat | StatesAt(s, es, Last(chain), n) :: |Expansion(s, id)| - pointerLengths[Last(chain)] <= n
  }

  ghost predicate AllCheckable(s: Store, es: Directory, pointerLengths: map<nat, nat>, blocks: Container) {
    forall chain, id :: Listed(blocks, chain, id) ==> Checkable(s, es, pointerLengths, chain, id)
  }

  ghost predicate AllBounded(s: Store, es: Directory, pointerLengths: map<nat, nat>, blocks: Container) {
    forall chain, id :: Listed(blocks, chain, id) ==> Bounds(s, es, pointerLengths, chain, id)
  }

  /**
    `validate_lengths_tree`: metadata whose varints can be read passes exactly when no block
    expands, beyond its pointer, past what the last varint of a chain of its states.
    */
  method ValidateLengthsTree(s: Store, blocks: Container, fileList: Directory, pointerLengths: map<nat, nat>, ghost f: Flow)
    returns (failure: Option<DriverError>)
    ensures Realizes(s, fileList, f) && AllCheckable(s, fileList, pointerLengths, blocks) ==>
      (failure == None <==> AllBounded(s, fileList, pointerLengths, blocks))
  {
    hide Whole, Expansion, StatesAt, Bounds;
    ghost var known := Realizes(s, fileList, f)
      && forall chain, id :: Listed(blocks, chain, id) ==> Checkable(s, fileList, pointerLengths, chain, id);
    var todo := blocks.Keys;
    while todo != {}
      invariant todo <= blocks.Keys
      invariant known ==> forall id <- blocks.Keys - todo :: forall chain <- blocks[id] ::
        Bounds(s, fileList, pointerLengths, chain, id)
    {
      var id :| id in todo;
      var failed := ValidateChains(s, blocks, id, fileList, pointerLengths, f);
      if failed.Some? {
        return failed;
      }
      todo := todo - {id};
    }
    return None;
  }

  /** The chains of one block. */
  method ValidateChains(s: Store, blocks: Container, id: Id, fileList: Directory, pointerLengths: map<nat, nat>, ghost f: Flow)
    returns (failure: Option<DriverError>)
    requires id in blocks
    ensures (Realizes(s, fileList, f) && forall chain <- blocks[id] :: Checkable(s, fileList, pointerLengths, chain, id))
      ==> (failure == None <==> forall chain <- blocks[id] :: Bounds(s, fileList, pointerLengths, chain, id))
  {
    hide Whole, Expansion, StatesAt;
    var chains := blocks[id];
    ghost var known :=
      Realizes(s, fileList, f) && forall chain <- chains :: Checkable(s, fileList, pointerLengths, chain, id);
    var j := 0;
    while j < |chains|
      invariant 0 <= j <= |chains|
      invariant known ==> forall i | 0 <= i < j :: Bounds(s, fileList, pointerLengths, chains[i], id)
    {
      var chain := chains[j];
      assert chain in chains;
      if known { OnlyStated(s, fileList, pointerLengths, chain, id); }
      if |chain| == 0 || Last(chain) !in pointerLengths {
        return Some(InvalidBlock);
      }
      var position := Last(chain);
      var positionLength := ReadLength(s, fileList, position, f);
      match positionLength {
        case Err(e) =>
          return Some(e);
        case Ok(stated) =>
          var expanded := GetExpandedBlockLength(s, id, {});
          match expanded {
            case Err(e) =>
              return Some(BadMeasure(e));
            case Ok(n) =>
              if n - pointerLengths[position] > stated {
                return Some(Invalid(position));
              }
          }
      }
      j := j + 1;
    }
    return None;
  }

  lemma OnlyStated(s: Store, es: Directory, pointerLengths: map<nat, nat>, chain: seq<nat>, id: Id)
    requires Checkable(s, es, pointerLengths, chain, id)
    ensures exists n: nat :: StatesAt(s, es, Last(chain), n) && forall m: nat | StatesAt(s, es, Last(chain), m) :: m == n
  {
    hide Whole, StatesAt;
    var n: nat :| StatesAt(s, es, Last(chain), n);
    forall m: nat | StatesAt(s, es, Last(chain), m) ensures m == n { StatesOnce(s, es, Last(chain), m, n); }
  }

  /** Metadata that describes its parts passes. */
  lemma DescribedPasses(s: Store, es: Directory, pointerLengths: map<nat, nat>, chain: seq<nat>, id: Id)
    requires |chain| > 0 && Whole(s, id) && Last(chain) in pointerLengths && StatesAt(s, es, Last(chain), |Expansion(s, id)|)
    ensures Checkable(s, es, pointerLengths, chain, id) && Bounds(s, es, pointerLengths, chain, id)
  {
    hide Whole, Expansion, StatesAt;
    forall n: nat | StatesAt(s, es, Last(chain), n) ensures n == |Expansion(s, id)| {
      StatesOnce(s, es, Last(chain), n, |Expansion(s, id)|);
    }
  }

  /** Every chain is one the driver takes, its last varint can be read, and its block be measured. */
  ghost predicate Legible(s: Store, es: Directory) {
    forall spot <- Refs(es) ::
      ValidChain(spot.chain) && Whole(s, spot.id) && exists n: nat :: StatesAt(s, es, Last(spot.chain), n)
  }

  /** What stands at the end of the chain is no less than the block has beyond a pointer written there. */
  ghost predicate Within(env: Environment, s: Store, es: Directory, omit: bool, spot: Spot) {
    && |spot.chain| > 0
    && forall n: nat | StatesAt(s, es, Last(spot.chain), n) ::
      exists x <- Refs(es) :: WrittenUpTo(env, omit, x, Last(spot.chain), n, |Expansion(s, spot.id)|)
  }

  predicate WrittenUpTo(env: Environment, omit: bool, x: Spot, position: nat, stated: nat, expanded: nat) {
    ValidChain(x.chain) && Last(x.chain) == position && expanded <= stated + |Written(env, omit, x.id)|
  }

  /** Where everything can be read and measured, no block is past what its chain's varint states. */
  ghost predicate WithinAll(env: Environment, s: Store, es: Directory, omit: bool) {
    Legible(s, es) ==> forall spot <- Refs(es) :: Within(env, s, es, omit, spot)
  }

  lemma ListedRefs(es: Directory)
    ensures forall chain, id :: Listed(AddAll(map[], Refs(es)), chain, id) <==> Spot(id, chain) in Refs(es)
  {
    hide AddAll, Refs, Listed;
    forall chain, id ensures Listed(AddAll(map[], Refs(es)), chain, id) <==> Spot(id, chain) in Refs(es) {
      AddAllListed(map[], Refs(es), chain, id);
      NothingListed(chain, id);
    }
  }

  lemma LegibleCovered(s: Store, es: Directory)
    requires Legible(s, es)
    ensures Covered(s, es)
  {
    hide Whole, StatesAt, Refs;
    forall e | e in es && e.Ref? ensures Whole(s, e.id) {
      var j :| 0 <= j < |es| && es[j] == e;
      RefListed(es, j);
    }
  }

  lemma LegibleChecks(env: Environment, s: Store, es: Directory, omit: bool, blocks: Container, pointerLengths: map<nat, nat>)
    requires blocks == AddAll(map[], Refs(es)) && Gathered(env, omit, Refs(es), pointerLengths)
    ensures Legible(s, es) ==> Covered(s, es) && AllCheckable(s, es, pointerLengths, blocks)
    ensures !Legible(s, es) || AllBounded(s, es, pointerLengths, blocks) ==> WithinAll(env, s, es, omit)
  {
    hide Whole, Expansion, StatesAt, Written, AddAll, Refs, Listed, Within, Bounds;
    ListedRefs(es);
    if Legible(s, es) {
      LegibleCovered(s, es);
      if AllBounded(s, es, pointerLengths, blocks) {
        forall spot | spot in Refs(es) ensures Within(env, s, es, omit, spot) {
          assert spot == Spot(spot.id, spot.chain);
          BoundedWithin(env, s, es, omit, pointerLengths, spot);
        }
      }
    }
  }

  lemma BoundedWithin(env: Environment, s: Store, es: Directory, omit: bool, pointerLengths: map<nat, nat>, spot: Spot)
    requires Gathered(env, omit, Refs(es), pointerLengths) && Bounds(s, es, pointerLengths, spot.chain, spot.id)
    ensures Within(env, s, es, omit, spot)
  {
    hide Whole, Expansion, StatesAt, Written, Refs;
    var k := Last(spot.chain);
    var x :| x in Refs(es) && ValidChain(x.chain) && k == Last(x.chain) && pointerLengths[k] == |Written(env, omit, x.id)|;
    forall n: nat | StatesAt(s, es, k, n)
      ensures exists y <- Refs(es) :: WrittenUpTo(env, omit, y, k, n, |Expansion(s, spot.id)|)
    {
      assert WrittenUpTo(env, omit, x, k, n, |Expansion(s, spot.id)|);
    }
  }

  lemma NothingListed(chain: seq<nat>, id: Id)
    ensures !Listed(map[], chain, id)
  {
  }

  // --------------------------------------------------------------- rewriting

  lemma {:induction false} NewIsList(d: Doc, pos: nat)
    ensures |NewLengths(d, pos)| == |LengthList(d, pos)|
    ensures forall i | 0 <= i < |LengthList(d, pos)| ::
      NewLengths(d, pos)[i] == (LengthList(d, pos)[i].0, LengthList(d, pos)[i].1.there)
  {
    hide Encode;
    match d
    case End =>
    case Raw(b, r) => NewIsList(r, pos + |b|);
    case Hole(_, _, h, _, r) => NewIsList(r, pos + RecordSize(|h|));
    case Sub(_, i, r) =>
      NewIsList(i, Inside(i, pos));
      NewIsList(r, pos + RecordSize(|Text(i)|));
  }

  /** The recomputed lengths in ascending order are the document's new lengths. */
  lemma SortedNewLengths(d: Doc, pos: nat, recomputed: Pruned, list: seq<(nat, nat)>)
    requires Recomputed(recomputed, d, pos)
    requires Ascending(list) && Lists(list, map k | k in recomputed :: recomputed[k].0)
    ensures list == NewLengths(d, pos)
  {
    hide Lengths, NewLengths, LengthList, PrunedSum, Text, Flip, Encode;
    var new_, old_ := NewLengths(d, pos), LengthList(d, pos);
    NewIsList(d, pos);
    ListAscends(d, pos);
    forall e: (nat, nat)
      ensures e in list <==> e in new_
    {
      assert e == (e.0, e.1);
      if e in list {
        var l := Lengths(d, pos)[e.0];
        ListsLengths(d, pos, e.0, l);
        var i :| 0 <= i < |old_| && old_[i] == (e.0, l);
        assert new_[i] == e;
      }
      if e in new_ {
        var i :| 0 <= i < |new_| && new_[i] == e;
        assert old_[i] in old_ && old_[i] == (old_[i].0, old_[i].1);
        ListsLengths(d, pos, old_[i].0, old_[i].1);
      }
    }
    SameListing(list, new_);
  }

  function EmitSyms(env: Environment, omitTypes: bool, syms: seq<Sym>): bytes {
    if syms == [] then []
    else (if syms[0].B? then [syms[0].b] else Written(env, omitTypes, syms[0].id)) + EmitSyms(env, omitTypes, syms[1..])
  }

  lemma {:induction false} EmitAppendSyms(env: Environment, omit: bool, a: seq<Sym>, b: seq<Sym>)
    ensures EmitSyms(env, omit, a + b) == EmitSyms(env, omit, a) + EmitSyms(env, omit, b)
  {
    hide Written;
    if a == [] {
      assert a + b == b;
    } else {
      assert (a + b)[1..] == a[1..] + b;
      EmitAppendSyms(env, omit, a[1..], b);
    }
  }

  lemma {:induction false} EmitBytes(env: Environment, omit: bool, b: bytes)
    ensures EmitSyms(env, omit, Sy(b)) == b
  {
    hide Written;
    if b != [] {
      assert Sy(b)[1..] == Sy(b[1..]);
      EmitBytes(env, omit, b[1..]);
    }
  }

  /** Writing pointers for blocks writes the message with block pointers. */
  lemma {:induction false} EmitDoc(env: Environment, omit: bool, d: Doc)
    requires PointersWritten(env, omit, d)
    ensures EmitSyms(env, omit, DocSyms(Flip(d))) == Text(Flip(d))
  {
    hide Encode, Written;
    match d
    case End =>
    case Raw(b, r) =>
      EmitDoc(env, omit, r);
      EmitBytes(env, omit, b);
      EmitAppendSyms(env, omit, Sy(b), DocSyms(Flip(r)));
    case Hole(t, id, _, th, r) =>
      EmitDoc(env, omit, r);
      EmitRecord(env, omit, t, |th|, [K(id)], th, DocSyms(Flip(r)), Text(Flip(r)));
    case Sub(t, i, r) =>
      EmitDoc(env, omit, i);
      EmitDoc(env, omit, r);
      EmitRecord(env, omit, t, |Text(Flip(i))|, DocSyms(Flip(i)), Text(Flip(i)), DocSyms(Flip(r)), Text(Flip(r)));
  }

  lemma EmitRecord(env: Environment, omit: bool, t: byte, n: nat, body: seq<Sym>, payload: bytes, more: seq<Sym>,
                   text: bytes)
    requires EmitSyms(env, omit, body) == payload || (|body| == 1 && body[0].K? && Written(env, omit, body[0].id) == payload)
    requires EmitSyms(env, omit, more) == text
    ensures EmitSyms(env, omit, Sy([t]) + Sy(Encode(n)) + body + more) == [t] + Encode(n) + payload + text
  {
    hide Encode, Written;
    if |body| == 1 && body[0].K? { assert body[1..] == []; }
    EmitAppendSyms(env, omit, Sy([t]) + Sy(Encode(n)) + body, more);
    EmitAppendSyms(env, omit, Sy([t]) + Sy(Encode(n)), body);
    EmitAppendSyms(env, omit, Sy([t]), Sy(Encode(n)));
    EmitBytes(env, omit, [t]);
    EmitBytes(env, omit, Encode(n));
  }

  /** The directory is the document's, and the lengths are the document's new ones. */
  ghost predicate Rewritable(env: Environment, s: Store, lengths: map<nat, nat>, es: Directory, omitTypes: bool, d: Doc) {
    && es == DirectoryOf(d) && Holds(d, Contents(s)) && Covered(s, es) && PointersWritten(env, omitTypes, d)
    && (forall list :: Ascending(list) && Lists(list, lengths) ==> list == NewLengths(d, 0))
  }

  /** The edits from `i` on have been made, and the next one is due. */
  ghost predicate Edited(s: Store, es: Directory, now: Directory, list: seq<(nat, nat)>, i: nat) {
    && i <= |list|
    && SameShape(es, now) && Alternates(es) && Covered(s, es)
    && Editable(Flatten(es), list, Contents(s))
    && Flatten(now) == EditAll(Flatten(es), list[i..], Contents(s))
  }

  /** The edits one after the other, the last of the list first, each where a varint stands by then. */
  ghost predicate Rewrites(s: Store, es: Directory, list: seq<(nat, nat)>, es': Directory) {
    if list == [] then es' == es
    else exists now :: Rewrites(s, es, list[1..], now) && Replaces(s, now, list[0].0, list[0].1, es')
  }

  lemma NothingRewritten(s: Store, es: Directory, list: seq<(nat, nat)>)
    ensures Rewrites(s, es, list[|list|..], es)
  {
  }

  lemma ThenRewritten(s: Store, es: Directory, now: Directory, then_: Directory, list: seq<(nat, nat)>, i: nat)
    requires i < |list| && Covered(s, now) && SameShape(now, then_)
    requires Rewrites(s, es, list[i + 1..], now) && Replaces(s, now, list[i].0, list[i].1, then_)
    ensures Covered(s, then_) && Rewrites(s, es, list[i..], then_)
  {
    hide Whole, Replaces;
    assert list[i..][1..] == list[i + 1..];
    forall e | e in then_ && e.Ref? ensures Whole(s, e.id) {
      var k :| 0 <= k < |then_| && then_[k] == e;
      assert now[k] in now;
    }
  }

  /** `regenerate_buffer`: edits from the last position to the first, then everything in order. */
  method RegenerateBuffer(env: Environment, s: Store, lengths: map<nat, nat>, buffer: array<Entry>, omitTypes: bool,
                          ghost d: Doc)
    returns (r: Result<bytes, DriverError>)
    modifies buffer
    ensures Rewritable(env, s, lengths, old(buffer[..]), omitTypes, d) ==> r == Ok(Text(Flip(d)))
    ensures Covered(s, old(buffer[..])) && r.Ok? ==>
      && r.value == EmitSyms(env, omitTypes, Flatten(buffer[..]))
      && exists list :: Ascending(list) && Lists(list, lengths) && Rewrites(s, old(buffer[..]), list, buffer[..])
  {
    hide *;
    ghost var es := buffer[..];
    ghost var ready := Rewritable(env, s, lengths, es, omitTypes, d);
    ghost var covered := Covered(s, es);
    var list := SortByPosition(lengths);
    var i := |list|;
    if ready { StartEdits(env, s, lengths, es, omitTypes, d, list); }
    NothingRewritten(s, es, list);
    while i > 0
      invariant 0 <= i <= |list|
      invariant covered ==> Covered(s, buffer[..]) && Rewrites(s, es, list[i..], buffer[..])
      invariant ready ==> Edited(s, es, buffer[..], list, i)
    {
      i := i - 1;
      ghost var now := buffer[..];
      ghost var n: nat := 0;
      if ready { n := NextEdit(s, es, now, list, i); }
      var failure := SetVarintValue(s, buffer, list[i].0, list[i].1);
      match failure {
        case Some(e) =>
          return Err(e);
        case None =>
          if ready { ThenEdit(s, es, now, buffer[..], list, i); }
          if covered { ThenRewritten(s, es, now, buffer[..], list, i); }
      }
    }
    assert list[0..] == list;
    if ready { AllEdited(env, s, lengths, es, omitTypes, d, list, buffer[..]); }
    var out := EmitBuffer(env, buffer, omitTypes);
    return Ok(out);
  }

  /** Its second loop: parts as they are now, pointers in the place of blocks. */
  method EmitBuffer(env: Environment, buffer: array<Entry>, omitTypes: bool) returns (out: bytes)
    ensures out == EmitSyms(env, omitTypes, Flatten(buffer[..]))
  {
    hide Written, Flatten, EmitSyms;
    out := [];
    var j := 0;
    ghost var final := buffer[..];
    assert final[..0] == [];
    NothingEmitted(env, omitTypes);
    while j < buffer.Length
      invariant 0 <= j <= buffer.Length && buffer[..] == final
      invariant out == EmitSyms(env, omitTypes, Flatten(final[..j]))
    {
      EmitEntry(env, omitTypes, final, j);
      match buffer[j] {
        case Part(b) => out := out + b;
        case Ref(id, _) => out := out + Written(env, omitTypes, id);
      }
      j := j + 1;
    }
    assert final[..j] == final;
  }

  lemma NothingEmitted(env: Environment, omit: bool)
    ensures EmitSyms(env, omit, Flatten([])) == []
  {
  }

  lemma EmitEntry(env: Environment, omit: bool, es: Directory, j: nat)
    requires j < |es|
    ensures EmitSyms(env, omit, Flatten(es[..j + 1])) ==
            EmitSyms(env, omit, Flatten(es[..j])) + (if es[j].Part? then es[j].content else Written(env, omit, es[j].id))
  {
    hide Written;
    assert es[..j + 1] == es[..j] + [es[j]];
    FlattenAppend(es[..j], [es[j]]);
    assert [es[j]][1..] == [];
    if es[j].Part? {
      EmitBytes(env, omit, es[j].content);
      assert Flatten([es[j]]) == Sy(es[j].content);
    } else {
      assert Flatten([es[j]]) == [K(es[j].id)];
      assert [K(es[j].id)][1..] == [];
      assert EmitSyms(env, omit, [K(es[j].id)]) == Written(env, omit, es[j].id) + EmitSyms(env, omit, []);
    }
    EmitAppendSyms(env, omit, Flatten(es[..j]), Flatten([es[j]]));
  }

  lemma StartEdits(env: Environment, s: Store, lengths: map<nat, nat>, es: Directory, omit: bool, d: Doc,
                   list: seq<(nat, nat)>)
    requires Rewritable(env, s, lengths, es, omit, d) && Ascending(list) && Lists(list, lengths)
    ensures Edited(s, es, es, list, |list|)
  {
    DirectoryAlternates(d);
    ExchangeDirectory(s, d);
    assert list[|list|..] == [];
  }

  /** With every edit made, what is left to write out is the message with block pointers. */
  lemma AllEdited(env: Environment, s: Store, lengths: map<nat, nat>, es: Directory, omit: bool, d: Doc,
                  list: seq<(nat, nat)>, now: Directory)
    requires Rewritable(env, s, lengths, es, omit, d) && Ascending(list) && Lists(list, lengths)
    requires Edited(s, es, now, list, 0)
    ensures EmitSyms(env, omit, Flatten(now)) == Text(Flip(d))
  {
    assert list[0..] == list;
    ExchangeDirectory(s, d);
    EmitDoc(env, omit, d);
  }

  lemma ExchangeDirectory(s: Store, d: Doc)
    requires Holds(d, Contents(s))
    ensures Exchanged(Flatten(DirectoryOf(d)), NewLengths(d, 0), DocSyms(Flip(d)), Contents(s))
  {
    hide Encode, Exchanged;
    DirectoryFlattens(d);
    EditsExchange(d, [], [], Contents(s));
    assert Weight([], Contents(s)) == 0;
    assert [] + DocSyms(d) + [] == DocSyms(d);
    assert [] + DocSyms(Flip(d)) + [] == DocSyms(Flip(d));
  }

  lemma NextEdit(s: Store, es: Directory, now: Directory, list: seq<(nat, nat)>, i: nat) returns (n: nat)
    requires i < |list| && Edited(s, es, now, list, i + 1)
    ensures StatesAt(s, now, list[i].0, n) && Covered(s, now)
  {
    hide Encode, Edit, Flatten, EditAll, Weight, Sy, Realizes, Alternates;
    ShapeAlternates(es, now);
    EditableTail(Flatten(es), list, i, Contents(s));
    assert list[i..][1..] == list[i + 1..];
    var pre, m: nat, post :| VarintIn(EditAll(Flatten(es), list[i + 1..], Contents(s)), list[i].0, pre, m, post, Contents(s));
    var j := FindVarint(s, now, pre, m, post);
    n := m;
    forall e | e in now && e.Ref? ensures Whole(s, e.id) {
      var k :| 0 <= k < |now| && now[k] == e;
      assert es[k] in es;
    }
  }

  lemma ThenEdit(s: Store, es: Directory, now: Directory, then_: Directory, list: seq<(nat, nat)>, i: nat)
    requires i < |list| && Edited(s, es, now, list, i + 1) && SameShape(now, then_)
    requires Flatten(then_) == Edit(Flatten(now), list[i].0, list[i].1, Contents(s))
    ensures Edited(s, es, then_, list, i)
  {
    hide Encode, Edit, Flatten;
    assert list[i..][1..] == list[i + 1..];
  }

  // ------------------------------------------------------------------- the driver

  lemma ListedFacts(env: Environment, s: Store, omit: bool, d: Doc, container: Container, pointerLengths: map<nat, nat>)
    requires Collapsible(env, s, DirectoryOf(d), omit, d)
    requires container == AddAll(map[], Refs(DirectoryOf(d))) && Gathered(env, omit, Refs(DirectoryOf(d)), pointerLengths)
    ensures forall chain, id :: Listed(container, chain, id) <==> IsSpot(d, 0, chain, id)
    ensures forall chain, id :: Listed(container, chain, id) ==>
      |chain| > 0 && Whole(s, id) && Last(chain) in pointerLengths && StatesAt(s, DirectoryOf(d), Last(chain), |Expansion(s, id)|)
  {
    hide Encode, Whole, Expansion, StatesAt, Written;
    DirectoryRefs(d);
    GatheredIsDocument(d, 0);
    forall chain, id | Listed(container, chain, id)
      ensures |chain| > 0 && Whole(s, id) && Last(chain) in pointerLengths
      ensures |chain| > 0 ==> StatesAt(s, DirectoryOf(d), Last(chain), |Expansion(s, id)|)
    {
      SpotLength(env, omit, d, 0, chain, id, Contents(s));
      VarintsReadable(s, d, Last(chain));
      SpotsComplete(d, [], 0, chain, id);
      assert [] + chain == chain;
      assert Spot(id, chain) in Refs(DirectoryOf(d));
    }
  }

  lemma ListedPass(env: Environment, s: Store, omit: bool, d: Doc, container: Container, pointerLengths: map<nat, nat>)
    requires Collapsible(env, s, DirectoryOf(d), omit, d)
    requires container == AddAll(map[], Refs(DirectoryOf(d))) && Gathered(env, omit, Refs(DirectoryOf(d)), pointerLengths)
    ensures forall chain, id :: Listed(container, chain, id) <==> IsSpot(d, 0, chain, id)
    ensures AllCheckable(s, DirectoryOf(d), pointerLengths, container)
    ensures AllBounded(s, DirectoryOf(d), pointerLengths, container)
  {
    hide Collapsible, Gathered, Listed, IsSpot, Checkable, Bounds, Whole, StatesAt, DirectoryOf, AddAll, Refs;
    ListedFacts(env, s, omit, d, container, pointerLengths);
    forall chain, id | Listed(container, chain, id)
      ensures Checkable(s, DirectoryOf(d), pointerLengths, chain, id) && Bounds(s, DirectoryOf(d), pointerLengths, chain, id)
    {
      DescribedPasses(s, DirectoryOf(d), pointerLengths, chain, id);
    }
  }

  lemma CollapseReady(env: Environment, s: Store, omit: bool, d: Doc, f: Flow, pointerLengths: map<nat, nat>)
    requires Collapsible(env, s, DirectoryOf(d), omit, d) && Realizes(s, DirectoryOf(d), f)
    requires Gathered(env, omit, Refs(DirectoryOf(d)), pointerLengths)
    ensures Ready(s, DirectoryOf(d), f, pointerLengths, d, 0)
  {
    hide Encode, Whole, StatesAt, Written;
    DirectoryRefs(d);
    forall k | k in Lengths(d, 0)
      ensures var l := Lengths(d, 0)[k];
        StatesAt(s, DirectoryOf(d), k, l.here) && (l.leaf ==> k in pointerLengths && pointerLengths[k] == l.there)
    {
      VarintsReadable(s, d, k);
      if Lengths(d, 0)[k].leaf {
        var chain, id := LeafSpot(d, 0, k);
        SpotsComplete(d, [], 0, chain, id);
        assert [] + chain == chain;
        assert Spot(id, chain) in Refs(DirectoryOf(d));
        var x :| x in Refs(DirectoryOf(d)) && ValidChain(x.chain) && k == Last(x.chain) && pointerLengths[k] == |Written(env, omit, x.id)|;
        SpotsSound(d, [], 0, x);
        assert x.chain[0..] == x.chain;
        SpotLength(env, omit, d, 0, x.chain, x.id, Contents(s));
      }
    }
  }

  lemma CollapsibleIsCovered(env: Environment, s: Store, omit: bool, d: Doc)
    requires Collapsible(env, s, DirectoryOf(d), omit, d)
    ensures Covered(s, DirectoryOf(d))
    ensures forall spot <- Refs(DirectoryOf(d)) :: ValidChain(spot.chain)
  {
    hide Encode, Whole, Written;
    DirectoryRefs(d);
    forall spot | spot in Refs(DirectoryOf(d))
      ensures ValidChain(spot.chain) && Whole(s, spot.id)
    {
      SpotsSound(d, [], 0, spot);
      assert spot.chain[0..] == spot.chain;
      SpotLength(env, omit, d, 0, spot.chain, spot.id, Contents(s));
    }
    var es := DirectoryOf(d);
    forall e | e in es && e.Ref? ensures Whole(s, e.id) {
      var j :| 0 <= j < |es| && es[j] == e;
      RefListed(es, j);
    }
  }

  // ------------------------------------------------------ what is written is a pointer

  /** The types around are those a pointer that leaves its own out needs. */
  predicate Supplied(env: Environment, inherited: Option<seq<bytes>>) {
    env.hashType != [] && (inherited.Some? ==> |inherited.value| > 0 && inherited.value[0] == env.hashType)
  }

  function Around(inherited: Option<seq<bytes>>): seq<bytes> {
    if inherited.Some? then inherited.value else []
  }

  /** Some bytes are a pointer, as the format has it, that names the block. */
  ghost predicate PointsAt(env: Environment, b: bytes, inherited: Option<seq<bytes>>, id: Id, most: nat) {
    match ParsePointer(b, most)
    case None => false
    case Some(p) => Names(p, Around(inherited), env.hashType, id)
  }

  lemma WrittenPoints(env: Environment, inherited: Option<seq<bytes>>, id: Id, most: nat)
    requires Supplied(env, inherited) && Width(|Written(env, inherited.Some?, id)|) <= most
    ensures PointsAt(env, Written(env, inherited.Some?, id), inherited, id, most)
  {
    hide Names, PointerBytes, BlockId, ParsePointer;
    var p := BlockPointer(id, inherited.Some?, env.hashType);
    PointerParses(p, most);
    WrittenPointerNames(id, env.hashType, Around(inherited));
    BlockIdExactly(p, Around(inherited), env.hashType, id);
  }

  lemma WrittenPointsFrom(env: Environment, inherited: Option<seq<bytes>>, id: Id, least: nat)
    requires Supplied(env, inherited) && Width(|Written(env, inherited.Some?, id)|) <= least
    ensures PointsFrom(env, Written(env, inherited.Some?, id), inherited, id, least)
  {
    hide Written, PointsAt;
    forall most: nat | least <= most ensures PointsAt(env, Written(env, inherited.Some?, id), inherited, id, most) {
      WrittenPoints(env, inherited, id, most);
    }
  }

  /**
    In a pointer form, the chain of every hole of `d` leads to the bytes of a pointer that
    names the hole's block.
    */
  ghost predicate HoldsPointers(env: Environment, text: bytes, d: Doc, inherited: Option<seq<bytes>>) {
    var es := DirectoryOf(Flip(d));
    && Ids(Refs(es)) == Ids(Refs(DirectoryOf(d)))
    && forall j | 0 <= j < |es| && es[j].Ref? :: PointsThere(env, text, es[j].chain, es[j].id, inherited)
  }

  ghost predicate PointsThere(env: Environment, text: bytes, chain: seq<nat>, id: Id, inherited: Option<seq<bytes>>) {
    exists at: nat, size: nat :: at + size <= |text| && Leads(text, chain, 0, |text|, at, size)
      && PointsFrom(env, text[at..at + size], inherited, id, Width(|text|))
  }

  /** Whatever the longest varint a parser takes, if it takes those that are needed. */
  ghost predicate PointsFrom(env: Environment, b: bytes, inherited: Option<seq<bytes>>, id: Id, least: nat) {
    forall most: nat | least <= most :: PointsAt(env, b, inherited, id, most)
  }

  lemma {:induction false} WrittenHolds(env: Environment, omitTypes: bool, d: Doc, content: Id -> bytes)
    requires PointersWritten(env, omitTypes, d) && forall id :: content(id) == Written(env, omitTypes, id)
    ensures Holds(Flip(d), content)
  {
    hide Written;
    match d
    case End =>
    case Raw(_, r) => WrittenHolds(env, omitTypes, r, content);
    case Hole(_, _, _, _, r) => WrittenHolds(env, omitTypes, r, content);
    case Sub(_, i, r) => WrittenHolds(env, omitTypes, i, content); WrittenHolds(env, omitTypes, r, content);
  }

  /** The bytes of an entry in the stream. */
  lemma FilledAt(es: Directory, j: nat, content: Id -> bytes)
    requires j < |es| && es[j].Ref?
    ensures var whole, at := Fill(es, content), |Fill(es[..j], content)|;
      at + |content(es[j].id)| <= |whole| && whole[at..at + |content(es[j].id)|] == content(es[j].id)
  {
    var before, after := es[..j], es[j + 1..];
    assert es == before + ([es[j]] + after);
    FillAppend(before, [es[j]] + after, content);
    assert ([es[j]] + after)[1..] == after;
  }

  lemma PointerFormPoints(env: Environment, d: Doc, inherited: Option<seq<bytes>>)
    requires PointersWritten(env, inherited.Some?, d) && Supplied(env, inherited)
    ensures HoldsPointers(env, Text(Flip(d)), d, inherited)
  {
    hide Encode, Written, PointersWritten, Holds, Text, Flip, Fill, Leads, PointsFrom, Supplied, DirectoryOf, Spots;
    var content := (id: Id) => Written(env, inherited.Some?, id);
    var f, text := Flip(d), Text(Flip(d));
    var es := DirectoryOf(f);
    WrittenHolds(env, inherited.Some?, d, content);
    DirectoryExpands(f, content);
    DirectoryRefs(d);
    DirectoryRefs(f);
    FlipFound(d, [], 0, [], 0);
    forall j | 0 <= j < |es| && es[j].Ref? ensures PointsThere(env, text, es[j].chain, es[j].id, inherited) {
      ChainsLead(f, content, j);
      FilledAt(es, j, content);
      var at, size := |Fill(es[..j], content)|, |content(es[j].id)|;
      WidthMonotone(size, |text|);
      WrittenPointsFrom(env, inherited, es[j].id, Width(|text|));
      assert Leads(text, es[j].chain, 0, |text|, at, size);
    }
  }

  /**
    `generate_wbp_file`: on the directory of a document, the document with its holes
    filled by the library's pointers is written back, byte for byte, and each of them is a
    pointer that names its hole's block.
    */
  method GenerateWbpFile(env: Environment, s: Store, es: Directory, inherited: Option<seq<bytes>>, ghost d: Doc)
    returns (r: Result<bytes, DriverError>)
    ensures Collapsible(env, s, es, inherited.Some?, d) ==> r == Ok(Text(Flip(d)))
    ensures Collapsible(env, s, es, inherited.Some?, d) && Supplied(env, inherited) ==>
      r.Ok? && HoldsPointers(env, r.value, d, inherited)
    ensures r.Ok? ==> forall spot <- Refs(es) :: ValidChain(spot.chain)
    ensures r.Ok? ==> WithinAll(env, s, es, inherited.Some?)
  {
    hide HoldsPointers, Supplied, AllCheckable, AllBounded, Legible, WithinAll, ValidChain, Gathered, AddAll;
    hide Encode, Whole, StatesAt, Written, Holds, PointersWritten, Text, Flip, Lengths, Realizes, Ready, Recomputed,
        TreeOf, IsSpot, Lay;
    var omitTypes := inherited.Some?;
    ghost var ready := Collapsible(env, s, es, omitTypes, d);
    if ready { CollapsibleIsCovered(env, s, omitTypes, d); }
    if ready && Supplied(env, inherited) { PointerFormPoints(env, d, inherited); }
    var loaded := GatherChains(env, es, omitTypes);
    match loaded {
      case Err(e) =>
        return Err(e);
      case Ok((blocks, pointerLengths)) =>
        ghost var f := Nil;
        LegibleChecks(env, s, es, omitTypes, blocks, pointerLengths);
        if Covered(s, es) { f := CoveredRealizes(s, es); }
        if ready {
          ListedPass(env, s, omitTypes, d, blocks, pointerLengths);
          CollapseReady(env, s, omitTypes, d, f, pointerLengths);
          TreeOfContainer(d, 0, blocks);
        }
        var failure := ValidateLengthsTree(s, blocks, es, pointerLengths, f);
        match failure {
          case Some(e) =>
            return Err(e);
          case None =>
        }
        var tree := CreateLengthsTree(blocks);
        match tree {
          case None =>
            return Err(CrossingChains);
          case Some(kids) =>
            var recalculated := RecComputeWbpLengths(s, kids, es, pointerLengths, d, 0, f);
            match recalculated {
              case Err(e) =>
                return Err(e);
              case Ok(pruned) =>
                var buffer := new Entry[|es|](i requires 0 <= i < |es| => es[i]);
                assert buffer[..] == es;
                var lengths := map k | k in pruned :: pruned[k].0;
                if ready {
                  forall list | Ascending(list) && Lists(list, lengths) ensures list == NewLengths(d, 0) {
                    SortedNewLengths(d, 0, pruned, list);
                  }
                }
                r := RegenerateBuffer(env, s, lengths, buffer, omitTypes, d);
            }
        }
    }
  }

  // ------------------------------------------------- collapse undoes expand

  /** Every selected pointer of the message is in the one encoding the library writes. */
  predicate LibraryPointers(m: Message, ctx: Context, omitTypes: bool) {
    match m
    case NoFields => true
    case Scalar(_, r) => LibraryPointers(r, ctx, omitTypes)
    case Blob(_, _, r) => LibraryPointers(r, ctx, omitTypes)
    case Link(_, p, r) =>
      && (Selected(ctx, p).Some? ==> p == BlockPointer(Selected(ctx, p).value, omitTypes, ctx.hashType))
      && LibraryPointers(r, ctx, omitTypes)
    case Nested(_, i, r) => LibraryPointers(i, ctx, omitTypes) && LibraryPointers(r, ctx, omitTypes)
  }

  lemma {:induction false} LibraryWritten(env: Environment, m: Message, ctx: Context, omitTypes: bool, content: Id -> bytes)
    requires LibraryPointers(m, ctx, omitTypes) && ctx.hashType == env.hashType
    ensures PointersWritten(env, omitTypes, Flip(DocOf(m, ctx, content)))
  {
    hide PointerBytes;
    match m
    case NoFields =>
    case Scalar(_, r) => LibraryWritten(env, r, ctx, omitTypes, content);
    case Blob(_, _, r) => LibraryWritten(env, r, ctx, omitTypes, content);
    case Link(_, _, r) => LibraryWritten(env, r, ctx, omitTypes, content);
    case Nested(_, i, r) =>
      LibraryWritten(env, i, ctx, omitTypes, content);
      LibraryWritten(env, r, ctx, omitTypes, content);
  }

  /**
    Collapse undoes expand: the directory built from a message is collapsible, and what
    collapsing it writes is the message's own serialization, whether blocks are longer or
    shorter than their pointers and however many length varints change width.
    */
  lemma {:induction false} CollapseUndoesExpand(env: Environment, s: Store, m: Message, blocks: seq<Id>,
                                                inherited: seq<bytes>, omitTypes: bool)
    requires AllWhole(s, HoleIds(Expanded(env, s, m, blocks, inherited)))
    requires LibraryPointers(m, ContextOf(env, blocks, inherited), omitTypes)
    ensures var e := Expanded(env, s, m, blocks, inherited);
      && Collapsible(env, s, DirectoryOf(e), omitTypes, e)
      && Text(Flip(e)) == Serialize(m)
  {
    var ctx := ContextOf(env, blocks, inherited);
    DocHolds(m, ctx, Contents(s));
    LibraryWritten(env, m, ctx, omitTypes, Contents(s));
    FlipTwice(DocOf(m, ctx, Contents(s)));
    DocText(m, ctx, Contents(s));
  }

  /** Building and collapsing, in one run. */
  method BuildThenCollapse(env: Environment, s: Store, m: Message, blocks: seq<Id>, inherited: Option<seq<bytes>>)
    returns (built: Result<Built, BuildError>, back: Result<bytes, DriverError>)
    ensures var ctx := ContextOf(env, blocks, Around(inherited));
      && (built.Ok? <==> forall id <- blocks :: id in Targets(m, ctx) && Streamable(env, s, id))
      && (built.Ok? && LibraryPointers(m, ctx, inherited.Some?) ==> back == Ok(Serialize(m)))
  {
    var types := Around(inherited);
    built := BuildMultiblock(env, s, m, blocks, types);
    back := Err(InvalidBlock);
    match built {
      case Err(_) =>
      case Ok(b) =>
        ghost var e := Expanded(env, s, m, blocks, types);
        if LibraryPointers(m, ContextOf(env, blocks, types), inherited.Some?) {
          CollapseUndoesExpand(env, s, m, blocks, types, inherited.Some?);
        }
        back := GenerateWbpFile(env, s, b.directory, inherited, e);
    }
  }
}
