/** `build_multiblock`, put together: search, measure, write, search again, identify. */
module Build {
  import opened Bytes
  import opened Varint
  import opened Documents
  import opened Layouts
  import opened Pointers
  import opened Messages
  import opened LengthsTrees
  import opened Stores
  import opened Reader
  import opened Builder

  // --------------------------------------------- searching in the expanded object

  ghost predicate Local(reals: map<nat, Length>, d: Doc, pos: nat) {
    Agrees(reals, Lengths(d, pos), pos, pos + |Text(d)|)
  }

  lemma LocalRest(reals: map<nat, Length>, d: Doc, pos: nat)
    requires Local(reals, d, pos) && !d.End?
    ensures Local(reals, d.rest, pos + |First(d)|)
  {
    hide Encode, Text, First, Lengths, FieldLengths;
    TextStep(d);
    LengthsStep(d, pos);
  }

  lemma LocalInner(reals: map<nat, Length>, d: Doc, pos: nat)
    requires Local(reals, d, pos) && d.Sub?
    ensures Local(reals, d.inner, Inside(d.inner, pos))
    ensures pos + 1 in reals <==> Bearing(d.inner)
    ensures pos + 1 in reals ==> reals[pos + 1] == Length(|Text(Flip(d.inner))|, |Text(d.inner)|, false)
  {
    hide Encode;
    var next := pos + RecordSize(|Text(d.inner)|);
    LengthBounds(d.rest, next);
    LengthBounds(d.inner, Inside(d.inner, pos));
    forall k | k in Lengths(d.inner, Inside(d.inner, pos))
      ensures k in reals && reals[k] == Lengths(d.inner, Inside(d.inner, pos))[k]
    {
      assert k in Lengths(d, pos);
    }
    assert Bearing(d.inner) ==> pos + 1 in Lengths(d, pos);
  }

  lemma LocalHole(reals: map<nat, Length>, d: Doc, pos: nat)
    requires Local(reals, d, pos) && d.Hole?
    ensures pos + 1 in reals && reals[pos + 1].there == |d.there|
  {
    hide Encode;
    LengthBounds(d.rest, pos + RecordSize(|d.here|));
    assert pos + 1 in Lengths(d, pos);
  }

  lemma {:induction false} NoSpots(d: Doc, prefix: seq<nat>, pos: nat)
    requires !Bearing(d)
    ensures Spots(d, prefix, pos) == []
  {
    match d
    case End =>
    case Raw(b, r) => NoSpots(r, prefix, pos + |b|);
    case Sub(_, i, r) =>
      NoSpots(i, prefix + [pos + 1], Inside(i, pos));
      NoSpots(r, prefix, pos + RecordSize(|Text(i)|));
  }

  /** What one field adds to the occurrences in the expanded object. */
  lemma FieldSpots(d: Doc, pointers: seq<nat>, there: nat)
    requires !d.End?
    ensures var e := Flip(d); var next := there + |First(e)|;
      Spots(e, pointers, there) ==
        (match d
         case Raw(_, _) => []
         case Hole(_, id, _, _, _) => [Spot(id, pointers + [there + 1])]
         case Sub(_, i, _) => if Bearing(i) then Spots(Flip(i), pointers + [there + 1], Inside(Flip(i), there)) else [])
        + Spots(Flip(d.rest), pointers, next)
  {
    hide Encode;
    if d.Sub? && !Bearing(d.inner) {
      FlipBearing(d.inner);
      NoSpots(Flip(d.inner), pointers + [there + 1], Inside(Flip(d.inner), there));
    }
  }

  /** The list `search_on_message_real` appends to. */
  class RealSearch {
    const ctx: Context
    const s: Store
    const realLengths: map<nat, Length>
    var container: seq<Spot>

    constructor (ctx: Context, s: Store, realLengths: map<nat, Length>)
      ensures this.ctx == ctx && this.s == s && this.realLengths == realLengths && container == []
    {
      this.ctx, this.s, this.realLengths := ctx, s, realLengths;
      container := [];
    }

    /** `search_on_message_real`: two positions advance, one in each coordinate system. */
    method SearchOnMessageReal(message: Message, pointers: seq<nat>, initialPosition: nat, realInitialPosition: nat)
      returns (failure: Option<BuildError>)
      requires Local(realLengths, DocOf(message, ctx, Contents(s)), initialPosition)
      modifies this
      ensures AllWhole(s, HoleIds(DocOf(message, ctx, Contents(s)))) ==> failure == None
      ensures failure == None ==>
        container == old(container) + Spots(Flip(DocOf(message, ctx, Contents(s))), pointers, realInitialPosition)
      decreases message
    {
      hide *;
      var position: nat := initialPosition;
      var realPosition: nat := realInitialPosition;
      var fields := message;
      ghost var goal := container + Spots(Flip(DocOf(message, ctx, Contents(s))), pointers, realPosition);
      StartSearching(realLengths, message, ctx, s, position, realPosition, container, pointers);
      while fields != NoFields
        invariant fields == message || fields < message
        invariant Searching(realLengths, message, fields, ctx, s, position, realPosition, container, pointers, goal)
        decreases fields
      {
        SearchStep(realLengths, message, fields, ctx, s, position, realPosition, container, pointers, goal);
        match fields {
          case Nested(_, inner, _) =>
            var size := |Serialize(inner)|;
            position := position + 1;
            if position !in realLengths {
              position := position + Width(size) + size;
              realPosition := realPosition + 1 + Width(size) + size;
            } else {
              var messageSize := realLengths[position].there;
              var inside := SearchOnMessageReal(inner, pointers + [realPosition + 1], position + Width(size),
                                                realPosition + 1 + Width(messageSize));
              if inside.Some? {
                return inside;
              }
              position := position + Width(size) + size;
              realPosition := realPosition + 1 + Width(messageSize) + messageSize;
            }
          case Link(_, pointer, _) =>
            var size := |PointerBytes(pointer)|;
            var id := Selected(ctx, pointer);
            if id.Some? {
              container := container + [Spot(id.value, pointers + [realPosition + 1])];
              var blockLength := GetBlockLength(s, id.value);
              if blockLength.Err? {
                return Some(blockLength.error);
              }
              position := position + 1;
              if position !in realLengths || realLengths[position].there != blockLength.value {
                return Some(Misplaced(position));
              }
              position := position + Width(size) + size;
              realPosition := realPosition + 1 + Width(blockLength.value) + blockLength.value;
            } else {
              position := position + 1 + Width(size) + size;
              realPosition := realPosition + 1 + Width(size) + size;
            }
          case Blob(_, payload, _) =>
            position := position + 1 + Width(|payload|) + |payload|;
            realPosition := realPosition + 1 + Width(|payload|) + |payload|;
          case Scalar(raw, _) =>
            position := position + |raw|;
            realPosition := realPosition + |raw|;
        }
        fields := fields.more;
      }
      EndSearching(realLengths, message, ctx, s, position, realPosition, container, pointers, goal);
      return None;
    }
  }

  /** The fields before these have been searched: their occurrences are in the container. */
  ghost predicate Searching(reals: map<nat, Length>, message: Message, fields: Message, ctx: Context, s: Store, here: nat,
                            there: nat, container: seq<Spot>, pointers: seq<nat>, goal: seq<Spot>) {
    var d := DocOf(fields, ctx, Contents(s));
    && Local(reals, d, here)
    && HoleIds(d) <= HoleIds(DocOf(message, ctx, Contents(s)))
    && goal == container + Spots(Flip(d), pointers, there)
  }

  lemma StartSearching(reals: map<nat, Length>, message: Message, ctx: Context, s: Store, here: nat, there: nat,
                       container: seq<Spot>, pointers: seq<nat>)
    requires Local(reals, DocOf(message, ctx, Contents(s)), here)
    ensures Searching(reals, message, message, ctx, s, here, there, container, pointers,
                      container + Spots(Flip(DocOf(message, ctx, Contents(s))), pointers, there))
  {
    hide Local, HoleIds, Spots, Flip, DocOf, Contents;
  }

  lemma EndSearching(reals: map<nat, Length>, message: Message, ctx: Context, s: Store, here: nat, there: nat,
                     container: seq<Spot>, pointers: seq<nat>, goal: seq<Spot>)
    requires Searching(reals, message, NoFields, ctx, s, here, there, container, pointers, goal)
    ensures container == goal
  {
    hide Local, HoleIds, Contents;
  }

  /** One field searched: what it adds, and where the next begins in both coordinate systems. */
  lemma SearchStep(reals: map<nat, Length>, message: Message, fields: Message, ctx: Context, s: Store, here: nat, there: nat,
                   container: seq<Spot>, pointers: seq<nat>, goal: seq<Spot>)
    requires Searching(reals, message, fields, ctx, s, here, there, container, pointers, goal) && fields != NoFields
    ensures match fields
      case Scalar(b, r) => Searching(reals, message, r, ctx, s, here + |b|, there + |b|, container, pointers, goal)
      case Blob(_, b, r) =>
        var n := 1 + Width(|b|) + |b|;
        Searching(reals, message, r, ctx, s, here + n, there + n, container, pointers, goal)
      case Link(_, p, r) =>
        (var size := |PointerBytes(p)|;
         match Selected(ctx, p)
         case None =>
           var n := 1 + Width(size) + size;
           Searching(reals, message, r, ctx, s, here + n, there + n, container, pointers, goal)
         case Some(id) =>
           var block := |Expansion(s, id)|;
           && (AllWhole(s, HoleIds(DocOf(message, ctx, Contents(s)))) ==> Whole(s, id))
           && here + 1 in reals && reals[here + 1].there == block
           && Searching(reals, message, r, ctx, s, here + 1 + Width(size) + size, there + 1 + Width(block) + block,
                        container + [Spot(id, pointers + [there + 1])], pointers, goal))
      case Nested(_, inner, r) =>
        var size := |Serialize(inner)|;
        var i := DocOf(inner, ctx, Contents(s));
        if here + 1 !in reals then
          var n := 1 + Width(size) + size;
          Searching(reals, message, r, ctx, s, here + n, there + n, container, pointers, goal)
        else
          var m := reals[here + 1].there;
          && Local(reals, i, here + 1 + Width(size))
          && (AllWhole(s, HoleIds(DocOf(message, ctx, Contents(s)))) ==> AllWhole(s, HoleIds(i)))
          && Searching(reals, message, r, ctx, s, here + 1 + Width(size) + size, there + 1 + Width(m) + m,
                       container + Spots(Flip(i), pointers + [there + 1], there + 1 + Width(m)), pointers, goal)
  {
    hide Encode, Spots, Text, Lengths, Bearing, HoleIds, Local, Serialize, PointerBytes, Whole, Selected, First, Expansion;
    var d := DocOf(fields, ctx, Contents(s));
    LocalRest(reals, d, here);
    FieldSpots(d, pointers, there);
    FieldSizes(fields, ctx, Contents(s));
    FieldIds(d);
    var more := Spots(Flip(d.rest), pointers, there + |First(Flip(d))|);
    match fields
    case Scalar(_, _) => Later(container, [], container, Spots(Flip(d), pointers, there), more, goal);
    case Blob(_, _, _) => Later(container, [], container, Spots(Flip(d), pointers, there), more, goal);
    case Link(_, p, _) =>
      if Selected(ctx, p).Some? {
        LocalHole(reals, d, here);
        var own := [Spot(d.id, pointers + [there + 1])];
        Later(container, own, container + own, Spots(Flip(d), pointers, there), more, goal);
      } else {
        Later(container, [], container, Spots(Flip(d), pointers, there), more, goal);
      }
    case Nested(_, _, _) =>
      LocalInner(reals, d, here);
      var own := if Bearing(d.inner) then Spots(Flip(d.inner), pointers + [there + 1], Inside(Flip(d.inner), there)) else [];
      Later(container, own, container + own, Spots(Flip(d), pointers, there), more, goal);
      assert container + [] == container;
  }

  lemma Later(before: seq<Spot>, added: seq<Spot>, after: seq<Spot>, all: seq<Spot>, more: seq<Spot>, goal: seq<Spot>)
    requires after == before + added && all == added + more && goal == before + all
    ensures goal == after + more
  {
  }

  /** The sizes of a field in both coordinate systems, as the walk computes them. */
  lemma FieldSizes(m: Message, ctx: Context, content: Id -> bytes)
    requires m != NoFields
    ensures var d := DocOf(m, ctx, content); var here, there := |First(d)|, |First(Flip(d))|;
      match m
      case Scalar(b, _) => here == |b| == there
      case Blob(_, b, _) => here == RecordSize(|b|) == there
      case Link(_, p, _) =>
        && here == RecordSize(|PointerBytes(p)|)
        && there == (if Selected(ctx, p).Some? then RecordSize(|content(Selected(ctx, p).value)|) else here)
      case Nested(_, i, _) =>
        && Text(d.inner) == Serialize(i) && here == RecordSize(|Serialize(i)|)
        && there == RecordSize(|Text(Flip(d.inner))|)
        && (!Bearing(d.inner) ==> there == here)
  {
    hide Encode;
    if m.Nested? {
      DocText(m.inner, ctx, content);
      if !Bearing(DocOf(m.inner, ctx, content)) { NoHoles(DocOf(m.inner, ctx, content)); }
    }
  }

  lemma FieldIds(d: Doc)
    requires !d.End?
    ensures HoleIds(d.rest) <= HoleIds(d)
    ensures d.Hole? ==> d.id in HoleIds(d)
    ensures d.Sub? ==> HoleIds(d.inner) <= HoleIds(d)
  {
  }

  // --------------------------------------------------------- the id, the directory

  /** Every single-file block is stored under the hash of its content. */
  ghost predicate FilesIntact(env: Environment, s: Store) {
    forall id <- s :: s[id].File? ==> env.hash(s[id].content) == id
  }

  lemma {:induction false} IntactFlow(env: Environment, s: Store, f: Flow)
    requires FilesIntact(env, s)
    ensures Intact(env, s, f)
  {
    match f
    case Nil =>
    case Bytes(_, r) => IntactFlow(env, s, r);
    case Block(_, _, body, r) => IntactFlow(env, s, body); IntactFlow(env, s, r);
  }

  function From<T>(xs: seq<T>, i: nat): seq<T> {
    if i <= |xs| then xs[i..] else []
  }

  lemma ZipStep(parts: seq<bytes>, refs: seq<Spot>, i: nat)
    requires i < |parts| || i < |refs|
    ensures Zip(From(parts, i), From(refs, i)) ==
      (if i < |parts| then [Part(parts[i])] else []) +
      (if i < |refs| then [Ref(refs[i].id, refs[i].chain)] else []) +
      Zip(From(parts, i + 1), From(refs, i + 1))
  {
    if i < |parts| { assert From(parts, i)[1..] == From(parts, i + 1); } else { assert From(parts, i + 1) == []; }
    if i < |refs| { assert From(refs, i)[1..] == From(refs, i + 1); } else { assert From(refs, i + 1) == []; }
  }

  /** The block can be streamed: in a directory every file has to be the content its id names. */
  ghost predicate Streamable(env: Environment, s: Store, id: Id) {
    Whole(s, id) && (s[id].Dir? ==> Intact(env, s, Unfolding(s, id)))
  }

  lemma StreamsWhole(env: Environment, s: Store, id: Id)
    ensures Streamable(env, s, id) ==> Whole(s, id)
  {
  }

  lemma IntactStreams(env: Environment, s: Store, id: Id)
    requires Whole(s, id) && FilesIntact(env, s)
    ensures Streamable(env, s, id)
  {
    IntactFlow(env, s, Unfolding(s, id));
  }

  /** The bytes a block adds to the id: a directory is streamed, a file is read as it is. */
  method AbsorbBlock(env: Environment, s: Store, id: Id) returns (r: Result<bytes, BuildError>)
    ensures r.Ok? <==> Streamable(env, s, id)
    ensures r.Ok? ==> r.value == Expansion(s, id)
    ensures r.Err? ==> !Whole(s, id) || !FilesIntact(env, s)
    ensures r.Err? ==> if id in s then r.error.Unreadable? else r.error == NotInRegistry(id)
  {
    if Whole(s, id) && FilesIntact(env, s) { IntactStreams(env, s, id); }
    if id !in s {
      WholeIsStored(s, id);
      return Err(NotInRegistry(id));
    }
    match s[id] {
      case File(b) =>
        assert [Part(b)][1..] == [];
        assert Unfolds(s, id, Bytes(b, Nil));
        ExpansionIs(s, id, Bytes(b, Nil));
        assert Content(Bytes(b, Nil)) == b;
        var pieces := ReadFileByChunks(b);
        return Ok(Join(pieces));
      case Dir(es) =>
        var read := ReadDirectory(env, s, es, true, 1, {id});
        assert {} + {id} == {id};
        assert ReadBlock(env, s, id, true, 1, {}) == read;
        match read {
          case Ok(items) =>
            StreamedIsMeasured(env, s, id, true, 1);
            ghost var f := ReadBlockMeansWhole(env, s, id, true, 1, {});
            RealizesUnique(s, es, f, Unfolding(s, id));
            return Ok(ItemBytes(items));
          case Err(e) =>
            if Streamable(env, s, id) {
              var f := Unfolding(s, id);
              ApartNone(f);
              ReadsBlock(env, s, id, f, true, 1, {});
            }
            return Err(Unreadable(e));
        }
    }
  }

  /** `generate_id`: the hash of parts and blocks in turns. */
  method GenerateId(env: Environment, s: Store, buffers: seq<bytes>, refs: seq<Spot>) returns (r: Result<Id, BuildError>)
    ensures r.Ok? <==> forall spot <- refs :: Streamable(env, s, spot.id)
    ensures r.Ok? ==> r.value == env.hash(Fill(Zip(buffers, refs), Contents(s)))
    ensures r.Err? ==> !FilesIntact(env, s) || exists spot <- refs :: !Whole(s, spot.id)
    ensures r.Err? && (forall spot <- refs :: spot.id in s) ==> r.error.Unreadable?
  {
    hide Whole, Expansion, Zip, Fill, Contents, FilesIntact, From, Streamable;
    var absorbed: bytes := [];
    var i := 0;
    FromStart(buffers);
    FromStart(refs);
    ghost var all := Fill(Zip(buffers, refs), Contents(s));
    while i < |buffers| || i < |refs|
      invariant all == absorbed + Fill(Zip(From(buffers, i), From(refs, i)), Contents(s))
      invariant forall j | 0 <= j < |refs| && j < i :: Streamable(env, s, refs[j].id)
      decreases |buffers| + |refs| - i
    {
      ghost var before := absorbed;
      FillStep(buffers, refs, i, Contents(s));
      if i < |buffers| {
        absorbed := absorbed + buffers[i];
      }
      if i < |refs| {
        var block := AbsorbBlock(env, s, refs[i].id);
        match block {
          case Err(e) =>
            assert refs[i] in refs;
            return Err(e);
          case Ok(content) =>
            ContentsIs(s, refs[i].id);
            absorbed := absorbed + content;
        }
      }
      Turn(before, if i < |buffers| then buffers[i] else [], if i < |refs| then Contents(s)(refs[i].id) else [],
           Fill(Zip(From(buffers, i + 1), From(refs, i + 1)), Contents(s)));
      i := i + 1;
    }
    NoTurns(buffers, refs, i);
    FillOne([], Contents(s));
    assert absorbed + [] == absorbed;
    return Ok(env.hash(absorbed));
  }

  lemma FromStart<T>(xs: seq<T>)
    ensures From(xs, 0) == xs
  {
  }

  lemma Turn(before: bytes, part: bytes, block: bytes, rest: bytes)
    ensures before + ((part + block) + rest) == ((before + part) + block) + rest
    ensures before + [] == before
  {
  }

  lemma ContentsIs(s: Store, id: Id)
    ensures Contents(s)(id) == Expansion(s, id)
  {
  }

  lemma NoTurns(parts: seq<bytes>, refs: seq<Spot>, i: nat)
    requires i >= |parts| && i >= |refs|
    ensures Zip(From(parts, i), From(refs, i)) == []
  {
  }

  /** What the `i`th turn of parts and blocks contributes. */
  function TurnBytes(parts: seq<bytes>, refs: seq<Spot>, i: nat, content: Id -> bytes): bytes {
    (if i < |parts| then parts[i] else []) + (if i < |refs| then content(refs[i].id) else [])
  }

  lemma FillStep(parts: seq<bytes>, refs: seq<Spot>, i: nat, content: Id -> bytes)
    requires i < |parts| || i < |refs|
    ensures Fill(Zip(From(parts, i), From(refs, i)), content) ==
            TurnBytes(parts, refs, i, content) + Fill(Zip(From(parts, i + 1), From(refs, i + 1)), content)
  {
    hide Zip, Fill;
    var p: Directory := if i < |parts| then [Part(parts[i])] else [];
    var q: Directory := if i < |refs| then [Ref(refs[i].id, refs[i].chain)] else [];
    ZipStep(parts, refs, i);
    FillAppend(p + q, Zip(From(parts, i + 1), From(refs, i + 1)), content);
    FillAppend(p, q, content);
    FillOne(p, content);
    FillOne(q, content);
  }

  lemma FillOne(es: Directory, content: Id -> bytes)
    requires |es| <= 1
    ensures Fill(es, content) == if es == [] then [] else if es[0].Part? then es[0].content else content(es[0].id)
  {
    if es != [] { assert es[1..] == []; }
  }

  /** The loop that writes the part files and `_.json`; a block without a part before it is a TypeError. */
  method WriteDirectory(buffers: seq<bytes>, refs: seq<Spot>) returns (r: Option<Directory>)
    ensures r.Some? <==> |refs| <= |buffers|
    ensures r.Some? ==> r.value == Zip(buffers, refs)
  {
    hide Zip, From;
    var json: Directory := [];
    var i := 0;
    FromStart(buffers);
    FromStart(refs);
    while i < |buffers| || i < |refs|
      invariant i <= |buffers|
      invariant Zip(buffers, refs) == json + Zip(From(buffers, i), From(refs, i))
      decreases |buffers| + |refs| - i
    {
      if i >= |buffers| {
        return None;
      }
      ZipStep(buffers, refs, i);
      TurnEntries(json, [Part(buffers[i])], if i < |refs| then [Ref(refs[i].id, refs[i].chain)] else [],
                  Zip(From(buffers, i + 1), From(refs, i + 1)));
      json := json + [Part(buffers[i])];
      if i < |refs| {
        json := json + [Ref(refs[i].id, refs[i].chain)];
      }
      i := i + 1;
    }
    NoTurns(buffers, refs, i);
    assert json + [] == json;
    return Some(json);
  }

  lemma TurnEntries(before: Directory, part: Directory, ref: Directory, rest: Directory)
    ensures before + (part + ref + rest) == ((before + part) + ref) + rest
    ensures before + part + [] == before + part
  {
  }

  // ------------------------------------------------------------------- the builder

  /** The object's id, its directory, and its pointer form (`wbp.bin`). */
  datatype Built = Built(objectId: Id, directory: Directory, pointerForm: bytes)

  function ContextOf(env: Environment, blocks: seq<Id>, inherited: seq<bytes>): Context {
    Context(env.hashType, inherited, set id <- blocks)
  }

  /** The message with the contents of the blocks it points at. */
  ghost function Expanded(env: Environment, s: Store, m: Message, blocks: seq<Id>, inherited: seq<bytes>): Doc {
    Flip(DocOf(m, ContextOf(env, blocks, inherited), Contents(s)))
  }

  /** Some chain of the message leads to the block. */
  ghost predicate PointedAt(d: Doc, id: Id) {
    exists chain :: IsSpot(d, 0, chain, id)
  }

  lemma PointedAtIds(d: Doc, id: Id)
    ensures PointedAt(d, id) <==> id in HoleIds(d)
  {
    SpotIds(d, [], 0);
    if id in HoleIds(d) {
      var spot :| spot in Spots(d, [], 0) && spot.id == id;
      SpotsSound(d, [], 0, spot);
      assert spot.chain[0..] == spot.chain;
    }
    forall chain | IsSpot(d, 0, chain, id) ensures id in HoleIds(d) { SpotIsHole(d, 0, chain, id); }
  }

  lemma SpotIsHole(d: Doc, pos: nat, chain: seq<nat>, id: Id)
    requires IsSpot(d, pos, chain, id)
    ensures id in HoleIds(d)
  {
    SpotsComplete(d, [], pos, chain, id);
    SpotIds(d, [], pos);
    var spot := Spot(id, [] + chain);
    assert spot in Spots(d, [], pos) && spot.id in IdsOf(Spots(d, [], pos));
  }

  /**
    `assert_container_covers_blocks`: of the blocks the caller lists, those to which no chain
    of the message leads. `d` is the message whose pointers were gathered.
    */
  method CheckCovers(container: Container, blocks: seq<Id>, ghost d: Doc) returns (missing: set<Id>)
    ensures container == AddAll(map[], Spots(d, [], 0)) ==>
      && (forall id :: id in missing <==> id in blocks && !PointedAt(d, id))
      && (missing == {} <==> forall id <- blocks :: PointedAt(d, id))
  {
    hide PointedAt;
    missing := (set id <- blocks) - container.Keys;
    if container == AddAll(map[], Spots(d, [], 0)) {
      GatheredIsDocument(d, 0);
      forall id ensures id in missing <==> id in blocks && !PointedAt(d, id) { PointedAtIds(d, id); }
      if !forall id <- blocks :: PointedAt(d, id) {
        var id :| id in blocks && !PointedAt(d, id);
        assert id in missing;
      }
    }
  }

  lemma NoneMissing(d: Doc, blocks: seq<Id>)
    requires HoleIds(d) <= (set id <- blocks)
    ensures (forall id <- blocks :: PointedAt(d, id)) <==> HoleIds(d) == (set id <- blocks)
  {
    hide PointedAt;
    forall id ensures PointedAt(d, id) <==> id in HoleIds(d) { PointedAtIds(d, id); }
    assert forall id :: id in blocks <==> id in (set x <- blocks);
  }

  /** The rest of `build_multiblock`, once the lengths are known: parts, references, id. */
  method WriteMultiblock(env: Environment, s: Store, m: Message, ctx: Context, buffer: bytes, realLengths: map<nat, Length>)
    returns (r: Result<Built, BuildError>)
    requires var d := DocOf(m, ctx, Contents(s));
      buffer == Text(d) && realLengths == Lengths(d, 0) && AllWhole(s, HoleIds(d)) && Holds(Flip(d), Contents(s))
    ensures var d := DocOf(m, ctx, Contents(s));
      && (r.Ok? <==> forall id <- HoleIds(d) :: Streamable(env, s, id))
      && (r.Ok? ==> r.value == Built(env.hash(Text(Flip(d))), DirectoryOf(Flip(d)), buffer))
      && (r.Err? ==> !FilesIntact(env, s) && r.error.Unreadable?)
  {
    hide Encode, Whole, FilesIntact, Streamable, Expansion, Text, Flip, Lengths, TreeOf, Spots, Zip, Fill, DocOf, Holds,
        HoleIds, Alternates, Refs, Parts, Lay, DirectoryOf, LengthList, Realizes, Selected;
    ghost var d := DocOf(m, ctx, Contents(s));
    FlipIds(d);
    var sorted := SortByPosition(realLengths);
    SortedIsPreorder(d, 0, sorted);
    var newBuff := GenerateBuffer(buffer, sorted);
    PartsWritten(d);

    var realSearch := new RealSearch(ctx, s, realLengths);
    LengthBounds(d, 0);
    var failure := realSearch.SearchOnMessageReal(m, [], 0, 0);
    match failure {
      case Some(e) => return Err(e);
      case None =>
    }
    var refs := realSearch.container;
    DirectoryRefs(Flip(d));
    DirectoryAlternates(Flip(d));
    ZipInverts(DirectoryOf(Flip(d)));
    assert refs == Spots(Flip(d), [], 0);
    DirectoryExpands(Flip(d), Contents(s));
    SpotIds(Flip(d), [], 0);
    assert forall spot <- refs :: spot.id in HoleIds(d);
    forall spot | spot in refs ensures spot.id in s { WholeIsStored(s, spot.id); }
    assert forall id <- HoleIds(d) :: exists spot <- refs :: spot.id == id;

    var objectId := GenerateId(env, s, newBuff, refs);
    if objectId.Err? {
      return Err(objectId.error);
    }
    var directory := WriteDirectory(newBuff, refs);
    return Ok(Built(objectId.value, directory.value, buffer));
  }

  /**
    `build_multiblock`. It fails on a block the message does not point at, a block that
    cannot be measured, or one with a file inside that is not what its id names, and on
    nothing else.
    */
  method BuildMultiblock(env: Environment, s: Store, m: Message, blocks: seq<Id>, inherited: seq<bytes>)
    returns (r: Result<Built, BuildError>)
    ensures var e := Expanded(env, s, m, blocks, inherited);
      && (r.Ok? ==>
            && HoleIds(e) == (set id <- blocks) && AllWhole(s, HoleIds(e))
            && r.value.directory == DirectoryOf(e)
            && r.value.objectId == env.hash(Text(e))
            && r.value.pointerForm == Serialize(m)
            && Ids(Refs(r.value.directory)) == Targets(m, ContextOf(env, blocks, inherited)))
      && (r.Err? ==> HoleIds(e) != (set id <- blocks) || !AllWhole(s, HoleIds(e)) || !FilesIntact(env, s))
    ensures var ctx := ContextOf(env, blocks, inherited);
      && (r.Ok? ==> forall id <- blocks :: id in Targets(m, ctx) && Whole(s, id))
      && (!(forall id <- blocks :: id in Targets(m, ctx)) ==>
            r.Err? && r.error.Inconsistent? && forall id :: id in r.error.missing <==> id in blocks && id !in Targets(m, ctx))
      && (r.Ok? <==> forall id <- blocks :: id in Targets(m, ctx) && Streamable(env, s, id))
      && ((forall id <- blocks :: id in Targets(m, ctx)) && r.Err? ==>
            if forall id <- blocks :: Whole(s, id) then r.error.Unreadable? else CannotMeasure(s, r.error))
  {
    hide Encode, Whole, FilesIntact, Streamable, Expansion, Text, Flip, Lengths, TreeOf, Spots, Zip, Fill, DocOf, Holds,
        HoleIds, Serialize,
        PointerSizes, Alternates, Refs, Parts, Lay, PointedAt, Targets, Ids, DirectoryOf, LengthList, AddAll, Realizes, Selected;
    var ctx := ContextOf(env, blocks, inherited);
    ghost var d := DocOf(m, ctx, Contents(s));
    DocHolds(m, ctx, Contents(s));
    DocText(m, ctx, Contents(s));
    FlipIds(d);
    TargetsListed(env, s, m, blocks, inherited);
    forall id ensures Streamable(env, s, id) ==> Whole(s, id) { StreamsWhole(env, s, id); }

    var search := new Search(ctx);
    search.SearchOnMessage(m, [], 0, Contents(s));
    GatheredIsDocument(d, 0);
    MapSwap(PointerSizes(d, 0), map[]);
    var missing := CheckCovers(search.container, blocks, d);
    NoneMissing(d, blocks);
    if missing != {} {
      return Err(Inconsistent(missing));
    }

    var tree := CreateLengthsTree(search.container);
    TreeOfContainer(d, 0, search.container);
    if tree.None? {
      return Err(NotATree);
    }
    var buffer := Serialize(m);
    SizesMeasured(d, 0);
    WholeText(buffer);
    var measured := TraverseTree(s, tree.value, buffer, |buffer|, search.pointerLengths, d, 0);
    if measured.Err? {
      return Err(measured.error);
    }
    r := WriteMultiblock(env, s, m, ctx, buffer, measured.value.1);
  }

  /** Which blocks the builder finds, said of the message. */
  lemma TargetsListed(env: Environment, s: Store, m: Message, blocks: seq<Id>, inherited: seq<bytes>)
    ensures var e, targets := Expanded(env, s, m, blocks, inherited), Targets(m, ContextOf(env, blocks, inherited));
      && Ids(Refs(DirectoryOf(e))) == targets
      && (forall id :: PointedAt(DocOf(m, ContextOf(env, blocks, inherited), Contents(s)), id) <==> id in targets)
      && (HoleIds(e) == (set id <- blocks) && AllWhole(s, HoleIds(e)) <==>
            forall id <- blocks :: id in targets && Whole(s, id))
  {
    hide Encode, Whole, Text, Flip, Spots, DocOf, HoleIds, Targets, DirectoryOf, Refs, PointedAt;
    var ctx := ContextOf(env, blocks, inherited);
    var d := DocOf(m, ctx, Contents(s));
    FoundInOrder(m, ctx, Contents(s), [], 0);
    FlipFound(d, [], 0, [], 0);
    DirectoryRefs(Flip(d));
    DocHolds(m, ctx, Contents(s));
    FlipIds(d);
    var listed := set id <- blocks;
    assert forall id :: id in listed <==> id in blocks;
    assert forall id :: id in HoleIds(d) <==> id in Targets(m, ctx);
    forall id ensures PointedAt(d, id) <==> id in HoleIds(d) { PointedAtIds(d, id); }
    if forall id <- blocks :: id in Targets(m, ctx) && Whole(s, id) {
      forall id | id in listed ensures id in HoleIds(d) {}
      assert HoleIds(d) == listed;
    }
  }

  lemma WholeText(b: bytes)
    ensures At(b, 0, b)
  {
  }

  lemma {:induction false} FlipIds(d: Doc)
    ensures HoleIds(Flip(d)) == HoleIds(d)
  {
    match d
    case End =>
    case Raw(_, r) => FlipIds(r);
    case Hole(_, _, _, _, r) => FlipIds(r);
    case Sub(_, i, r) => FlipIds(i); FlipIds(r);
  }

  lemma SizesMeasured(d: Doc, pos: nat)
    ensures Measured(PointerSizes(d, pos), Lengths(d, pos))
  {
    forall k | k in Lengths(d, pos) && Lengths(d, pos)[k].leaf
      ensures k in PointerSizes(d, pos) && PointerSizes(d, pos)[k] == Lengths(d, pos)[k].here
    {
      SizeMeasured(d, pos, k);
    }
  }

  lemma {:induction false} SizeMeasured(d: Doc, pos: nat, k: nat)
    ensures k in PointerSizes(d, pos) <==> k in Lengths(d, pos) && Lengths(d, pos)[k].leaf
    ensures k in PointerSizes(d, pos) ==> PointerSizes(d, pos)[k] == Lengths(d, pos)[k].here
  {
    hide Encode, Text, Lengths;
    if !d.End? {
      var next := pos + |First(d)|;
      LengthsStep(d, pos);
      SizeMeasured(d.rest, next, k);
      FirstSizes(d, pos, k);
      if d.Sub? { SizeMeasured(d.inner, Inside(d.inner, pos), k); }
    } else {
      NoLength(pos);
    }
  }

  lemma FirstSizes(d: Doc, pos: nat, k: nat)
    requires !d.End?
    ensures var more := PointerSizes(d.rest, pos + |First(d)|);
      PointerSizes(d, pos) ==
      (match d
       case Raw(_, _) => map[]
       case Hole(_, _, h, _, _) => map[pos + 1 := |h|]
       case Sub(_, i, _) => PointerSizes(i, Inside(i, pos))) + more
  {
    hide Encode, Text;
    assert map[] + PointerSizes(d.rest, pos + |First(d)|) == PointerSizes(d.rest, pos + |First(d)|);
  }

  // ------------------------------------------------------------- what was built

  /**
    Expansion preserves meaning: a built object's directory streams exactly the message
    with every selected pointer replaced by its block's content, and its id is that
    stream's hash.
    */
  lemma BuiltExpands(env: Environment, s: Store, m: Message, blocks: seq<Id>, inherited: seq<bytes>)
    requires var e := Expanded(env, s, m, blocks, inherited); AllWhole(s, HoleIds(e))
    ensures var e := Expanded(env, s, m, blocks, inherited);
      && Fill(DirectoryOf(e), Contents(s)) == Serialize(Inlined(m, ContextOf(env, blocks, inherited), Contents(s)))
      && Text(e) == Fill(DirectoryOf(e), Contents(s))
      && Alternates(DirectoryOf(e))
      && Covered(s, DirectoryOf(e))
  {
    var ctx := ContextOf(env, blocks, inherited);
    var e := Expanded(env, s, m, blocks, inherited);
    DocHolds(m, ctx, Contents(s));
    DirectoryExpands(e, Contents(s));
    FlipIsInlined(m, ctx, Contents(s));
    DirectoryAlternates(e);
    forall r | r in DirectoryOf(e) && r.Ref?
      ensures Whole(s, r.id)
    {
      var j :| 0 <= j < |DirectoryOf(e)| && DirectoryOf(e)[j] == r;
      RefListed(DirectoryOf(e), j);
      DirectoryRefs(e);
      SpotIds(e, [], 0);
      assert Spot(r.id, r.chain).id in IdsOf(Spots(e, [], 0));
    }
  }

  /** Only which blocks the caller lists matters: neither their order nor how often. */
  lemma BlockListIsASet(env: Environment, s: Store, m: Message, blocks: seq<Id>, blocks': seq<Id>, inherited: seq<bytes>)
    requires forall id :: id in blocks <==> id in blocks'
    ensures Expanded(env, s, m, blocks, inherited) == Expanded(env, s, m, blocks', inherited)
  {
    assert (set id <- blocks) == (set id <- blocks');
  }

  /**
    Nor does it matter how pointers are written: the same object with its hash types
    inherited from one context or another, or spelled out, builds the same.
    */
  lemma PointerEncodingIsInvisible(env: Environment, s: Store, m: Message, n: Message, blocks: seq<Id>,
                                   inherited: seq<bytes>, inherited': seq<bytes>)
    requires SameButForPointers(m, ContextOf(env, blocks, inherited), n, ContextOf(env, blocks, inherited'))
    ensures var e, e' := Expanded(env, s, m, blocks, inherited), Expanded(env, s, n, blocks, inherited');
      DirectoryOf(e) == DirectoryOf(e') && env.hash(Text(e)) == env.hash(Text(e')) && HoleIds(e) == HoleIds(e')
  {
    ExpansionForgetsPointers(m, ContextOf(env, blocks, inherited), n, ContextOf(env, blocks, inherited'), Contents(s));
  }

  /**
    In particular: an object whose pointers inherit their types from one context, and the
    same with these types written out in any other, build the same; and so does the same
    with the library's own pointers, omitted types and all.
    */
  lemma ContextIsInvisible(env: Environment, s: Store, m: Message, blocks: seq<Id>, inherited: seq<bytes>,
                           inherited': seq<bytes>, omitTypes: bool)
    requires StaysUnselected(m, ContextOf(env, blocks, inherited), ContextOf(env, blocks, inherited'))
    requires env.hashType != [] && (omitTypes ==> |inherited'| > 0 && inherited'[0] == env.hashType)
    ensures var ctx := ContextOf(env, blocks, inherited);
      var e := Expanded(env, s, m, blocks, inherited);
      forall n <- [SpellOutSelected(m, ctx), RewriteSelected(m, ctx, omitTypes)] ::
        var e' := Expanded(env, s, n, blocks, inherited');
        DirectoryOf(e) == DirectoryOf(e') && env.hash(Text(e)) == env.hash(Text(e')) && HoleIds(e) == HoleIds(e')
  {
    hide Expanded, DirectoryOf, Text, HoleIds;
    var ctx, ctx' := ContextOf(env, blocks, inherited), ContextOf(env, blocks, inherited');
    SpelledOutIsSame(m, ctx, ctx');
    RewrittenIsSame(m, ctx, ctx', omitTypes);
    PointerEncodingIsInvisible(env, s, m, SpellOutSelected(m, ctx), blocks, inherited, inherited');
    PointerEncodingIsInvisible(env, s, m, RewriteSelected(m, ctx, omitTypes), blocks, inherited, inherited');
  }
}
