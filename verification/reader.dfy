/** Streaming stored objects: chunks of bytes, and markers around framed blocks. */
module Reader {
  import opened Bytes
  import opened Documents
  import opened Layouts
  import opened Stores

  /**
    `Enviroment`: the hash blocks are addressed by, its type, and how many levels of
    blocks this node frames when it sends.
    */
  datatype Environment = Environment(hash: bytes -> Id, hashType: bytes, blockDepth: nat)

  const CHUNK_SIZE := 1024 * 1024

  /** What a stream yields: bytes, or the marker that opens or closes a block. */
  datatype Item = Piece(data: bytes) | Marker(id: Id, chain: seq<nat>)

  datatype ReadError = NotFound(id: Id) | Corrupt(id: Id) | Recursion(id: Id)

  /** A file, in chunks. */
  function Chunks(file: bytes): (r: seq<bytes>)
    ensures Join(r) == file
    decreases |file|
  {
    if file == [] then []
    else if |file| <= CHUNK_SIZE then assert [file][1..] == []; [file]
    else [file[..CHUNK_SIZE]] + Chunks(file[CHUNK_SIZE..])
  }

  /** `read_file_by_chunks`: every read asks for a full chunk until one comes back empty. */
  method ReadFileByChunks(file: bytes) returns (pieces: seq<bytes>)
    ensures pieces == Chunks(file)
    ensures Join(pieces) == file
    ensures forall p <- pieces :: 0 < |p| <= CHUNK_SIZE
    ensures forall i | 0 <= i < |pieces| - 1 :: |pieces[i]| == 0x10_0000
  {
    hide Chunks, Join;
    pieces := [];
    var at := 0;
    WholeFile(file);
    while true
      invariant 0 <= at <= |file|
      invariant pieces + Chunks(file[at..]) == Chunks(file)
      invariant forall p <- pieces :: 0 < |p| <= CHUNK_SIZE
      invariant forall i | 0 <= i < |pieces| :: at < |file| || i < |pieces| - 1 ==> |pieces[i]| == 0x10_0000
      decreases |file| - at
    {
      var end := if |file| - at < CHUNK_SIZE then |file| else at + CHUNK_SIZE;
      var piece := file[at..end];
      if piece == [] {
        NoChunks(file);
        assert pieces + [] == pieces;
        break;
      }
      NextChunk(file, at, end);
      OnePiece(pieces, piece, Chunks(file[end..]));
      pieces := pieces + [piece];
      at := end;
    }
  }

  lemma WholeFile(file: bytes)
    ensures [] + Chunks(file[0..]) == Chunks(file)
  {
    assert file[0..] == file;
  }

  lemma OnePiece(pieces: seq<bytes>, piece: bytes, rest: seq<bytes>)
    ensures pieces + ([piece] + rest) == (pieces + [piece]) + rest
  {
  }

  lemma NoChunks(file: bytes)
    ensures Chunks(file[|file|..]) == []
  {
  }

  lemma NextChunk(file: bytes, at: nat, end: nat)
    requires at < |file| && end == if |file| - at < CHUNK_SIZE then |file| else at + CHUNK_SIZE
    ensures Chunks(file[at..]) == [file[at..end]] + Chunks(file[end..])
  {
    if |file| - at <= CHUNK_SIZE {
      assert file[at..] == file[at..end] && file[end..] == [];
    } else {
      assert file[at..][..CHUNK_SIZE] == file[at..end];
      assert file[at..][CHUNK_SIZE..] == file[end..];
    }
  }

  function Pieces(data: seq<bytes>): seq<Item> {
    if data == [] then [] else [Piece(data[0])] + Pieces(data[1..])
  }

  /**
    `read_multiblock_directory`. `seen` is the stack of blocks being read; the library
    keeps none, and ends in a RecursionError where this one reports the block.
    */
  function ReadDirectory(env: Environment, s: Store, es: Directory, ignoreBlocks: bool, depth: nat, seen: set<Id>)
    : Result<seq<Item>, ReadError>
    decreases s.Keys - seen, 1, |es|
  {
    if es == [] then Ok([])
    else
      match ReadEntry(env, s, es[0], ignoreBlocks, depth, seen)
      case Err(e) => Err(e)
      case Ok(head) =>
        match ReadDirectory(env, s, es[1..], ignoreBlocks, depth, seen)
        case Err(e) => Err(e)
        case Ok(tail) => Ok(head + tail)
  }

  function ReadEntry(env: Environment, s: Store, e: Entry, ignoreBlocks: bool, depth: nat, seen: set<Id>)
    : Result<seq<Item>, ReadError>
    decreases s.Keys - seen, 1, 0
  {
    match e
    case Part(b) => Ok(Pieces(Chunks(b)))
    case Ref(id, chain) =>
      if ignoreBlocks then ReadBlock(env, s, id, ignoreBlocks, 1, seen)
      else
        match ReadBlock(env, s, id, !(depth < env.blockDepth), depth + 1, seen)
        case Err(error) => Err(error)
        case Ok(body) => Ok([Marker(id, chain)] + body + [Marker(id, chain)])
  }

  /** `read_block`: a single file is checked against its id before any byte leaves. */
  function ReadBlock(env: Environment, s: Store, id: Id, ignoreBlocks: bool, depth: nat, seen: set<Id>)
    : Result<seq<Item>, ReadError>
    decreases s.Keys - seen, 0, 0
  {
    if id !in s then Err(NotFound(id))
    else
      match s[id]
      case File(b) => if env.hash(b) == id then Ok(Pieces(Chunks(b))) else Err(Corrupt(id))
      case Dir(es) =>
        if id in seen then Err(Recursion(id))
        else ReadDirectory(env, s, es, ignoreBlocks, depth, seen + {id})
  }

  // ---------------------------------------------------------------- framed flows

  function ChunkFlow(data: seq<bytes>, rest: Flow): Flow {
    if data == [] then rest else Bytes(data[0], ChunkFlow(data[1..], rest))
  }

  /** The stream of an unfolded directory with no block framed. */
  function Flat(f: Flow): Flow {
    match f
    case Nil => Nil
    case Bytes(b, r) => ChunkFlow(Chunks(b), Flat(r))
    case Block(_, _, body, r) => Concat(Flat(body), Flat(r))
  }

  /** The same stream with blocks framed `limit` levels deep. */
  function Frame(f: Flow, depth: nat, limit: nat): Flow {
    match f
    case Nil => Nil
    case Bytes(b, r) => ChunkFlow(Chunks(b), Frame(r, depth, limit))
    case Block(id, c, body, r) =>
      Block(id, c, if depth < limit then Frame(body, depth + 1, limit) else Flat(body), Frame(r, depth, limit))
  }

  /** A flow as it is yielded: a block between two copies of its marker. */
  function Items(f: Flow): seq<Item> {
    match f
    case Nil => []
    case Bytes(b, r) => [Piece(b)] + Items(r)
    case Block(id, c, body, r) => [Marker(id, c)] + Items(body) + [Marker(id, c)] + Items(r)
  }

  lemma {:induction false} ItemsConcat(f: Flow, g: Flow)
    ensures Items(Concat(f, g)) == Items(f) + Items(g)
  {
    match f
    case Nil =>
    case Bytes(b, r) => ItemsConcat(r, g);
    case Block(id, c, body, r) =>
      ItemsConcat(r, g);
      var head := [Marker(id, c)] + Items(body) + [Marker(id, c)];
      assert head + (Items(r) + Items(g)) == (head + Items(r)) + Items(g);
  }

  lemma {:induction false} ChunkFlowItems(data: seq<bytes>, rest: Flow)
    ensures Items(ChunkFlow(data, rest)) == Pieces(data) + Items(rest)
    ensures Content(ChunkFlow(data, rest)) == Join(data) + Content(rest)
  {
    if data != [] {
      ChunkFlowItems(data[1..], rest);
    }
  }

  /** Chunking and framing change no byte. */
  lemma {:induction false} FlatContent(f: Flow)
    ensures Content(Flat(f)) == Content(f)
  {
    match f
    case Nil =>
    case Bytes(b, r) =>
      FlatContent(r);
      ChunkFlowItems(Chunks(b), Flat(r));
    case Block(_, _, body, r) =>
      FlatContent(body);
      FlatContent(r);
      ContentConcat(Flat(body), Flat(r));
  }

  lemma {:induction false} FrameContent(f: Flow, depth: nat, limit: nat)
    ensures Content(Frame(f, depth, limit)) == Content(f)
  {
    match f
    case Nil =>
    case Bytes(b, r) =>
      FrameContent(r, depth, limit);
      ChunkFlowItems(Chunks(b), Frame(r, depth, limit));
    case Block(_, _, body, r) =>
      FrameContent(body, depth + 1, limit);
      FlatContent(body);
      FrameContent(r, depth, limit);
  }

  /** Every single-file block in the unfolding is the content its id names. */
  predicate Intact(env: Environment, s: Store, f: Flow) {
    match f
    case Nil => true
    case Bytes(_, r) => Intact(env, s, r)
    case Block(id, _, body, r) =>
      && (id in s && s[id].File? ==> env.hash(s[id].content) == id)
      && Intact(env, s, body) && Intact(env, s, r)
  }

  /** No block in the unfolding is among those being read around it. */
  ghost predicate Apart(f: Flow, seen: set<Id>) {
    match f
    case Nil => true
    case Bytes(_, r) => Apart(r, seen)
    case Block(id, _, body, r) => id !in seen && Apart(body, seen) && Apart(r, seen)
  }

  lemma {:induction false} ApartBySize(s: Store, es: Directory, f: Flow, id: Id, body: Flow, seen: set<Id>)
    requires Realizes(s, es, f) && Unfolds(s, id, body) && Size(f) <= Size(body)
    requires Apart(f, seen)
    ensures Apart(f, seen + {id})
    decreases f
  {
    match f
    case Nil =>
    case Bytes(_, r) => ApartBySize(s, es[1..], r, id, body, seen);
    case Block(bid, _, inner, r) =>
      ApartBySize(s, EntriesOf(s[bid]), inner, id, body, seen);
      ApartBySize(s, es[1..], r, id, body, seen);
      if bid == id { RealizesUnique(s, EntriesOf(s[id]), inner, body); }
  }

  /** Reading a whole, intact directory streams its unfolding. */
  lemma {:induction false} ReadsDirectory(env: Environment, s: Store, es: Directory, f: Flow, ignoreBlocks: bool,
                                          depth: nat, seen: set<Id>)
    requires Realizes(s, es, f) && Intact(env, s, f) && Apart(f, seen)
    ensures ReadDirectory(env, s, es, ignoreBlocks, depth, seen) ==
            Ok(Items(if ignoreBlocks then Flat(f) else Frame(f, depth, env.blockDepth)))
    decreases f, 0
  {
    match f
    case Nil =>
    case Bytes(b, r) =>
      ReadsDirectory(env, s, es[1..], r, ignoreBlocks, depth, seen);
      ChunkFlowItems(Chunks(b), if ignoreBlocks then Flat(r) else Frame(r, depth, env.blockDepth));
    case Block(id, c, body, r) =>
      ReadsDirectory(env, s, es[1..], r, ignoreBlocks, depth, seen);
      if ignoreBlocks {
        ReadsBlock(env, s, id, body, true, 1, seen);
        ItemsConcat(Flat(body), Flat(r));
      } else {
        ReadsBlock(env, s, id, body, !(depth < env.blockDepth), depth + 1, seen);
      }
  }

  lemma {:induction false} ReadsBlock(env: Environment, s: Store, id: Id, body: Flow, ignoreBlocks: bool, depth: nat,
                                      seen: set<Id>)
    requires Unfolds(s, id, body) && Intact(env, s, body) && Apart(body, seen) && id !in seen
    requires s[id].File? ==> env.hash(s[id].content) == id
    ensures ReadBlock(env, s, id, ignoreBlocks, depth, seen) ==
            Ok(Items(if ignoreBlocks then Flat(body) else Frame(body, depth, env.blockDepth)))
    decreases body, 1
  {
    match s[id]
    case File(b) =>
      assert [Part(b)][1..] == [];
      RealizesUnique(s, [Part(b)], body, Bytes(b, Nil));
      ChunkFlowItems(Chunks(b), Nil);
      assert Flat(Nil) == Frame(Nil, depth, env.blockDepth) == Nil;
      assert Pieces(Chunks(b)) + Items(Nil) == Pieces(Chunks(b));
    case Dir(es) =>
      ApartBySize(s, es, body, id, body, seen);
      ReadsDirectory(env, s, es, body, ignoreBlocks, depth, seen + {id});
  }

  // --------------------------------------------------- what was read was stored

  function ItemBytes(items: seq<Item>): bytes {
    if items == [] then [] else (if items[0].Piece? then items[0].data else []) + ItemBytes(items[1..])
  }

  lemma {:induction false} ItemBytesAppend(a: seq<Item>, b: seq<Item>)
    ensures ItemBytes(a + b) == ItemBytes(a) + ItemBytes(b)
  {
    if a == [] {
      assert a + b == b;
    } else {
      assert (a + b)[1..] == a[1..] + b;
      ItemBytesAppend(a[1..], b);
    }
  }

  lemma {:induction false} ItemBytesOf(f: Flow)
    ensures ItemBytes(Items(f)) == Content(f)
  {
    match f
    case Nil =>
    case Bytes(b, r) => ItemBytesOf(r);
    case Block(id, c, body, r) =>
      ItemBytesOf(body);
      ItemBytesOf(r);
      var m := [Marker(id, c)];
      assert m[1..] == [] && ItemBytes(m) == [];
      ItemBytesAppend(m + Items(body) + m, Items(r));
      ItemBytesAppend(m + Items(body), m);
      ItemBytesAppend(m, Items(body));
  }

  /** A read that succeeds met neither a gap nor a cycle. */
  lemma {:induction false} ReadMeansWhole(env: Environment, s: Store, es: Directory, ignoreBlocks: bool, depth: nat,
                                          seen: set<Id>)
    returns (f: Flow)
    requires ReadDirectory(env, s, es, ignoreBlocks, depth, seen).Ok?
    ensures Realizes(s, es, f) && Intact(env, s, f)
    decreases s.Keys - seen, 1, |es|
  {
    if es == [] {
      f := Nil;
    } else {
      var r := ReadMeansWhole(env, s, es[1..], ignoreBlocks, depth, seen);
      match es[0]
      case Part(b) => f := Bytes(b, r);
      case Ref(id, c) =>
        var body;
        if ignoreBlocks {
          body := ReadBlockMeansWhole(env, s, id, true, 1, seen);
        } else {
          body := ReadBlockMeansWhole(env, s, id, !(depth < env.blockDepth), depth + 1, seen);
        }
        f := Block(id, c, body, r);
    }
  }

  lemma {:induction false} ReadBlockMeansWhole(env: Environment, s: Store, id: Id, ignoreBlocks: bool, depth: nat,
                                               seen: set<Id>)
    returns (body: Flow)
    requires ReadBlock(env, s, id, ignoreBlocks, depth, seen).Ok?
    ensures Unfolds(s, id, body) && Intact(env, s, body)
    ensures s[id].File? ==> env.hash(s[id].content) == id
    decreases s.Keys - seen, 0, 0
  {
    match s[id]
    case File(b) =>
      assert [Part(b)][1..] == [];
      body := Bytes(b, Nil);
    case Dir(es) => body := ReadMeansWhole(env, s, es, ignoreBlocks, depth, seen + {id});
  }

  /**
    Measured length is streamed length: a read that succeeds, at any framing depth, emits
    the block's expansion, whose length is what the measuring method returns.
    */
  lemma StreamedIsMeasured(env: Environment, s: Store, id: Id, ignoreBlocks: bool, depth: nat)
    requires ReadBlock(env, s, id, ignoreBlocks, depth, {}).Ok?
    ensures Whole(s, id)
    ensures ItemBytes(ReadBlock(env, s, id, ignoreBlocks, depth, {}).value) == Expansion(s, id)
  {
    var body := ReadBlockMeansWhole(env, s, id, ignoreBlocks, depth, {});
    ApartNone(body);
    ReadsBlock(env, s, id, body, ignoreBlocks, depth, {});
    ExpansionIs(s, id, body);
    ItemBytesOf(if ignoreBlocks then Flat(body) else Frame(body, depth, env.blockDepth));
    FlatContent(body);
    FrameContent(body, depth, env.blockDepth);
  }

  lemma {:induction false} ApartNone(f: Flow)
    ensures Apart(f, {})
  {
    match f
    case Nil =>
    case Bytes(_, r) => ApartNone(r);
    case Block(_, _, body, r) => ApartNone(body); ApartNone(r);
  }
}
