/**
  The receiving side as a machine that takes one buffer at a time.

  The library's receiver is a chain of generators: `parser_iterator` calls itself at every
  block start, sharing one stack of open blocks; each block being saved reads through a
  `stop_generator` of its own; a block already held is drained. The machine's state is
  what those generators and their consumers hold between two buffers.
  */
module Receiver {
  import opened Bytes
  import opened Documents
  import opened Layouts
  import opened Stores
  import opened Reader

  /** A received buffer: any of its fields may be set. */
  datatype Buffer = Buffer(block: Option<Spot>, chunk: Option<bytes>, head: bool, separator: bool)

  const HEAD := Buffer(None, None, true, false)

  const SEPARATOR := Buffer(None, None, false, true)

  /** The buffer that carries an item and nothing else. */
  function Carry(item: Item): Buffer {
    match item
    case Piece(b) => Buffer(None, Some(b), false, false)
    case Marker(id, chain) => Buffer(Some(Spot(id, chain)), None, false, false)
  }

  const MAX_BLOCK_NESTING := 32

  /** A block being saved: its entries, and what its hasher has absorbed. */
  datatype Open = Open(id: Id, writer: Writer, absorbed: bytes)

  datatype Failure =
    | IntersectionError
    | NestedTooDeep
    | BlockIdMismatch(id: Id)
    | NoPointerForm(block: Option<Id>)
    | UnreadableBlock(reading: ReadError)

  datatype Status = Running | Finished | Failed(failure: Failure)

  /**
    The receiving host: its environment, and which directories `generate_wbp_file` writes the
    pointer form of there, with hash types omitted or spelled out.
    */
  datatype Host = Host(env: Environment, accepts: (Store, Directory, bool) -> bool)

  /**
    `levels` is how many `parser_iterator`s are active (none: the iterator is exhausted),
    `blocks` their shared stack, `saving` the blocks being saved, outermost first,
    `draining` the block being skipped over, and `top` the object itself. `outer` is what
    the outermost iterator still has to look at in the buffer that opened a block.
    */
  datatype State = State(
    store: Store,
    asked: seq<Id>,
    levels: nat,
    blocks: seq<Id>,
    saving: seq<Open>,
    draining: Option<Id>,
    top: Writer,
    outer: Option<Buffer>,
    status: Status)

  function Init(store: Store, asked: seq<Id>): State {
    State(store, asked, 1, [], [], None, EMPTY, None, Running)
  }

  function Fail(st: State, failure: Failure): State {
    st.(status := Failed(failure))
  }

  // ---------------------------------------------------------------- the consumers

  /** Every open block's hasher takes the bytes. */
  function Absorb(saving: seq<Open>, b: bytes): (r: seq<Open>)
    ensures |r| == |saving|
    ensures forall i | 0 <= i < |saving| :: r[i] == saving[i].(absorbed := saving[i].absorbed + b)
  {
    seq(|saving|, i requires 0 <= i < |saving| => saving[i].(absorbed := saving[i].absorbed + b))
  }

  /** The writer of the innermost block being saved, or of the object. */
  function Current(st: State): Writer {
    if st.saving == [] then st.top else st.saving[|st.saving| - 1].writer
  }

  function SetCurrent(st: State, w: Writer): State {
    if st.saving == [] then st.(top := w)
    else st.(saving := st.saving[|st.saving| - 1 := st.saving[|st.saving| - 1].(writer := w)])
  }

  /** `save_chunks_to_file` on a chunk; a drain takes it and does nothing. */
  function TakeChunk(st: State, b: bytes): State {
    if st.draining.Some? then st
    else
      var wrote := SetCurrent(st, Write(Current(st), b));
      wrote.(saving := Absorb(wrote.saving, b))
  }

  /** An empty chunk changes nothing, wherever it lands. */
  lemma EmptyChunk(st: State)
    ensures TakeChunk(st, []) == st
  {
    assert Current(st).open + [] == Current(st).open;
    assert forall i | 0 <= i < |st.saving| :: st.saving[i].absorbed + [] == st.saving[i].absorbed;
    assert TakeChunk(st, []).saving == st.saving;
  }

  /** `save_chunks_to_block` on a start marker: the reference is recorded, then save or drain. */
  function StartBlock(st: State, id: Id, chain: seq<nat>): State {
    var cut := SetCurrent(st, Cut(Current(st), id, chain));
    if id in st.store then cut.(draining := Some(id))
    else cut.(saving := cut.saving + [Open(id, EMPTY, [])])
  }

  /** One flat file when nothing was nested in it, a directory otherwise. */
  function StoredForm(w: Writer): Stored {
    if w.done == [] then File(w.open) else Dir(Close(w))
  }

  /** A block written meanwhile by another stream stays. */
  function Publish(s: Store, id: Id, stored: Stored): Store {
    if id in s then s else s[id := stored]
  }

  /** The end of `save_block_content`: check the id, write the pointer form, publish. */
  function FinishBlock(host: Host, st: State): (r: State)
    requires st.saving != []
    ensures r.status.Failed? || r.saving == st.saving[..|st.saving| - 1]
    ensures r.levels == st.levels
  {
    var open := st.saving[|st.saving| - 1];
    if host.env.hash(open.absorbed) != open.id then Fail(st, BlockIdMismatch(open.id))
    else if open.writer.done != [] && !host.accepts(st.store, Close(open.writer), true) then
      Fail(st, NoPointerForm(Some(open.id)))
    else
      st.(saving := st.saving[..|st.saving| - 1],
          store := Publish(st.store, open.id, StoredForm(open.writer)))
  }

  /** Blocks finish from the innermost outwards, until `k` are left. */
  function FinishDownTo(host: Host, st: State, k: nat): (r: State)
    ensures r.levels == st.levels
    decreases |st.saving|
  {
    if |st.saving| <= k then st
    else
      var over := FinishBlock(host, st);
      if over.status != Running then over else FinishDownTo(host, over, k)
  }

  /** The drain is over: the blocks around still need the bytes, from the local copy. */
  function EndDrain(host: Host, st: State): State {
    match st.draining
    case None => st
    case Some(id) =>
      if st.saving == [] then st.(draining := None)
      else
        match ReadBlock(host.env, st.store, id, true, 1, {})
        case Err(e) => Fail(st, UnreadableBlock(e))
        case Ok(items) => st.(draining := None, saving := Absorb(st.saving, ItemBytes(items)))
  }

  function FinishAfterDrain(host: Host, st: State, k: nat): State {
    var over := EndDrain(host, st);
    if over.status != Running then over else FinishDownTo(host, over, k)
  }

  /** After an outermost block the object goes on with a new `parser_iterator`. */
  function Resume(st: State): State {
    if st.status == Running && st.saving == [] && st.draining == None then st.(levels := 1, blocks := [], outer := None)
    else st
  }

  /** The outermost `stop_generator` waiting for this id. */
  function Layer(saving: seq<Open>, id: Id): Option<nat> {
    if saving == [] then None
    else if saving[0].id == id then Some(0)
    else match Layer(saving[1..], id) case None => None case Some(k) => Some(k + 1)
  }

  /** A chunk that came in the buffer of a marker. */
  function Extra(st: State, chunk: Option<bytes>): State {
    match chunk
    case None => st
    case Some(b) => TakeChunk(st, b)
  }

  /**
    A marker handed to the consumers. The terminator that waits for it makes a chunk of its
    buffer, which the innermost reader still gets; a block that starts has it as its first.
    */
  function Yield(host: Host, st: State, id: Id, chain: seq<nat>, chunk: Option<bytes>): (r: State)
    ensures r.status == Running ==> r.levels == st.levels || r.levels == 1
  {
    match Layer(st.saving, id)
    case Some(k) => Resume(FinishAfterDrain(host, Extra(st, chunk), k))
    case None =>
      if st.draining == Some(id) then Resume(EndDrain(host, st))
      else if st.draining.Some? then st
      else Extra(StartBlock(st, id, chain), chunk)
  }

  /** The end of `save_to_dir`: an object with blocks in it gets its pointer form. */
  function FinishObject(host: Host, st: State): State {
    if st.top.done != [] && !host.accepts(st.store, Close(st.top), false) then Fail(st, NoPointerForm(None))
    else st.(status := Finished)
  }

  /** The iterator is exhausted: everything open is over, or the object is. */
  function Exhaust(host: Host, st: State): State {
    if st.saving == [] && st.draining == None then FinishObject(host, st.(levels := 0))
    else Resume(FinishAfterDrain(host, st.(levels := 0), 0))
  }

  // --------------------------------------------------------------- the generators

  /** The outermost block is over: the object has gone on with a new `parser_iterator`. */
  predicate Renewed(before: State, after: State) {
    (before.saving != [] || before.draining.Some?) && after.saving == [] && after.draining == None
  }

  /**
    The outermost iterator, once the block its buffer opened is over: a chunk makes it hand
    the buffer on again, and only a head without a separator keeps it going otherwise.
    */
  function FallThrough(host: Host, st: State, b: Buffer): State {
    match b.chunk
    case None => if !b.head || b.separator then Exhaust(host, st) else st
    case Some(c) =>
      var yielded :=
        match b.block
        case None => TakeChunk(st, c)
        case Some(m) => Yield(host, st, m.id, m.chain, Some(c));
      if b.separator && yielded.status == Running && !Renewed(st, yielded) then Exhaust(host, yielded) else yielded
  }

  /** The innermost `parser_iterator` ends. */
  function Break(host: Host, st: State): (r: State)
    ensures r.status == Running && st.levels > 1 ==> r.levels < st.levels
  {
    if st.levels > 2 then st.(levels := st.levels - 1)
    else if st.levels == 2 && st.outer.Some? then FallThrough(host, st.(levels := 1, outer := None), st.outer.value)
    else Exhaust(host, st)
  }

  function Ask(asked: seq<Id>, id: Id): seq<Id> {
    if id in asked then asked else asked + [id]
  }

  /** What the outermost iterator keeps of a start marker; a terminator may have taken its block field. */
  function Leftover(b: Buffer, cleared: bool): Option<Buffer> {
    if b.chunk.None? && !b.head then None else Some(if cleared then b.(block := None) else b)
  }

  /** The state inside a block that starts. */
  function Enter(st: State, m: Spot, b: Buffer): State {
    st.(blocks := st.blocks + [m.id],
        levels := st.levels + 1,
        asked := if m.id in st.store then Ask(st.asked, m.id) else st.asked,
        outer := if st.levels == 1 then Leftover(b, Layer(st.saving, m.id).Some?) else st.outer)
  }

  function TakeMarker(host: Host, st: State, m: Spot, b: Buffer): State {
    if m.id in st.blocks then
      if st.blocks[|st.blocks| - 1] != m.id then Fail(st, IntersectionError)
      else
        var popped := st.(blocks := st.blocks[..|st.blocks| - 1]);
        if popped.blocks == [] then Break(host, popped)
        else
          var yielded := Yield(host, popped, m.id, m.chain, b.chunk);
          if yielded.status != Running || yielded.blocks == [] then yielded else Break(host, yielded)
    else if |st.blocks| >= MAX_BLOCK_NESTING then Fail(st, NestedTooDeep)
    else Yield(host, Enter(st, m, b), m.id, m.chain, b.chunk)
  }

  /** `parser_iterator` on one buffer, and what its consumers make of it. */
  function Take(host: Host, st: State, b: Buffer): State {
    if st.status != Running then st
    else match b.block
      case Some(m) => TakeMarker(host, st, m, b)
      case None =>
        match b.chunk
        case None => if !b.head || b.separator then Break(host, st) else st
        case Some(c) => if b.separator then Break(host, TakeChunk(st, c)) else TakeChunk(st, c)
  }

  function TakeItem(host: Host, st: State, item: Item): State {
    Take(host, st, Carry(item))
  }

  function Run(host: Host, st: State, bufs: seq<Buffer>): State
    decreases |bufs|
  {
    if bufs == [] then st else Run(host, Take(host, st, bufs[0]), bufs[1..])
  }

  /** The stream ends: the iterators end from the innermost outwards, then the object does. */
  function EndOfStream(host: Host, st: State): State
    decreases st.levels
  {
    if st.status != Running then st
    else if st.levels > 1 then
      var over := Break(host, st);
      if over.status != Running then over else EndOfStream(host, over)
    else
      var over := Exhaust(host, st);
      if over.status == Running then Exhaust(host, over) else over
  }

  lemma {:induction false} RunAppend(host: Host, st: State, a: seq<Buffer>, b: seq<Buffer>)
    ensures Run(host, st, a + b) == Run(host, Run(host, st, a), b)
    decreases |a|
  {
    if a == [] {
      assert a + b == b;
    } else {
      assert (a + b)[1..] == a[1..] + b;
      RunAppend(host, Take(host, st, a[0]), a[1..], b);
    }
  }

  // ---------------------------------------------------------------- invariants

  /** Every stored block is there with everything it references, and is what its id names. */
  ghost predicate Sound(env: Environment, s: Store) {
    forall id <- s :: Whole(s, id) && env.hash(Expansion(s, id)) == id
  }

  predicate Distinct(ids: seq<Id>) {
    forall i, j | 0 <= i < j < |ids| :: ids[i] != ids[j]
  }

  function SavingIds(saving: seq<Open>): (r: seq<Id>)
    ensures |r| == |saving|
    ensures forall i | 0 <= i < |r| :: r[i] == saving[i].id
  {
    seq(|saving|, i requires 0 <= i < |saving| => saving[i].id)
  }

  /** The writer at depth `i`: the object's, then those of the blocks being saved. */
  function WriterAt(st: State, i: nat): Writer
    requires i <= |st.saving|
  {
    if i == 0 then st.top else st.saving[i - 1].writer
  }

  /** The block whose bytes are still coming for the writer at depth `i`. */
  function Pending(st: State, i: nat): Option<Id>
    requires i <= |st.saving|
  {
    if i < |st.saving| then Some(st.saving[i].id) else st.draining
  }

  /** All a writer has recorded is there; a block still coming is its last entry. */
  ghost predicate Shaped(s: Store, w: Writer, pending: Option<Id>) {
    match pending
    case None => Covered(s, w.done)
    case Some(id) =>
      && w.open == [] && |w.done| > 0
      && w.done[|w.done| - 1].Ref? && w.done[|w.done| - 1].id == id
      && Covered(s, w.done[..|w.done| - 1])
  }

  /** What a writer has recorded expands to, without the block still coming. */
  ghost function Recorded(s: Store, w: Writer, pending: Option<Id>): bytes {
    if pending.None? || w.done == [] then FillWriter(w, Contents(s))
    else Fill(w.done[..|w.done| - 1], Contents(s))
  }

  /** What the open block inside depth `i` has absorbed. */
  function Inner(st: State, i: nat): bytes
    requires i <= |st.saving|
  {
    if i < |st.saving| then st.saving[i].absorbed else []
  }

  /**
    The running-hash invariant: the hasher of every open block has absorbed exactly the
    expansion of what is recorded for it, and then what its open sub-block has.
    */
  ghost predicate Hashing(st: State) {
    && (forall i | 0 <= i <= |st.saving| :: Shaped(st.store, WriterAt(st, i), Pending(st, i)))
    && (forall i | 0 < i <= |st.saving| ::
      st.saving[i - 1].absorbed == Recorded(st.store, WriterAt(st, i), Pending(st, i)) + Inner(st, i))
  }

  /** No block being saved is held; the one being drained is. */
  ghost predicate Fresh(st: State) {
    && (forall i | 0 <= i < |st.saving| :: st.saving[i].id !in st.store)
    && (st.draining.Some? ==> st.draining.value in st.store)
  }

  /** Only held blocks are asked for, and each once. */
  ghost predicate Asking(st: State) {
    Distinct(st.asked) && forall id <- st.asked :: id in st.store
  }

  /** What holds of the store and of the hashers between two buffers. */
  ghost predicate Steady(host: Host, st: State) {
    Sound(host.env, st.store) && Hashing(st) && Fresh(st) && Distinct(SavingIds(st.saving))
  }

  ghost predicate Good(host: Host, st: State) {
    && Sound(host.env, st.store)
    && Asking(st)
    && (st.status == Running ==> Steady(host, st))
    && (st.status == Finished ==> Covered(st.store, st.top.done))
  }
}
