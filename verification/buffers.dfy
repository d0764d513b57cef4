/**
  One received buffer on its own: when it breaks the rules of nesting, and what its fields
  do when several are set.
  */
module Buffers {
  import opened Bytes
  import opened Documents
  import opened Layouts
  import opened Stores
  import opened Reader
  import opened Receiver
  import opened Descent

  // ------------------------------------------------------------------- the rules

  predicate Crosses(failure: Status) {
    failure == Failed(IntersectionError) || failure == Failed(NestedTooDeep)
  }

  lemma {:induction false} FinishObeys(host: Host, st: State, k: nat)
    requires !Crosses(st.status)
    ensures !Crosses(FinishDownTo(host, st, k).status)
    decreases |st.saving|
  {
    hide Publish, StoredForm, Close;
    if |st.saving| > k && FinishBlock(host, st).status == Running { FinishObeys(host, FinishBlock(host, st), k); }
  }

  lemma DrainObeys(host: Host, st: State, k: nat)
    requires !Crosses(st.status)
    ensures !Crosses(EndDrain(host, st).status) && !Crosses(FinishAfterDrain(host, st, k).status)
  {
    hide ReadBlock, FinishDownTo;
    if EndDrain(host, st).status == Running { FinishObeys(host, EndDrain(host, st), k); }
  }

  lemma YieldObeys(host: Host, st: State, id: Id, chain: seq<nat>, chunk: Option<bytes>)
    requires !Crosses(st.status)
    ensures !Crosses(Yield(host, st, id, chain, chunk).status)
  {
    hide FinishAfterDrain, EndDrain, Layer;
    match Layer(st.saving, id)
    case Some(k) => DrainObeys(host, Extra(st, chunk), k);
    case None => DrainObeys(host, st, 0);
  }

  lemma BreakObeys(host: Host, st: State)
    requires !Crosses(st.status)
    ensures !Crosses(Break(host, st).status)
  {
    hide FinishAfterDrain, Yield;
    DrainObeys(host, st.(levels := 0), 0);
    if st.levels == 2 && st.outer.Some? {
      var left, b := st.(levels := 1, outer := None), st.outer.value;
      DrainObeys(host, left.(levels := 0), 0);
      if b.chunk.Some? && b.block.Some? {
        YieldObeys(host, left, b.block.value.id, b.block.value.chain, b.chunk);
        DrainObeys(host, Yield(host, left, b.block.value.id, b.block.value.chain, b.chunk).(levels := 0), 0);
      } else if b.chunk.Some? {
        DrainObeys(host, TakeChunk(left, b.chunk.value).(levels := 0), 0);
      }
    }
  }

  /**
    The rules of nesting, exactly: in any state a buffer is refused for them if and only if it
    has the marker of a block that is open and not the innermost, or one more would be open
    than the thirty-two there may be.
    */
  lemma RulesExactly(host: Host, st: State, b: Buffer)
    requires st.status == Running
    ensures Take(host, st, b).status == Failed(IntersectionError) <==>
            b.block.Some? && b.block.value.id in st.blocks && st.blocks[|st.blocks| - 1] != b.block.value.id
    ensures Take(host, st, b).status == Failed(NestedTooDeep) <==>
            b.block.Some? && b.block.value.id !in st.blocks && |st.blocks| >= 32
  {
    hide Yield, Break;
    match b.block
    case None =>
      BreakObeys(host, st);
      if b.chunk.Some? { BreakObeys(host, TakeChunk(st, b.chunk.value)); }
    case Some(m) =>
      YieldObeys(host, Enter(st, m, b), m.id, m.chain, b.chunk);
      var popped := st.(blocks := if st.blocks == [] then [] else st.blocks[..|st.blocks| - 1]);
      BreakObeys(host, popped);
      YieldObeys(host, popped, m.id, m.chain, b.chunk);
      BreakObeys(host, Yield(host, popped, m.id, m.chain, b.chunk));
  }

  // ---------------------------------------------------------------- pointer forms

  /** The block came to the store as a directory whose pointer form could be written. */
  ghost predicate FormWritten(host: Host, before: Store, s: Store, id: Id) {
    exists then_ :: Extends(before, then_) && Extends(then_, s) && id in s && s[id].Dir?
      && host.accepts(then_, s[id].entries, true)
  }

  /** So did every directory since `before`, and the object, if it is finished. */
  ghost predicate Formed(host: Host, before: Store, st: State) {
    && Extends(before, st.store)
    && (forall id <- st.store :: id in before || st.store[id].File? || FormWritten(host, before, st.store, id))
    && (st.status == Finished && st.top.done != [] ==> host.accepts(st.store, Close(st.top), false))
  }

  lemma FormStays(host: Host, before: Store, s: Store, s': Store, id: Id)
    requires FormWritten(host, before, s, id) && Extends(s, s')
    ensures FormWritten(host, before, s', id)
  {
    var then_ :| Extends(before, then_) && Extends(then_, s) && host.accepts(then_, s[id].entries, true);
    assert Extends(then_, s');
  }

  lemma BlockForms(host: Host, before: Store, st: State)
    requires st.saving != [] && st.status == Running && Formed(host, before, st)
    ensures Formed(host, before, FinishBlock(host, st)) && FinishBlock(host, st).status != Finished
  {
    hide FormWritten, Close;
    var after := FinishBlock(host, st);
    var open := st.saving[|st.saving| - 1];
    forall id | id in st.store && FormWritten(host, before, st.store, id) ensures FormWritten(host, before, after.store, id) {
      FormStays(host, before, st.store, after.store, id);
    }
    if after.status == Running && open.id !in st.store && open.writer.done != [] {
      assert FormWritten(host, before, after.store, open.id) by { Accepted(host, before, st.store, open.id, Close(open.writer)); }
    }
  }

  lemma Accepted(host: Host, before: Store, s: Store, id: Id, es: Directory)
    requires Extends(before, s) && id !in s && host.accepts(s, es, true)
    ensures FormWritten(host, before, s[id := Dir(es)], id)
  {
    assert Extends(s, s[id := Dir(es)]);
  }

  lemma {:induction false} FinishForms(host: Host, before: Store, st: State, k: nat)
    requires st.status == Running && Formed(host, before, st)
    ensures Formed(host, before, FinishDownTo(host, st, k)) && FinishDownTo(host, st, k).status != Finished
    decreases |st.saving|
  {
    hide FinishBlock, Formed;
    if |st.saving| > k {
      BlockForms(host, before, st);
      if FinishBlock(host, st).status == Running { FinishForms(host, before, FinishBlock(host, st), k); }
    }
  }

  lemma DrainForms(host: Host, before: Store, st: State, k: nat)
    requires st.status == Running && Formed(host, before, st)
    ensures Formed(host, before, EndDrain(host, st)) && EndDrain(host, st).status != Finished
    ensures Formed(host, before, FinishAfterDrain(host, st, k)) && FinishAfterDrain(host, st, k).status != Finished
  {
    hide ReadBlock, FinishDownTo, FormWritten;
    var over := EndDrain(host, st);
    assert over.store == st.store;
    if over.status == Running { FinishForms(host, before, over, k); }
  }

  lemma YieldForms(host: Host, before: Store, st: State, id: Id, chain: seq<nat>, chunk: Option<bytes>)
    requires st.status == Running && Formed(host, before, st)
    ensures Formed(host, before, Yield(host, st, id, chain, chunk)) && Yield(host, st, id, chain, chunk).status != Finished
  {
    hide FinishAfterDrain, EndDrain, Layer, FormWritten;
    match Layer(st.saving, id)
    case Some(k) => DrainForms(host, before, Extra(st, chunk), k);
    case None => DrainForms(host, before, st, 0);
  }

  lemma ExhaustForms(host: Host, before: Store, st: State)
    requires st.status == Running && Formed(host, before, st)
    ensures Formed(host, before, Exhaust(host, st))
  {
    hide FinishAfterDrain, FormWritten, Close;
    DrainForms(host, before, st.(levels := 0), 0);
  }

  lemma BreakForms(host: Host, before: Store, st: State)
    requires st.status == Running && Formed(host, before, st)
    ensures Formed(host, before, Break(host, st))
  {
    hide Exhaust, Yield, FormWritten;
    ExhaustForms(host, before, st);
    if st.levels == 2 && st.outer.Some? {
      var left, b := st.(levels := 1, outer := None), st.outer.value;
      ExhaustForms(host, before, left);
      if b.chunk.Some? {
        var c := b.chunk.value;
        if b.block.Some? { YieldForms(host, before, left, b.block.value.id, b.block.value.chain, b.chunk); }
        var yielded :=
          if b.block.Some? then Yield(host, left, b.block.value.id, b.block.value.chain, b.chunk) else TakeChunk(left, c);
        if yielded.status == Running { ExhaustForms(host, before, yielded); }
      }
    }
  }

  lemma TakeForms(host: Host, before: Store, st: State, b: Buffer)
    requires Formed(host, before, st)
    ensures Formed(host, before, Take(host, st, b))
  {
    hide Yield, Break, FormWritten;
    if st.status == Running {
      match b.block
      case None =>
        BreakForms(host, before, st);
        if b.chunk.Some? { BreakForms(host, before, TakeChunk(st, b.chunk.value)); }
      case Some(m) =>
        YieldForms(host, before, Enter(st, m, b), m.id, m.chain, b.chunk);
        var popped := st.(blocks := if st.blocks == [] then [] else st.blocks[..|st.blocks| - 1]);
        BreakForms(host, before, popped);
        YieldForms(host, before, popped, m.id, m.chain, b.chunk);
        var yielded := Yield(host, popped, m.id, m.chain, b.chunk);
        if yielded.status == Running { BreakForms(host, before, yielded); }
    }
  }

  lemma {:induction false} RunForms(host: Host, before: Store, st: State, bufs: seq<Buffer>)
    requires Formed(host, before, st)
    ensures Formed(host, before, Run(host, st, bufs))
    decreases |bufs|
  {
    hide Take, Formed;
    if bufs != [] {
      TakeForms(host, before, st, bufs[0]);
      RunForms(host, before, Take(host, st, bufs[0]), bufs[1..]);
    }
  }

  lemma {:induction false} EndForms(host: Host, before: Store, st: State)
    requires Formed(host, before, st)
    ensures Formed(host, before, EndOfStream(host, st))
    decreases st.levels
  {
    hide Break, Exhaust, Formed;
    if st.status == Running {
      if st.levels > 1 {
        BreakForms(host, before, st);
        var over := Break(host, st);
        if over.status == Running { EndForms(host, before, over); }
      } else {
        ExhaustForms(host, before, st);
        if Exhaust(host, st).status == Running { ExhaustForms(host, before, Exhaust(host, st)); }
      }
    }
  }

  /**
    No directory without a pointer form: after any stream of any buffers, however it ends,
    `generate_wbp_file` has written that of every directory received, at the store as it was
    when the directory was complete, with types left out; and that of a finished object with
    blocks in it, with types spelled out.
    */
  lemma FormsWritten(host: Host, store: Store, bufs: seq<Buffer>)
    ensures forall after | after in [Run(host, Init(store, []), bufs), EndOfStream(host, Run(host, Init(store, []), bufs))] ::
      && (forall id <- after.store ::
            id in store || after.store[id].File? || FormWritten(host, store, after.store, id))
      && (after.status == Finished && after.top.done != [] ==> host.accepts(after.store, Close(after.top), false))
  {
    hide FormWritten, Run, EndOfStream;
    RunForms(host, store, Init(store, []), bufs);
    EndForms(host, store, Run(host, Init(store, []), bufs));
  }

  // ----------------------------------------------------------- several fields at once

  /**
    What a buffer with several fields stands for: a start marker before its chunk, the end
    marker of a nested block after its, that of an outermost block without it, a separator
    last, and no head.
    */
  function Spread(blocks: seq<Id>, b: Buffer): seq<Buffer> {
    var chunk := if b.chunk.Some? then [Carry(Piece(b.chunk.value))] else [];
    match b.block
    case None => chunk + (if b.separator || (b.chunk.None? && !b.head) then [SEPARATOR] else [])
    case Some(m) =>
      if m.id !in blocks then [Carry(Marker(m.id, m.chain))] + chunk
      else if |blocks| > 1 then chunk + [Carry(Marker(m.id, m.chain))]
      else [Carry(Marker(m.id, m.chain))]
  }

  lemma {:induction false} LayerByIds(saving: seq<Open>, id: Id)
    ensures Layer(saving, id).Some? <==> id in SavingIds(saving)
  {
    if saving != [] {
      LayerByIds(saving[1..], id);
      assert SavingIds(saving) == [saving[0].id] + SavingIds(saving[1..]);
    }
  }

  lemma {:induction false} LayerOfIds(a: seq<Open>, b: seq<Open>, id: Id)
    requires SavingIds(a) == SavingIds(b)
    ensures Layer(a, id) == Layer(b, id)
  {
    if a != [] {
      assert a[0].id == SavingIds(a)[0] && b[0].id == SavingIds(b)[0];
      assert SavingIds(a[1..]) == SavingIds(a)[1..] && SavingIds(b[1..]) == SavingIds(b)[1..];
      LayerOfIds(a[1..], b[1..], id);
    }
  }

  lemma RunOne(host: Host, st: State, b: Buffer)
    ensures Run(host, st, [b]) == Take(host, st, b)
  {
    assert [b][1..] == [];
  }

  lemma RunTwo(host: Host, st: State, a: Buffer, b: Buffer)
    ensures Run(host, st, [a, b]) == Take(host, Take(host, st, a), b)
  {
    hide Take;
    assert [a, b][1..] == [b];
    RunOne(host, Take(host, st, a), b);
  }

  lemma PlainSpreads(host: Host, st: State, b: Buffer)
    requires st.status == Running && b.block == None
    ensures Take(host, st, b) == Run(host, st, Spread(st.blocks, b))
  {
    hide Break;
    var piece := Carry(Piece(if b.chunk.Some? then b.chunk.value else []));
    if b.chunk.None? {
      RunOne(host, st, SEPARATOR);
      assert [] + [SEPARATOR] == [SEPARATOR];
      assert [] + [] == Spread(st.blocks, HEAD);
    } else if b.separator {
      RunTwo(host, st, piece, SEPARATOR);
      assert [piece] + [SEPARATOR] == [piece, SEPARATOR];
    } else {
      RunOne(host, st, piece);
      assert [piece] + [] == [piece];
    }
  }

  lemma StartSpreads(host: Host, st: State, b: Buffer)
    requires st.status == Running && Stacked(st) && b.block.Some? && b.block.value.id !in st.blocks
    requires st.levels == 1 ==> b.chunk.None? && !b.head
    ensures Take(host, st, b) == Run(host, st, Spread(st.blocks, b))
  {
    hide Write, Cut, Absorb, Layer;
    var m := b.block.value;
    var marker := Carry(Marker(m.id, m.chain));
    LayerByIds(st.saving, m.id);
    if b.chunk.None? {
      RunOne(host, st, marker);
      assert [marker] + [] == [marker];
    } else {
      var piece := Carry(Piece(b.chunk.value));
      RunTwo(host, st, marker, piece);
      assert [marker] + [piece] == [marker, piece];
    }
  }

  lemma EndTaken(host: Host, st: State, b: Buffer)
    requires st.status == Running && st.blocks != [] && b.block.Some?
    requires b.block.value.id == st.blocks[|st.blocks| - 1]
    ensures var m, popped := b.block.value, st.(blocks := st.blocks[..|st.blocks| - 1]);
      Take(host, st, b) ==
      if popped.blocks == [] then Break(host, popped)
      else
        var yielded := Yield(host, popped, m.id, m.chain, b.chunk);
        if yielded.status != Running || yielded.blocks == [] then yielded else Break(host, yielded)
  {
    hide Yield, Break;
  }

  /** The innermost open block is being saved, or something is being drained. */
  lemma InnermostIsSeen(st: State)
    requires Stacked(st) && st.blocks != []
    ensures st.draining.Some? || Layer(st.saving, st.blocks[|st.blocks| - 1]).Some?
  {
    LayerByIds(st.saving, st.blocks[|st.blocks| - 1]);
  }

  /** A chunk that comes with a marker, or before it. */
  lemma YieldFed(host: Host, st: State, blocks: seq<Id>, m: Spot, c: bytes)
    requires st.draining.Some? || Layer(st.saving, m.id).Some?
    ensures Yield(host, st.(blocks := blocks), m.id, m.chain, Some(c)) ==
            Yield(host, TakeChunk(st, c).(blocks := blocks), m.id, m.chain, None)
  {
    hide FinishAfterDrain, EndDrain, Layer;
    var fed := TakeChunk(st, c);
    assert SavingIds(fed.saving) == SavingIds(st.saving);
    LayerOfIds(st.saving, fed.saving, m.id);
  }

  lemma EndSpreads(host: Host, st: State, b: Buffer)
    requires st.status == Running && Stacked(st) && st.blocks != [] && b.block.Some?
    requires b.block.value.id == st.blocks[|st.blocks| - 1]
    ensures Take(host, st, b) == Run(host, st, Spread(st.blocks, b))
  {
    hide Yield, Break, TakeMarker;
    var m := b.block.value;
    var marker := Carry(Marker(m.id, m.chain));
    EndTaken(host, st, b);
    EndTaken(host, st, marker);
    RunOne(host, st, marker);
    if |st.blocks| > 1 && b.chunk.Some? {
      var piece := Carry(Piece(b.chunk.value));
      RunTwo(host, st, piece, marker);
      assert [piece] + [marker] == [piece, marker];
      var fed := TakeChunk(st, b.chunk.value);
      InnermostIsSeen(st);
      EndTaken(host, st, b);
      EndTaken(host, fed, marker);
      YieldFed(host, st, st.blocks[..|st.blocks| - 1], m, b.chunk.value);
    } else {
      assert [] + [marker] == [marker];
    }
  }

  /**
    A buffer with several fields is what it stands for, except the start marker of an
    outermost block with a chunk or a head, which the iterator comes back to.
    */
  lemma FieldsComeApart(host: Host, st: State, b: Buffer)
    requires st.status == Running && Stacked(st)
    requires b.block.Some? ==>
      if b.block.value.id in st.blocks then b.block.value.id == st.blocks[|st.blocks| - 1]
      else st.levels == 1 ==> b.chunk.None? && !b.head
    ensures Take(host, st, b) == Run(host, st, Spread(st.blocks, b))
  {
    hide Take, Spread;
    match b.block
    case None => PlainSpreads(host, st, b);
    case Some(m) => if m.id in st.blocks { EndSpreads(host, st, b); } else { StartSpreads(host, st, b); }
  }

  /**
    What is left of the buffer that opened an outermost block is taken when the block is over
    as if it came again: without its marker if it has no chunk, and then only a separator
    counts; with its marker and its chunk otherwise, and a separator after them unless the
    object has gone on with a new iterator.
    */
  lemma LeftoverIsTaken(host: Host, st: State, b: Buffer)
    requires st.status == Running && st.levels == 1 && st.outer == None
    ensures b.block == None || b.chunk == None ==> FallThrough(host, st, b) == Take(host, st, b.(block := None))
    ensures b.block.Some? && b.chunk.Some? ==>
      var yielded := Yield(host, st, b.block.value.id, b.block.value.chain, b.chunk);
      FallThrough(host, st, b) ==
      if b.separator && !Renewed(st, yielded) then Take(host, yielded, SEPARATOR) else yielded
  {
    hide FinishAfterDrain, EndDrain, Layer, Absorb, Write, Cut;
  }

  // ------------------------------------------------------------ a stream that ends early

  /** The state without the iterators and the stack they share. */
  function Unframed(st: State): State {
    st.(levels := 0, blocks := [], outer := None)
  }

  /** Everything open is over, and then the object. */
  function Over(host: Host, st: State): State {
    var over := FinishAfterDrain(host, st, 0);
    if over.status != Running then over else FinishObject(host, over)
  }

  lemma {:induction false} FinishUnframed(host: Host, st: State, levels: nat, blocks: seq<Id>, k: nat)
    ensures FinishDownTo(host, st.(levels := levels, blocks := blocks), k) ==
            FinishDownTo(host, st, k).(levels := levels, blocks := blocks)
    decreases |st.saving|
  {
    hide Publish, StoredForm, Close;
    if |st.saving| > k && FinishBlock(host, st).status == Running {
      FinishUnframed(host, FinishBlock(host, st), levels, blocks, k);
    }
  }

  lemma OverUnframed(host: Host, st: State, levels: nat, blocks: seq<Id>)
    ensures FinishAfterDrain(host, st.(levels := levels, blocks := blocks), 0) ==
            FinishAfterDrain(host, st, 0).(levels := levels, blocks := blocks)
    ensures Over(host, st.(levels := levels, blocks := blocks)) == Over(host, st).(levels := levels, blocks := blocks)
  {
    hide FinishDownTo, ReadBlock, ItemBytes, Close;
    FinishUnframed(host, EndDrain(host, st), levels, blocks, 0);
  }

  lemma {:induction false} FinishedAll(host: Host, st: State)
    requires st.status == Running && st.draining == None
    ensures var over := FinishDownTo(host, st, 0); over.status == Running ==> over.saving == [] && over.draining == None
    ensures FinishDownTo(host, st, 0).outer == st.outer
    decreases |st.saving|
  {
    hide Publish, StoredForm, Close;
    if |st.saving| > 0 && FinishBlock(host, st).status == Running { FinishedAll(host, FinishBlock(host, st)); }
  }

  lemma OverLeavesNothing(host: Host, st: State)
    requires st.status == Running
    ensures var over := FinishAfterDrain(host, st, 0); over.status == Running ==> over.saving == [] && over.draining == None
    ensures FinishAfterDrain(host, st, 0).outer == st.outer
    ensures st.saving == [] && st.draining == None ==> FinishAfterDrain(host, st, 0) == st
  {
    hide ReadBlock, ItemBytes, FinishDownTo;
    if EndDrain(host, st).status == Running { FinishedAll(host, EndDrain(host, st)); }
    if st.saving == [] { assert FinishDownTo(host, st, 0) == st by { NothingToFinish(host, st); } }
  }

  lemma NothingToFinish(host: Host, st: State)
    requires st.saving == []
    ensures FinishDownTo(host, st, 0) == st
  {
  }

  lemma ExhaustIsOver(host: Host, st: State)
    requires st.status == Running && st.outer == None
    ensures var over := Exhaust(host, st);
      if over.status == Running then Unframed(Exhaust(host, over)) == Unframed(Over(host, st))
      else Unframed(over) == Unframed(Over(host, st))
  {
    hide FinishAfterDrain, Close;
    OverUnframed(host, st, 0, st.blocks);
    OverLeavesNothing(host, st);
  }

  /** Where the stream ends, everything open is over. */
  lemma {:induction false} EndsOver(host: Host, st: State)
    requires st.status == Running && st.outer == None
    ensures Unframed(EndOfStream(host, st)) == Unframed(Over(host, st))
    decreases st.levels
  {
    hide Exhaust, Over, FinishAfterDrain, Unframed;
    ExhaustIsOver(host, st);
    if st.levels > 2 {
      EndsOver(host, st.(levels := st.levels - 1));
      OverUnframed(host, st, st.levels - 1, st.blocks);
      SameFrames(Over(host, st), st.levels - 1, st.blocks);
    } else if st.levels == 2 && Exhaust(host, st).status == Running {
      Restarts(host, st);
    }
  }

  lemma SameFrames(st: State, levels: nat, blocks: seq<Id>)
    ensures Unframed(st.(levels := levels, blocks := blocks)) == Unframed(st)
  {
  }

  lemma Restarts(host: Host, st: State)
    requires st.status == Running && Exhaust(host, st).status == Running
    ensures Exhaust(host, st).levels == 1 && Exhaust(host, Exhaust(host, st)).status != Running
  {
    hide FinishAfterDrain, Close;
    OverLeavesNothing(host, st.(levels := 0));
  }

  /**
    An end marker at the end of a stream changes nothing: a stream that ends early ends as if
    each block still open had its end marker there.
    */
  lemma LastMarkerIsSpare(host: Host, st: State, c: seq<nat>)
    requires Settled(st) && st.blocks != []
    ensures var id := st.blocks[|st.blocks| - 1];
      Unframed(EndOfStream(host, TakeItem(host, st, Marker(id, c)))) == Unframed(EndOfStream(host, st))
  {
    hide EndOfStream, TakeItem, Over, FinishAfterDrain, Unframed, Yield, Exhaust;
    var id := st.blocks[|st.blocks| - 1];
    var popped := st.(blocks := st.blocks[..|st.blocks| - 1]);
    EndsBlock(host, st, id, c);
    EndsOver(host, st);
    OverUnframed(host, st, st.levels, popped.blocks);
    SameFrames(Over(host, st), st.levels, popped.blocks);
    if popped.blocks == [] {
      ExhaustIsOver(host, popped);
      OutermostMarker(host, popped);
    } else {
      InnerMarker(host, st, id, c);
    }
  }

  lemma OutermostMarker(host: Host, popped: State)
    requires popped.status == Running && popped.levels == 2 && popped.outer == None
    ensures var over := Exhaust(host, popped);
      Unframed(EndOfStream(host, Break(host, popped))) ==
      Unframed(if over.status == Running then Exhaust(host, over) else over)
  {
    hide Exhaust, Unframed;
    if Exhaust(host, popped).status == Running { Restarts(host, popped); }
  }

  lemma InnerMarker(host: Host, st: State, id: Id, c: seq<nat>)
    requires Settled(st) && |st.blocks| > 1 && id == st.blocks[|st.blocks| - 1]
    ensures var popped := st.(blocks := st.blocks[..|st.blocks| - 1]);
      var yielded := Yield(host, popped, id, c, None);
      var after := if yielded.status != Running || yielded.blocks == [] then yielded else Break(host, yielded);
      Unframed(EndOfStream(host, after)) == Unframed(Over(host, popped))
  {
    hide EndOfStream, Over, Unframed, EndDrain, FinishAfterDrain, Layer, Break;
    var n := |st.saving|;
    var popped := st.(blocks := st.blocks[..|st.blocks| - 1]);
    Safety.LayerFinds(st.saving, id);
    if st.draining == None {
      assert SavingIds(st.saving)[n - 1] == id;
      var k := Layer(st.saving, id).value;
      assert SavingIds(st.saving)[k] == id;
      BlockOver(host, popped);
      GoesOn(host, FinishBlock(host, popped));
    } else if |st.blocks| == n + 1 {
      assert id !in SavingIds(st.saving);
      DrainOver(host, popped);
      GoesOn(host, EndDrain(host, popped));
    } else {
      assert id !in SavingIds(st.saving) && st.draining != Some(id);
      GoesOn(host, popped);
    }
  }

  lemma BlockOver(host: Host, st: State)
    requires st.status == Running && st.draining == None && |st.saving| > 1 && st.blocks != []
    ensures var over := FinishBlock(host, st);
      && Resume(FinishAfterDrain(host, st, |st.saving| - 1)) == over
      && over.blocks == st.blocks && over.levels == st.levels && over.outer == st.outer && over.status != Finished
      && Over(host, st) == if over.status == Running then Over(host, over) else over
  {
    hide FinishBlock, Close;
    BlockFrames(host, st);
    var over, k := FinishBlock(host, st), |st.saving| - 1;
    assert over.status == Running ==> FinishDownTo(host, over, k) == over;
    assert FinishAfterDrain(host, st, k) == FinishDownTo(host, st, k) == over;
  }

  lemma BlockFrames(host: Host, st: State)
    requires st.saving != [] && st.status == Running
    ensures var over := FinishBlock(host, st);
      && over.blocks == st.blocks && over.outer == st.outer && over.status != Finished && over.draining == st.draining
      && (over.status == Running ==> |over.saving| == |st.saving| - 1)
  {
    hide Publish, StoredForm, Close;
  }

  lemma DrainOver(host: Host, st: State)
    requires st.status == Running && st.saving != []
    ensures var over := EndDrain(host, st);
      && Resume(over) == over
      && over.blocks == st.blocks && over.levels == st.levels && over.outer == st.outer && over.status != Finished
      && Over(host, st) == if over.status == Running then Over(host, over) else over
  {
    hide ReadBlock, ItemBytes, FinishDownTo, Close;
  }

  /** An iterator of a nested block ends, and the stream then. */
  lemma GoesOn(host: Host, st: State)
    requires st.outer == None && st.levels > 2 && st.status != Finished
    ensures var after := if st.status == Running then Break(host, st) else st;
      Unframed(EndOfStream(host, after)) == Unframed(if st.status == Running then Over(host, st) else st)
  {
    hide Over, Unframed, FinishAfterDrain;
    if st.status == Running {
      EndsOver(host, st.(levels := st.levels - 1));
      OverUnframed(host, st, st.levels - 1, st.blocks);
      SameFrames(Over(host, st), st.levels - 1, st.blocks);
    }
  }
}
