/**
  The receiver on a well-nested stream: its generators, with their shared stack and nested
  terminators, do what a plain recursive descent over the stream does.
  */
module Descent {
  import opened Bytes
  import opened Documents
  import opened Layouts
  import opened Stores
  import opened Reader
  import opened Receiver
  import Safety

  /** What reading a stretch of stream leaves: the writer, and the bytes it stood for. */
  datatype Parsed = Parsed(store: Store, asked: seq<Id>, writer: Writer, absorbed: bytes)

  function Prepend(b: bytes, r: Result<Parsed, Failure>): Result<Parsed, Failure> {
    match r
    case Err(e) => Err(e)
    case Ok(p) => Ok(p.(absorbed := b + p.absorbed))
  }

  /** The body of a held block is passed over; blocks held inside it are still asked for. */
  function Drain(s: Store, asked: seq<Id>, depth: nat, f: Flow): Result<seq<Id>, Failure>
    decreases f
  {
    match f
    case Nil => Ok(asked)
    case Bytes(_, r) => Drain(s, asked, depth, r)
    case Block(id, _, body, r) =>
      if depth >= MAX_BLOCK_NESTING then Err(NestedTooDeep)
      else
        match Drain(s, if id in s then Ask(asked, id) else asked, depth + 1, body)
        case Err(e) => Err(e)
        case Ok(asked') => Drain(s, asked', depth, r)
  }

  /** The bytes a held block stands for, which only the blocks around it need. */
  function LocalCopy(host: Host, s: Store, id: Id, depth: nat): Result<bytes, Failure> {
    if depth == 0 then Ok([])
    else
      match ReadBlock(host.env, s, id, true, 1, {})
      case Err(e) => Err(UnreadableBlock(e))
      case Ok(items) => Ok(ItemBytes(items))
  }

  /** A block read to its end: checked against its id, stored, and referenced from `w`. */
  function Saved(host: Host, id: Id, chain: seq<nat>, w: Writer, p: Parsed): Result<Parsed, Failure> {
    if host.env.hash(p.absorbed) != id then Err(BlockIdMismatch(id))
    else if p.writer.done != [] && !host.accepts(p.store, Close(p.writer), true) then Err(NoPointerForm(Some(id)))
    else Ok(Parsed(Publish(p.store, id, StoredForm(p.writer)), p.asked, Cut(w, id, chain), p.absorbed))
  }

  /** One part per gap; each block is read on its own, stored unless held, and referenced. */
  function Parse(host: Host, s: Store, asked: seq<Id>, depth: nat, w: Writer, f: Flow): Result<Parsed, Failure>
    decreases f
  {
    match f
    case Nil => Ok(Parsed(s, asked, w, []))
    case Bytes(b, r) => Prepend(b, Parse(host, s, asked, depth, Write(w, b), r))
    case Block(id, chain, body, r) =>
      if depth >= MAX_BLOCK_NESTING then Err(NestedTooDeep)
      else if id in s then
        match Drain(s, Ask(asked, id), depth + 1, body)
        case Err(e) => Err(e)
        case Ok(asked') =>
          match LocalCopy(host, s, id, depth)
          case Err(e) => Err(e)
          case Ok(b) => Prepend(b, Parse(host, s, asked', depth, Cut(w, id, chain), r))
      else
        match Parse(host, s, asked, depth + 1, EMPTY, body)
        case Err(e) => Err(e)
        case Ok(p) =>
          match Saved(host, id, chain, w, p)
          case Err(e) => Err(e)
          case Ok(q) => Prepend(q.absorbed, Parse(host, q.store, q.asked, depth, q.writer, r))
  }

  /** No block inside itself. */
  ghost predicate Proper(f: Flow, open: seq<Id>) {
    match f
    case Nil => true
    case Bytes(_, r) => Proper(r, open)
    case Block(id, _, body, r) => id !in open && Proper(body, open + [id]) && Proper(r, open)
  }

  function RunItems(host: Host, st: State, items: seq<Item>): State
    decreases |items|
  {
    if items == [] then st else RunItems(host, TakeItem(host, st, items[0]), items[1..])
  }

  lemma {:induction false} RunItemsAppend(host: Host, st: State, a: seq<Item>, b: seq<Item>)
    ensures RunItems(host, st, a + b) == RunItems(host, RunItems(host, st, a), b)
    decreases |a|
  {
    hide TakeItem;
    if a == [] {
      assert a + b == b;
    } else {
      assert (a + b)[1..] == a[1..] + b;
      RunItemsAppend(host, TakeItem(host, st, a[0]), a[1..], b);
    }
  }

  lemma {:induction false} RunStopped(host: Host, st: State, items: seq<Item>)
    requires st.status != Running
    ensures RunItems(host, st, items) == st
    decreases |items|
  {
    if items != [] { RunStopped(host, st, items[1..]); }
  }

  /** A marker, a body, the marker again, and what follows. */
  lemma RunBlock(host: Host, st: State, m: Item, body: seq<Item>, rest: seq<Item>)
    ensures RunItems(host, st, [m] + body + [m] + rest) ==
            RunItems(host, TakeItem(host, RunItems(host, TakeItem(host, st, m), body), m), rest)
  {
    hide TakeItem;
    var once := [m];
    assert once[1..] == [];
    assert forall x: State :: RunItems(host, x, once) == TakeItem(host, x, m);
    RunItemsAppend(host, st, once + body + once, rest);
    RunItemsAppend(host, st, once + body, once);
    RunItemsAppend(host, st, once, body);
  }

  /** The blocks being saved are the outermost open ones; the next one is being drained. */
  ghost predicate Stacked(st: State) {
    && Distinct(st.blocks)
    && |st.saving| <= |st.blocks|
    && SavingIds(st.saving) == st.blocks[..|st.saving|]
    && match st.draining
       case None => |st.saving| == |st.blocks|
       case Some(id) => |st.saving| < |st.blocks| && st.blocks[|st.saving|] == id
  }

  /** Between two items of a well-nested stream: one iterator for each open block. */
  ghost predicate Settled(st: State) {
    st.status == Running && Stacked(st) && st.levels == |st.blocks| + 1 && st.outer == None
  }

  /** A marker of a block that is not open opens it. */
  lemma OpensBlock(host: Host, st: State, id: Id, c: seq<nat>)
    requires st.status == Running && st.outer == None && id !in st.blocks && |st.blocks| < MAX_BLOCK_NESTING
    ensures var asked := if id in st.store then Ask(st.asked, id) else st.asked;
      TakeItem(host, st, Marker(id, c)) ==
      Yield(host, st.(blocks := st.blocks + [id], levels := st.levels + 1, asked := asked), id, c, None)
  {
    hide Yield;
  }

  /** The marker of the innermost open block ends it and its iterator. */
  lemma EndsBlock(host: Host, st: State, id: Id, c: seq<nat>)
    requires st.status == Running && st.outer == None && st.blocks != [] && st.blocks[|st.blocks| - 1] == id
    ensures var popped := st.(blocks := st.blocks[..|st.blocks| - 1]);
      TakeItem(host, st, Marker(id, c)) ==
      if popped.blocks == [] then Break(host, popped)
      else
        var yielded := Yield(host, popped, id, c, None);
        if yielded.status != Running || yielded.blocks == [] then yielded else Break(host, yielded)
  {
    hide Yield, Break;
  }

  lemma {:induction false} Drains(host: Host, st: State, f: Flow)
    requires Settled(st) && st.draining.Some? && Proper(f, st.blocks)
    ensures match Drain(st.store, st.asked, |st.blocks|, f)
            case Err(e) => RunItems(host, st, Items(f)).status == Failed(e)
            case Ok(asked) => RunItems(host, st, Items(f)) == st.(asked := asked)
    decreases f
  {
    hide TakeItem, Settled;
    match f
    case Nil =>
    case Bytes(b, r) =>
      assert Items(f)[1..] == Items(r);
      DrainsChunk(host, st, b);
      Drains(host, st, r);
    case Block(id, c, body, r) =>
      var m := Marker(id, c);
      RunBlock(host, st, m, Items(body), Items(r));
      var entered := TakeItem(host, st, m);
      var read := RunItems(host, entered, Items(body));
      if |st.blocks| >= MAX_BLOCK_NESTING {
        TooDeep(host, st, id, c);
        RunStopped(host, entered, Items(body));
        StopHere(host, read, m, Items(r));
      } else {
        DrainEnters(host, st, id, c);
        Drains(host, entered, body);
        match Drain(st.store, entered.asked, |st.blocks| + 1, body)
        case Err(_) => StopHere(host, read, m, Items(r));
        case Ok(asked) =>
          DrainLeaves(host, st, read, id, c);
          SettledAsking(st, asked);
          Drains(host, st.(asked := asked), r);
      }
  }

  lemma DrainsChunk(host: Host, st: State, b: bytes)
    requires Settled(st) && st.draining.Some?
    ensures TakeItem(host, st, Piece(b)) == st
  {
  }

  lemma SettledAsking(st: State, asked: seq<Id>)
    ensures Settled(st.(asked := asked)) == Settled(st)
  {
  }

  lemma DrainEnters(host: Host, st: State, id: Id, c: seq<nat>)
    requires Settled(st) && st.draining.Some? && id !in st.blocks && |st.blocks| < MAX_BLOCK_NESTING
    ensures var asked := if id in st.store then Ask(st.asked, id) else st.asked;
      var entered := TakeItem(host, st, Marker(id, c));
      entered == st.(blocks := st.blocks + [id], levels := st.levels + 1, asked := asked) && Settled(entered)
  {
    hide FinishAfterDrain, StartBlock, TakeItem, EndDrain, Layer;
    OpensBlock(host, st, id, c);
    Safety.LayerFinds(st.saving, id);
    assert (st.blocks + [id])[..|st.saving|] == st.blocks[..|st.saving|];
  }

  /** The end marker of a block inside a drained one reaches nobody. */
  lemma DrainLeaves(host: Host, st: State, after: State, id: Id, c: seq<nat>)
    requires Settled(st) && st.draining.Some? && id !in st.blocks
    requires after == st.(blocks := st.blocks + [id], levels := st.levels + 1, asked := after.asked)
    ensures TakeItem(host, after, Marker(id, c)) == st.(asked := after.asked)
  {
    hide FinishAfterDrain, StartBlock, TakeItem, EndDrain, Layer;
    EndsBlock(host, after, id, c);
    Safety.LayerFinds(st.saving, id);
    assert after.blocks[..|after.blocks| - 1] == st.blocks;
    assert st.blocks[..|st.saving|] == SavingIds(st.saving);
  }

  /** The state after a stretch of stream that stood for `p`. */
  function Advance(st: State, p: Parsed): State {
    var moved := SetCurrent(st.(store := p.store, asked := p.asked), p.writer);
    moved.(saving := Absorb(moved.saving, p.absorbed))
  }

  lemma AdvanceTwice(st: State, p: Parsed, q: Parsed)
    ensures Advance(Advance(st, p), q) == Advance(st, q.(absorbed := p.absorbed + q.absorbed))
  {
    var n := |st.saving|;
    var one, two := Advance(Advance(st, p), q), Advance(st, q.(absorbed := p.absorbed + q.absorbed));
    forall i | 0 <= i < n ensures one.saving[i] == two.saving[i] {
      Safety.Assoc(st.saving[i].absorbed, p.absorbed, q.absorbed);
    }
  }

  lemma AdvanceNothing(st: State)
    ensures Advance(st, Parsed(st.store, st.asked, Current(st), [])) == st
  {
    var after := Advance(st, Parsed(st.store, st.asked, Current(st), []));
    assert forall i | 0 <= i < |st.saving| :: after.saving[i] == st.saving[i];
  }

  lemma AdvanceSettled(st: State, p: Parsed)
    ensures Settled(st) ==> Settled(Advance(st, p))
    ensures Current(Advance(st, p)) == p.writer
  {
    assert SavingIds(Advance(st, p).saving) == SavingIds(st.saving);
  }

  /** The generators refine the descent. */
  lemma {:induction false} Descends(host: Host, st: State, f: Flow)
    requires Settled(st) && st.draining == None && Proper(f, st.blocks)
    ensures match Parse(host, st.store, st.asked, |st.blocks|, Current(st), f)
            case Err(e) => RunItems(host, st, Items(f)).status == Failed(e)
            case Ok(p) => RunItems(host, st, Items(f)) == Advance(st, p)
    decreases f, 0
  {
    hide Advance, TakeItem, Current, Stacked;
    match f
    case Nil => AdvanceNothing(st);
    case Bytes(b, r) =>
      var p := Parsed(st.store, st.asked, Write(Current(st), b), b);
      ChunkAdvances(host, st, b);
      assert Items(f)[1..] == Items(r);
      DescendsOn(host, st, p, r);
    case Block(id, c, body, r) =>
      RunBlock(host, st, Marker(id, c), Items(body), Items(r));
      var started := TakeItem(host, st, Marker(id, c));
      var read := RunItems(host, started, Items(body));
      var over := TakeItem(host, read, Marker(id, c));
      if |st.blocks| >= MAX_BLOCK_NESTING {
        TooDeep(host, st, id, c);
        RunStopped(host, started, Items(body));
        StopHere(host, read, Marker(id, c), Items(r));
      } else if id in st.store {
        HeldBlock(host, st, id, c, body);
        match Drain(st.store, Ask(st.asked, id), |st.blocks| + 1, body)
        case Err(_) => RunStopped(host, over, Items(r));
        case Ok(asked) =>
          match LocalCopy(host, st.store, id, |st.blocks|)
          case Err(_) => RunStopped(host, over, Items(r));
          case Ok(b) => DescendsOn(host, st, Parsed(st.store, asked, Cut(Current(st), id, c), b), r);
      } else {
        SavedStarts(host, st, id, c);
        Descends(host, started, body);
        match Parse(host, st.store, st.asked, |st.blocks| + 1, EMPTY, body)
        case Err(_) => StopHere(host, read, Marker(id, c), Items(r));
        case Ok(p) =>
          SavedEnds(host, st, id, c, p);
          match Saved(host, id, c, Current(st), p)
          case Err(_) => RunStopped(host, over, Items(r));
          case Ok(q) => DescendsOn(host, st, q, r);
      }
  }

  lemma StopHere(host: Host, st: State, m: Item, rest: seq<Item>)
    requires st.status != Running
    ensures RunItems(host, TakeItem(host, st, m), rest) == st
  {
    RunStopped(host, st, rest);
  }

  lemma TooDeep(host: Host, st: State, id: Id, c: seq<nat>)
    requires Settled(st) && id !in st.blocks && |st.blocks| >= MAX_BLOCK_NESTING
    ensures TakeItem(host, st, Marker(id, c)).status == Failed(NestedTooDeep)
  {
  }

  /** The rest of the stream, from where a first stretch led. */
  lemma {:induction false} DescendsOn(host: Host, st: State, p: Parsed, f: Flow)
    requires Settled(st) && st.draining == None && Proper(f, st.blocks)
    ensures var after := Advance(st, p);
      match Prepend(p.absorbed, Parse(host, p.store, p.asked, |st.blocks|, p.writer, f))
      case Err(e) => RunItems(host, after, Items(f)).status == Failed(e)
      case Ok(q) => RunItems(host, after, Items(f)) == Advance(st, q)
    decreases f, 1
  {
    AdvanceSettled(st, p);
    var after := Advance(st, p);
    assert after == after.(store := p.store, asked := p.asked, blocks := st.blocks, draining := None);
    Descends(host, after, f);
    match Parse(host, p.store, p.asked, |st.blocks|, p.writer, f)
    case Err(_) =>
    case Ok(q) => AdvanceTwice(st, p, q);
  }

  lemma ChunkAdvances(host: Host, st: State, b: bytes)
    requires st.status == Running && st.draining == None
    ensures TakeItem(host, st, Piece(b)) == Advance(st, Parsed(st.store, st.asked, Write(Current(st), b), b))
  {
  }

  // ------------------------------------------------------------------ held blocks

  lemma HeldStarts(host: Host, st: State, id: Id, c: seq<nat>)
    requires Settled(st) && st.draining == None && id !in st.blocks && id in st.store
    requires |st.blocks| < MAX_BLOCK_NESTING
    ensures var entered := TakeItem(host, st, Marker(id, c));
      && entered == SetCurrent(st, Cut(Current(st), id, c)).(
        blocks := st.blocks + [id], levels := st.levels + 1, asked := Ask(st.asked, id), draining := Some(id))
      && Settled(entered)
  {
    hide FinishAfterDrain, Cut, TakeItem, EndDrain, Layer;
    OpensBlock(host, st, id, c);
    Safety.LayerFinds(st.saving, id);
    var entered := TakeItem(host, st, Marker(id, c));
    assert SavingIds(entered.saving) == SavingIds(st.saving) == st.blocks;
  }

  lemma HeldEnds(host: Host, st: State, id: Id, c: seq<nat>)
    requires Settled(st) && st.draining == Some(id) && st.blocks[|st.blocks| - 1] == id && |st.saving| == |st.blocks| - 1
    ensures var over := TakeItem(host, st, Marker(id, c));
      match LocalCopy(host, st.store, id, |st.saving|)
      case Err(e) => over.status == Failed(e)
      case Ok(b) =>
        over == st.(blocks := st.blocks[..|st.saving|], levels := st.levels - 1, draining := None,
                    saving := Absorb(st.saving, b))
  {
    hide ReadBlock, ItemBytes, TakeItem, Layer;
    EndsBlock(host, st, id, c);
    Safety.LayerFinds(st.saving, id);
    assert id !in SavingIds(st.saving);
    if st.saving == [] { assert st.blocks == [id]; }
  }

  lemma HeldBlock(host: Host, st: State, id: Id, c: seq<nat>, body: Flow)
    requires Settled(st) && st.draining == None && id !in st.blocks && id in st.store
    requires |st.blocks| < MAX_BLOCK_NESTING && Proper(body, st.blocks + [id])
    ensures var over := TakeItem(host, RunItems(host, TakeItem(host, st, Marker(id, c)), Items(body)), Marker(id, c));
      match Drain(st.store, Ask(st.asked, id), |st.blocks| + 1, body)
      case Err(e) => over.status == Failed(e)
      case Ok(asked) =>
        match LocalCopy(host, st.store, id, |st.blocks|)
        case Err(e) => over.status == Failed(e)
        case Ok(b) => over == Advance(st, Parsed(st.store, asked, Cut(Current(st), id, c), b))
  {
    hide TakeItem, Cut, LocalCopy, Stacked, Drain;
    HeldStarts(host, st, id, c);
    StackedLevel(st);
    var entered := TakeItem(host, st, Marker(id, c));
    Drains(host, entered, body);
    var read := RunItems(host, entered, Items(body));
    match Drain(st.store, Ask(st.asked, id), |st.blocks| + 1, body)
    case Err(_) => StopHere(host, read, Marker(id, c), []);
    case Ok(asked) =>
      SettledAsking(entered, asked);
      HeldEnds(host, read, id, c);
      assert (st.blocks + [id])[..|st.saving|] == st.blocks;
  }

  // ----------------------------------------------------------------- saved blocks

  lemma SavedStarts(host: Host, st: State, id: Id, c: seq<nat>)
    requires Settled(st) && st.draining == None && id !in st.blocks && id !in st.store
    requires |st.blocks| < MAX_BLOCK_NESTING
    ensures var entered := TakeItem(host, st, Marker(id, c));
      && entered == Entered(st, id, c)
      && Settled(entered) && entered.draining == None && Current(entered) == EMPTY
  {
    hide FinishAfterDrain, Cut, TakeItem, EndDrain, Layer;
    OpensBlock(host, st, id, c);
    Safety.LayerFinds(st.saving, id);
    var entered := TakeItem(host, st, Marker(id, c));
    assert SavingIds(st.saving) == st.blocks;
    assert SavingIds(entered.saving) == st.blocks + [id];
  }

  /** A block that is not held is being saved. */
  function Entered(st: State, id: Id, c: seq<nat>): State {
    var cut := SetCurrent(st, Cut(Current(st), id, c));
    cut.(blocks := st.blocks + [id], levels := st.levels + 1, saving := cut.saving + [Open(id, EMPTY, [])])
  }

  /** The end marker of the innermost saved block finishes that block, and nothing else. */
  lemma InnermostEnds(host: Host, st: State, id: Id, c: seq<nat>)
    requires Settled(st) && st.draining == None && st.saving != [] && st.blocks[|st.blocks| - 1] == id
    ensures var over := TakeItem(host, st, Marker(id, c)); var finished := FinishBlock(host, st);
      && (finished.status.Failed? ==> over.status == finished.status)
      && (!finished.status.Failed? ==>
        over == finished.(blocks := st.blocks[..|st.blocks| - 1], levels := st.levels - 1))
  {
    hide FinishBlock, TakeItem, Layer;
    var n := |st.saving| - 1;
    EndsBlock(host, st, id, c);
    assert SavingIds(st.saving) == st.blocks;
    Safety.LayerFinds(st.saving, id);
    var popped := st.(blocks := st.blocks[..n]);
    if n == 0 {
      FinishOne(host, st, popped.(levels := 0), 0);
      assert FinishAfterDrain(host, popped.(levels := 0), 0) == FinishDownTo(host, popped.(levels := 0), 0);
    } else {
      FinishOne(host, st, popped, n);
      assert FinishAfterDrain(host, popped, n) == FinishDownTo(host, popped, n);
    }
  }

  /** Finishing the innermost block alone does not look at the stack. */
  lemma FinishOne(host: Host, st: State, st': State, k: nat)
    requires |st.saving| == k + 1 && st.status == Running
    requires st' == st.(blocks := st'.blocks, levels := st'.levels)
    ensures var finished, over := FinishBlock(host, st), FinishDownTo(host, st', k);
      && (finished.status.Failed? ==> over.status == finished.status)
      && (!finished.status.Failed? ==> over == finished.(blocks := st'.blocks, levels := st'.levels))
      && (!finished.status.Failed? ==> finished == st.(saving := finished.saving, store := finished.store))
  {
    hide Publish, StoredForm, Close;
  }

  /** Inside a block being saved, after a stretch that stood for `p`. */
  lemma InsideSaved(st: State, id: Id, c: seq<nat>, p: Parsed)
    requires Settled(st) && st.draining == None && id !in st.blocks
    ensures var inside := Advance(Entered(st, id, c), p); var around := SetCurrent(st, Cut(Current(st), id, c));
      && inside == around.(
        store := p.store, asked := p.asked, blocks := st.blocks + [id], levels := st.levels + 1,
        saving := Absorb(around.saving, p.absorbed) + [Open(id, p.writer, p.absorbed)])
      && Settled(inside)
  {
    hide Cut;
    var inside := Advance(Entered(st, id, c), p);
    var around := SetCurrent(st, Cut(Current(st), id, c));
    var saving := Absorb(around.saving, p.absorbed) + [Open(id, p.writer, p.absorbed)];
    assert |inside.saving| == |saving|;
    assert forall i | 0 <= i < |saving| :: inside.saving[i] == saving[i];
    assert inside.saving == saving;
    assert SavingIds(st.saving) == st.blocks;
    assert SavingIds(inside.saving) == st.blocks + [id];
  }

  lemma FinishSaved(host: Host, st: State, id: Id, c: seq<nat>, w: Writer, p: Parsed)
    requires st.saving != [] && st.saving[|st.saving| - 1] == Open(id, p.writer, p.absorbed) && st.store == p.store
    requires st.status == Running
    ensures match Saved(host, id, c, w, p)
            case Err(e) => FinishBlock(host, st).status == Failed(e)
            case Ok(q) =>
              && FinishBlock(host, st) == st.(saving := st.saving[..|st.saving| - 1], store := q.store)
              && q == Parsed(q.store, p.asked, Cut(w, id, c), p.absorbed)
  {
    hide Cut, Publish, StoredForm, Close;
  }

  lemma SavedEnds(host: Host, st: State, id: Id, c: seq<nat>, p: Parsed)
    requires Settled(st) && st.draining == None && id !in st.blocks
    ensures var over := TakeItem(host, Advance(Entered(st, id, c), p), Marker(id, c));
      match Saved(host, id, c, Current(st), p)
      case Err(e) => over.status == Failed(e)
      case Ok(q) => over == Advance(st, q)
  {
    hide Cut, Saved, FinishBlock, TakeItem, Entered, Stacked;
    var n := |st.saving|;
    var inside := Advance(Entered(st, id, c), p);
    var around := SetCurrent(st, Cut(Current(st), id, c));
    InsideSaved(st, id, c, p);
    FinishSaved(host, inside, id, c, Current(st), p);
    InnermostEnds(host, inside, id, c);
    assert inside.saving[..n] == Absorb(around.saving, p.absorbed);
    assert inside.blocks[..n] == st.blocks by { StackedLevel(st); }
  }

  lemma StackedLevel(st: State)
    requires Stacked(st) && st.draining == None
    ensures |st.saving| == |st.blocks|
  {
  }
}
