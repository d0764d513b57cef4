/**
  The sender's skip filter: it drops the body of every block the peer has asked it to
  skip, wherever in the stream the request lands.
  */
module Filters {
  import opened Bytes
  import opened Documents
  import opened Layouts
  import opened Reader
  import opened Receiver
  import opened Descent
  import Safety

  /**
    `skip_requested_blocks` between two items: the open blocks, whether the start marker of
    each went out, and the depth being skipped. `due` is the pause in a start marker's
    `yield`: the peer's requests are looked at when the generator is resumed.
    */
  datatype Filter = Filter(stack: seq<Id>, sent: seq<bool>, skippingAt: Option<nat>, due: bool)

  const IDLE := Filter([], [], None, false)

  /**
    What happens to the filter. The answer is what `outermost_skipped` returned; other
    threads add requests while it looks, so any requested open block may be the answer,
    and none may be.
    */
  datatype Event = Consult(answer: Option<nat>) | Pull(item: Item, answer: Option<nat>)

  /** The marker is that of the innermost open block. */
  predicate Ending(st: State, id: Id) {
    st.blocks != [] && st.blocks[|st.blocks| - 1] == id
  }

  predicate Ends(fs: Filter, id: Id) {
    fs.stack != [] && fs.stack[|fs.stack| - 1] == id
  }

  function PullMarker(fs: Filter, id: Id): Filter
    requires |fs.sent| == |fs.stack|
  {
    if Ends(fs, id) then
      var n := |fs.stack|;
      Filter(fs.stack[..n - 1], fs.sent[..n - 1], if fs.skippingAt == Some(n) then None else fs.skippingAt, false)
    else
      Filter(fs.stack + [id], fs.sent + [fs.skippingAt.None?], fs.skippingAt, fs.skippingAt.None?)
  }

  function Next(fs: Filter, ev: Event): Filter
    requires |fs.sent| == |fs.stack|
  {
    match ev
    case Consult(answer) => fs.(skippingAt := answer, due := false)
    case Pull(Marker(id, _), _) => PullMarker(fs, id)
    case Pull(Piece(_), answer) => if fs.skippingAt.None? then fs.(skippingAt := answer) else fs
  }

  /** Whether the item goes out. */
  predicate Emits(fs: Filter, item: Item, answer: Option<nat>)
    requires |fs.sent| == |fs.stack|
  {
    match item
    case Marker(id, _) => if Ends(fs, id) then fs.sent[|fs.sent| - 1] else fs.skippingAt.None?
    case Piece(_) => fs.skippingAt.None? && answer.None?
  }

  function Out(fs: Filter, ev: Event): seq<Item>
    requires |fs.sent| == |fs.stack|
  {
    match ev
    case Consult(_) => []
    case Pull(item, answer) => if Emits(fs, item, answer) then [item] else []
  }

  /** Who asks when: a due answer first, and answers name open blocks. */
  predicate Fits(fs: Filter, ev: Event) {
    && |fs.sent| == |fs.stack|
    && (ev.Consult? <==> fs.due)
    && (ev.answer.Some? ==> 0 < ev.answer.value <= |fs.stack|)
  }

  // ---------------------------------------------------- the receiver on both streams

  /**
    The filter, a receiver that is given everything the filter takes, and one that is
    given everything the filter lets out.
    */
  datatype Lock = Lock(filter: Filter, plain: State, filtered: State)

  function Step(host: Host, l: Lock, ev: Event): Lock
    requires Fits(l.filter, ev)
  {
    Lock(Next(l.filter, ev),
         if ev.Pull? then TakeItem(host, l.plain, ev.item) else l.plain,
         RunItems(host, l.filtered, Out(l.filter, ev)))
  }

  /** An answer names a block the receiver, given all that went out, has asked to skip. */
  predicate Causal(l: Lock, ev: Event) {
    && Fits(l.filter, ev)
    && (ev.answer.Some? ==> l.filter.stack[ev.answer.value - 1] in l.filtered.asked)
  }

  /** The same state, but for what is open inside a drained block and what was asked for. */
  ghost predicate Same(plain: State, filtered: State) {
    plain == filtered.(asked := plain.asked, blocks := plain.blocks, levels := plain.levels)
  }

  ghost predicate Broken(st: State) {
    st.status == Failed(IntersectionError) || st.status == Failed(NestedTooDeep)
  }

  /** The first blocks of the stack are open at the receiver; the skipped one is drained there. */
  ghost predicate InStep(fs: Filter, plain: State, filtered: State) {
    && Settled(plain) && Settled(filtered)
    && plain.blocks == fs.stack && |fs.sent| == |fs.stack|
    && filtered.blocks <= fs.stack
    && (forall i | 0 <= i < |fs.stack| :: fs.sent[i] <==> i < |filtered.blocks|)
    && match fs.skippingAt
       case None => filtered.blocks == fs.stack
       case Some(d) => |filtered.saving| < d <= |filtered.blocks| && !fs.due
  }

  ghost predicate Locked(host: Host, l: Lock) {
    && Good(host, l.plain) && Good(host, l.filtered)
    && |l.filter.sent| == |l.filter.stack|
    && (!Broken(l.plain) ==>
      && Same(l.plain, l.filtered)
      && (l.plain.status == Running ==> InStep(l.filter, l.plain, l.filtered)))
  }

  lemma {:induction false} FinishAside(host: Host, st: State, asked: seq<Id>, k: nat)
    ensures FinishDownTo(host, st.(asked := asked), k) == FinishDownTo(host, st, k).(asked := asked)
    decreases |st.saving|
  {
    hide Publish, StoredForm, Close;
    if |st.saving| > k {
      var over := FinishBlock(host, st);
      if over.status == Running { FinishAside(host, over, asked, k); }
    }
  }

  lemma FinishAfterDrainAside(host: Host, st: State, asked: seq<Id>, k: nat)
    ensures FinishAfterDrain(host, st.(asked := asked), k) == FinishAfterDrain(host, st, k).(asked := asked)
  {
    hide FinishDownTo, ReadBlock, ItemBytes;
    FinishAside(host, EndDrain(host, st), asked, k);
  }

  lemma YieldAside(host: Host, st: State, asked: seq<Id>, id: Id, c: seq<nat>)
    ensures Yield(host, st.(asked := asked), id, c, None) == Yield(host, st, id, c, None).(asked := asked)
  {
    hide FinishAfterDrain, EndDrain, StartBlock, Layer;
    DrainAside(host, st, asked);
    StartAside(st, asked, id, c);
    match Layer(st.saving, id)
    case Some(k) => FinishAfterDrainAside(host, st, asked, k);
    case None =>
  }

  lemma DrainAside(host: Host, st: State, asked: seq<Id>)
    ensures EndDrain(host, st.(asked := asked)) == EndDrain(host, st).(asked := asked)
  {
    hide ReadBlock, ItemBytes;
  }

  lemma StartAside(st: State, asked: seq<Id>, id: Id, c: seq<nat>)
    ensures StartBlock(st.(asked := asked), id, c) == StartBlock(st, id, c).(asked := asked)
  {
    hide Cut;
  }

  lemma BreakAside(host: Host, st: State, asked: seq<Id>)
    requires st.outer == None
    ensures Break(host, st.(asked := asked)) == Break(host, st).(asked := asked)
  {
    hide FinishAfterDrain, FallThrough;
    FinishAfterDrainAside(host, st.(levels := 0), asked, 0);
  }

  /** Ending a block does not look at what was asked for. */
  lemma EndAside(host: Host, st: State, asked: seq<Id>, id: Id, c: seq<nat>)
    requires Settled(st) && Ending(st, id)
    ensures TakeItem(host, st.(asked := asked), Marker(id, c)) == TakeItem(host, st, Marker(id, c)).(asked := asked)
  {
    hide Yield, Break, TakeItem, Stacked;
    var popped := st.(blocks := st.blocks[..|st.blocks| - 1]);
    EndsBlock(host, st, id, c);
    EndsBlock(host, st.(asked := asked), id, c);
    YieldAside(host, popped, asked, id, c);
    BreakAside(host, popped, asked);
    YieldKeepsOuter(host, popped, id, c);
    BreakAside(host, Yield(host, popped, id, c, None), asked);
  }

  lemma YieldKeepsOuter(host: Host, st: State, id: Id, c: seq<nat>)
    requires st.outer == None
    ensures Yield(host, st, id, c, None).outer == None
  {
    hide FinishDownTo, ReadBlock, ItemBytes, Layer, Cut;
    match Layer(st.saving, id)
    case Some(k) => FinishKeepsOuter(host, EndDrain(host, st), k);
    case None =>
  }

  lemma {:induction false} FinishKeepsOuter(host: Host, st: State, k: nat)
    ensures FinishDownTo(host, st, k).outer == st.outer
    decreases |st.saving|
  {
    hide Publish, StoredForm, Close;
    if |st.saving| > k && FinishBlock(host, st).status == Running { FinishKeepsOuter(host, FinishBlock(host, st), k); }
  }

  /** Items leave a running receiver settled, as deep in the stream as its stack says. */
  lemma EndSettles(host: Host, st: State, id: Id, c: seq<nat>)
    requires Settled(st) && Ending(st, id)
    ensures var after := TakeItem(host, st, Marker(id, c));
      after.status == Running ==> Settled(after) && after.blocks == st.blocks[..|st.blocks| - 1]
  {
    hide TakeItem, FinishBlock, LocalCopy;
    var n := |st.blocks| - 1;
    if st.draining == None {
      InnermostEnds(host, st, id, c);
      var finished := FinishBlock(host, st);
      if !finished.status.Failed? {
        FinishBlockAside(host, st);
        assert SavingIds(finished.saving) == st.blocks[..n];
      }
    } else if |st.saving| == n {
      HeldEnds(host, st, id, c);
      var after := TakeItem(host, st, Marker(id, c));
      if after.status == Running { assert SavingIds(after.saving) == SavingIds(st.saving); }
    } else {
      StillDrained(host, st, id, c);
    }
  }

  lemma FinishBlockAside(host: Host, st: State)
    requires st.saving != [] && !FinishBlock(host, st).status.Failed?
    ensures var after := FinishBlock(host, st);
      after == st.(saving := st.saving[..|st.saving| - 1], store := after.store)
  {
    hide Publish, StoredForm, Close;
  }

  // ------------------------------------------------------------------- the lock

  lemma AnswerIsDrained(host: Host, fs: Filter, st: State, d: nat)
    requires Good(host, st) && Settled(st) && st.blocks == fs.stack
    requires 0 < d <= |fs.stack| && fs.stack[d - 1] in st.asked
    ensures |st.saving| < d && st.draining.Some?
  {
    hide Sound, Hashing;
    forall i | 0 <= i < |st.saving| ensures st.blocks[i] !in st.store {
      assert SavingIds(st.saving)[i] == st.blocks[i];
    }
  }

  lemma ConsultKeeps(host: Host, l: Lock, ev: Event)
    requires Locked(host, l) && Causal(l, ev) && ev.Consult?
    ensures Locked(host, Step(host, l, ev))
  {
    hide Good;
    if !Broken(l.plain) && l.plain.status == Running && ev.answer.Some? {
      AnswerIsDrained(host, l.filter, l.filtered, ev.answer.value);
    }
  }

  lemma PieceKeeps(host: Host, l: Lock, b: bytes, answer: Option<nat>)
    requires Locked(host, l) && Causal(l, Pull(Piece(b), answer))
    ensures Locked(host, Step(host, l, Pull(Piece(b), answer)))
  {
    hide Good, Stacked;
    var ev := Pull(Piece(b), answer);
    var next := Step(host, l, ev);
    RunOne(host, l.filtered, Piece(b));
    Safety.ItemKeeps(host, l.plain, Piece(b));
    Safety.ItemKeeps(host, l.filtered, Piece(b));
    if !Broken(l.plain) && l.plain.status == Running {
      if l.filter.skippingAt.None? && answer.Some? {
        AnswerIsDrained(host, l.filter, l.filtered, answer.value);
      }
      SkippedIsDrained(next.filter, l.filtered);
      ChunkSettles(l.plain, b);
      ChunkSettles(l.filtered, b);
    }
  }

  lemma RunOne(host: Host, st: State, item: Item)
    ensures RunItems(host, st, [item]) == TakeItem(host, st, item)
  {
    hide TakeItem;
    assert [item][1..] == [];
  }

  lemma SkippedIsDrained(fs: Filter, st: State)
    requires Stacked(st) && (fs.skippingAt.Some? ==> |st.saving| < fs.skippingAt.value <= |st.blocks|)
    ensures fs.skippingAt.Some? ==> st.draining.Some?
  {
  }

  lemma ChunkSettles(st: State, b: bytes)
    requires Settled(st)
    ensures var after := TakeChunk(st, b);
      && Settled(after) && |after.saving| == |st.saving|
      && after == st.(top := after.top, saving := after.saving)
      && (st.draining.Some? ==> after == st)
  {
    var after := TakeChunk(st, b);
    assert SavingIds(after.saving) == SavingIds(st.saving);
  }

  /** The end marker of a block whose start went out, or of one the filter swallowed whole. */
  lemma EndKeeps(host: Host, l: Lock, id: Id, c: seq<nat>, answer: Option<nat>)
    requires Locked(host, l) && Causal(l, Pull(Marker(id, c), answer))
    requires !Broken(l.plain) && l.plain.status == Running && Ends(l.filter, id)
    ensures Locked(host, Step(host, l, Pull(Marker(id, c), answer)))
  {
    hide Good, Stacked, TakeItem, Yield;
    var fs, n := l.filter, |l.filter.stack|;
    var next := Step(host, l, Pull(Marker(id, c), answer));
    RunOne(host, l.filtered, Marker(id, c));
    MarkerIsGood(host, l.plain, id, c);
    MarkerIsGood(host, l.filtered, id, c);
    SkippedIsDrained(fs, l.filtered);
    if fs.sent[n - 1] {
      assert l.filtered.blocks == fs.stack;
      EndAside(host, l.plain, l.filtered.asked, id, c);
      assert l.filtered == l.plain.(asked := l.filtered.asked);
      EndSettles(host, l.plain, id, c);
      if next.plain.status == Running {
        SettledAside(next.plain, next.filtered);
        if fs.skippingAt.Some? && fs.skippingAt.value < n {
          StillDrained(host, l.plain, id, c);
        }
      }
    } else {
      StillDrained(host, l.plain, id, c);
    }
  }

  lemma MarkerIsGood(host: Host, st: State, id: Id, c: seq<nat>)
    requires Good(host, st)
    ensures Good(host, TakeItem(host, st, Marker(id, c)))
  {
    Safety.ItemKeeps(host, st, Marker(id, c));
  }

  lemma SettledAside(st: State, st': State)
    requires Settled(st) && st' == st.(asked := st'.asked)
    ensures Settled(st')
  {
  }

  /** The end of a block opened inside a drained one changes only the stack. */
  lemma StillDrained(host: Host, st: State, id: Id, c: seq<nat>)
    requires Settled(st) && st.draining.Some? && |st.saving| < |st.blocks| - 1 && Ending(st, id)
    ensures var before := st.(blocks := st.blocks[..|st.blocks| - 1], levels := st.levels - 1);
      TakeItem(host, st, Marker(id, c)) == before && Settled(before)
  {
    hide TakeItem;
    var before := st.(blocks := st.blocks[..|st.blocks| - 1], levels := st.levels - 1);
    assert before.blocks[..|st.saving|] == st.blocks[..|st.saving|];
    assert st.blocks == before.blocks + [id];
    DrainLeaves(host, before, st, id, c);
  }

  lemma StartKeeps(host: Host, l: Lock, id: Id, c: seq<nat>, answer: Option<nat>)
    requires Locked(host, l) && Causal(l, Pull(Marker(id, c), answer))
    requires !Broken(l.plain) && l.plain.status == Running && !Ends(l.filter, id)
    ensures Locked(host, Step(host, l, Pull(Marker(id, c), answer)))
  {
    hide Good, Stacked, TakeItem;
    var fs := l.filter;
    var next := Step(host, l, Pull(Marker(id, c), answer));
    RunOne(host, l.filtered, Marker(id, c));
    MarkerIsGood(host, l.plain, id, c);
    MarkerIsGood(host, l.filtered, id, c);
    SkippedIsDrained(fs, l.filtered);
    if id in fs.stack || |fs.stack| >= MAX_BLOCK_NESTING {
      Breaks(host, l.plain, id, c);
    } else if fs.skippingAt.None? {
      Enters(host, l.plain, id, c);
      Enters(host, l.filtered, id, c);
    } else {
      DrainEnters(host, l.plain, id, c);
    }
  }

  lemma Breaks(host: Host, st: State, id: Id, c: seq<nat>)
    requires st.status == Running && (st.blocks != [] ==> st.blocks[|st.blocks| - 1] != id)
    requires id in st.blocks || |st.blocks| >= MAX_BLOCK_NESTING
    ensures Broken(TakeItem(host, st, Marker(id, c)))
  {
  }

  /** A start marker is saved or drained, and the receiver is settled inside the block. */
  lemma Enters(host: Host, st: State, id: Id, c: seq<nat>)
    requires Settled(st) && id !in st.blocks && |st.blocks| < MAX_BLOCK_NESTING
    ensures var after := TakeItem(host, st, Marker(id, c));
      && Settled(after) && after.blocks == st.blocks + [id]
      && after == (if st.draining.Some? then st else StartBlock(st, id, c)).(
        blocks := after.blocks, levels := after.levels, asked := after.asked)
  {
    hide TakeItem, Cut;
    if st.draining.Some? {
      DrainEnters(host, st, id, c);
    } else if id in st.store {
      HeldStarts(host, st, id, c);
    } else {
      SavedStarts(host, st, id, c);
    }
  }

  /** Every event keeps the two receivers in step. */
  lemma StepKeeps(host: Host, l: Lock, ev: Event)
    requires Locked(host, l) && Causal(l, ev)
    ensures Locked(host, Step(host, l, ev))
  {
    hide Locked, Causal, Step, Fits;
    match ev
    case Consult(_) => ConsultKeeps(host, l, ev);
    case Pull(Piece(b), answer) => PieceKeeps(host, l, b, answer);
    case Pull(Marker(id, c), answer) =>
      if Broken(l.plain) || l.plain.status != Running {
        StoppedKeeps(host, l, ev);
      } else if Ends(l.filter, id) {
        EndKeeps(host, l, id, c, answer);
      } else {
        StartKeeps(host, l, id, c, answer);
      }
  }

  lemma StoppedKeeps(host: Host, l: Lock, ev: Event)
    requires Locked(host, l) && Causal(l, ev) && ev.Pull?
    requires l.plain.status != Running
    ensures Locked(host, Step(host, l, ev))
  {
    hide Good;
    RunOne(host, l.filtered, ev.item);
    Safety.ItemKeeps(host, l.plain, ev.item);
    Safety.ItemKeeps(host, l.filtered, ev.item);
  }
}
