/** What the receiver keeps whatever stream it is fed, well formed or not. */
module Safety {
  import opened Bytes
  import opened Documents
  import opened Layouts
  import opened Stores
  import opened Reader
  import opened Receiver

  // ------------------------------------------------------- recording in a writer

  lemma {:induction false} FillCovered(s: Store, s': Store, es: Directory)
    requires Extends(s, s') && Covered(s, es)
    ensures Covered(s', es) && Fill(es, Contents(s')) == Fill(es, Contents(s))
  {
    if es != [] {
      if es[0].Ref? { ExpansionGrows(s, s', es[0].id); }
      FillCovered(s, s', es[1..]);
      assert es == [es[0]] + es[1..];
    }
  }

  lemma RecordedGrows(s: Store, s': Store, w: Writer, pending: Option<Id>)
    requires Extends(s, s') && Shaped(s, w, pending)
    ensures Shaped(s', w, pending) && Recorded(s', w, pending) == Recorded(s, w, pending)
  {
    hide Fill, Covered, Extends;
    if pending.None? { FillCovered(s, s', w.done); } else { FillCovered(s, s', w.done[..|w.done| - 1]); }
  }

  lemma RecordedWrite(s: Store, w: Writer, b: bytes)
    requires Shaped(s, w, None)
    ensures Shaped(s, Write(w, b), None)
    ensures Recorded(s, Write(w, b), None) == Recorded(s, w, None) + b
  {
  }

  lemma RecordedCut(s: Store, w: Writer, id: Id, chain: seq<nat>)
    requires Shaped(s, w, None)
    ensures Shaped(s, Cut(w, id, chain), Some(id))
    ensures Recorded(s, Cut(w, id, chain), Some(id)) == Recorded(s, w, None)
  {
    var cut := Cut(w, id, chain);
    assert cut.done[..|cut.done| - 1] == w.done + [Part(w.open)];
    FillClose(w, Contents(s));
  }

  /** Once the pending block is there, its expansion joins what is recorded. */
  lemma RecordedArrives(s: Store, w: Writer, id: Id)
    requires Shaped(s, w, Some(id)) && Whole(s, id)
    ensures Shaped(s, w, None)
    ensures Recorded(s, w, None) == Recorded(s, w, Some(id)) + Expansion(s, id)
  {
    var rest, last := w.done[..|w.done| - 1], w.done[|w.done| - 1];
    assert w.done == rest + [last];
    FillAppend(rest, [last], Contents(s));
    assert [last][1..] == [];
  }

  // ----------------------------------------------------------------- the consumers

  lemma ChunkHashes(st: State, b: bytes)
    requires Hashing(st)
    ensures Hashing(TakeChunk(st, b))
  {
    hide Shaped, Recorded, Write;
    if st.draining.None? {
      var n := |st.saving|;
      var after := TakeChunk(st, b);
      RecordedWrite(st.store, WriterAt(st, n), b);
      assert WriterAt(after, n) == Write(WriterAt(st, n), b);
      forall i | 0 <= i <= n
        ensures Pending(after, i) == Pending(st, i)
        ensures i < n ==> WriterAt(after, i) == WriterAt(st, i)
      {
      }
      forall i | 0 < i <= n
        ensures after.saving[i - 1].absorbed == Recorded(after.store, WriterAt(after, i), Pending(after, i)) + Inner(after, i)
      {
        Assoc(Recorded(st.store, WriterAt(st, i), Pending(st, i)), Inner(st, i), b);
      }
    }
  }

  lemma Assoc(a: bytes, b: bytes, c: bytes)
    ensures (a + b) + c == a + (b + c)
    ensures a + [] == a
  {
  }

  /** What `StartBlock` does to the writers, and to what is still coming for them. */
  lemma StartWriters(st: State, id: Id, chain: seq<nat>, i: nat)
    requires st.draining == None && i <= |StartBlock(st, id, chain).saving|
    ensures var after := StartBlock(st, id, chain); var n := |st.saving|;
      && after.store == st.store && |after.saving| == (if id in st.store then n else n + 1)
      && (i < n ==>
            WriterAt(after, i) == WriterAt(st, i) && Pending(after, i) == Pending(st, i) && Inner(after, i) == Inner(st, i))
      && (i == n ==>
            WriterAt(after, i) == Cut(WriterAt(st, i), id, chain) && Pending(after, i) == Some(id) && Inner(after, i) == [])
      && (i == n + 1 ==> WriterAt(after, i) == EMPTY && Pending(after, i) == None && Inner(after, i) == [])
      && (0 < i <= n ==> after.saving[i - 1].absorbed == st.saving[i - 1].absorbed)
      && (i == n + 1 ==> after.saving[i - 1].absorbed == [])
  {
    hide Cut;
  }

  lemma StartHashes(st: State, id: Id, chain: seq<nat>)
    requires Hashing(st) && st.draining == None
    ensures Hashing(StartBlock(st, id, chain))
  {
    hide Shaped, Recorded, Cut, StartBlock, WriterAt, Pending, Inner;
    var n := |st.saving|;
    var after := StartBlock(st, id, chain);
    StartWriters(st, id, chain, 0);
    StillHashes(st);
    RecordedCut(st.store, WriterAt(st, n), id, chain);
    EmptyShaped(st.store);
    forall i | 0 <= i <= |after.saving|
      ensures Shaped(after.store, WriterAt(after, i), Pending(after, i))
    {
      StartWriters(st, id, chain, i);
    }
    forall i | 0 < i <= |after.saving|
      ensures after.saving[i - 1].absorbed == Recorded(after.store, WriterAt(after, i), Pending(after, i)) + Inner(after, i)
    {
      StartWriters(st, id, chain, i);
      if i == n { Assoc(Recorded(st.store, WriterAt(st, n), None), [], []); }
    }
  }

  /** Nothing is coming for the innermost writer. */
  lemma StillHashes(st: State)
    requires st.draining == None
    ensures Pending(st, |st.saving|) == None && Inner(st, |st.saving|) == []
  {
  }

  lemma EmptyShaped(s: Store)
    ensures Shaped(s, EMPTY, None) && Recorded(s, EMPTY, None) == []
  {
  }

  lemma AbsorbNone(saving: seq<Open>)
    ensures saving == [] ==> forall b :: Absorb(saving, b) == saving
  {
  }

  /** The bytes of a block that is over join those of the blocks around it. */
  lemma DrainKeeps(host: Host, st: State)
    requires Sound(host.env, st.store) && Hashing(st)
    requires st.draining.Some? ==> st.draining.value in st.store
    requires EndDrain(host, st).status == Running
    ensures Hashing(EndDrain(host, st)) && EndDrain(host, st).draining == None
  {
    hide Shaped, Recorded, ReadBlock, ItemBytes;
    if st.draining.Some? {
      var id := st.draining.value;
      var n := |st.saving|;
      var after := EndDrain(host, st);
      RecordedArrives(st.store, WriterAt(st, n), id);
      if n > 0 { StreamedIsMeasured(host.env, st.store, id, true, 1); }
      AbsorbNone(st.saving);
      DrainedHashes(st, id);
    }
  }

  /** Every hasher around a drained block has absorbed its expansion. */
  lemma DrainedHashes(st: State, id: Id)
    requires Hashing(st) && st.draining == Some(id)
    requires var w := WriterAt(st, |st.saving|);
      Shaped(st.store, w, None) && Recorded(st.store, w, None) == Recorded(st.store, w, Some(id)) + Expansion(st.store, id)
    ensures Hashing(st.(draining := None, saving := Absorb(st.saving, Expansion(st.store, id))))
  {
    hide Shaped, Recorded, Expansion;
    var n, after := |st.saving|, st.(draining := None, saving := Absorb(st.saving, Expansion(st.store, id)));
    forall i | 0 <= i <= n
      ensures WriterAt(after, i) == WriterAt(st, i) && (i < n ==> Pending(after, i) == Pending(st, i))
    {
    }
    forall i | 0 < i <= n
      ensures after.saving[i - 1].absorbed == Recorded(after.store, WriterAt(after, i), Pending(after, i)) + Inner(after, i)
    {
      Assoc(Recorded(st.store, WriterAt(st, i), Pending(st, i)), Inner(st, i), Expansion(st.store, id));
      if i == n { Assoc(Recorded(st.store, WriterAt(st, n), None), [], []); }
    }
  }

  /** A finished block is stored with all it references, under the hash of its expansion. */
  lemma PublishKeeps(s: Store, id: Id, w: Writer)
    requires Covered(s, w.done) && id !in s
    ensures var s' := s[id := StoredForm(w)];
      Extends(s, s') && Whole(s', id) &&  Expansion(s', id) == FillWriter(w, Contents(s)) && s'.Keys == s.Keys + {id}
  {
    var s' := s[id := StoredForm(w)];
    FillCovered(s, s', w.done);
    assert Close(w) == if w.done == [] then [Part(w.open)] else Close(w);
    assert Covered(s', Close(w));
    var f := CoveredRealizes(s', Close(w));
    assert Unfolds(s', id, f);
    ExpansionIs(s', id, f);
    FlowFills(s', Close(w), f);
    FillClose(w, Contents(s'));
  }

  lemma SoundGrows(env: Environment, s: Store, s': Store, id: Id)
    requires Sound(env, s) && Extends(s, s') && s'.Keys == s.Keys + {id}
    requires Whole(s', id) && env.hash(Expansion(s', id)) == id
    ensures Sound(env, s')
  {
    forall x | x in s' ensures Whole(s', x) && env.hash(Expansion(s', x)) == x {
      if x != id { ExpansionGrows(s, s', x); }
    }
  }

  /** What any part of a step does to the store. */
  ghost predicate Safe(host: Host, st: State, after: State) {
    && Extends(st.store, after.store) && Sound(host.env, after.store)
    && after.asked == st.asked
    && (after.status == Running ==> Steady(host, after))
    && (after.status == Finished ==> Covered(after.store, after.top.done))
  }

  lemma SafeThen(host: Host, st: State, mid: State, after: State)
    requires Safe(host, st, mid) && Safe(host, mid, after)
    ensures Safe(host, st, after)
  {
    hide Sound, Steady, Covered;
  }

  /** Neither the store nor the hashers depend on how many iterators are active. */
  lemma LevelsAside(host: Host, st: State, st': State)
    requires Steady(host, st)
    requires st' == st.(levels := st'.levels, blocks := st'.blocks, asked := st'.asked, outer := st'.outer)
    ensures Steady(host, st')
  {
    hide Shaped, Recorded, Sound;
    forall i | 0 <= i <= |st.saving|
      ensures WriterAt(st', i) == WriterAt(st, i) && Pending(st', i) == Pending(st, i) && Inner(st', i) == Inner(st, i)
    {
    }
  }

  lemma ChunkKeeps(host: Host, st: State, b: bytes)
    requires Steady(host, st) && st.status == Running
    ensures Safe(host, st, TakeChunk(st, b)) && TakeChunk(st, b).status == Running
  {
    hide Sound, Hashing, Write;
    ChunkHashes(st, b);
    assert SavingIds(TakeChunk(st, b).saving) == SavingIds(st.saving);
  }

  lemma ExtraKeeps(host: Host, st: State, chunk: Option<bytes>)
    requires Steady(host, st) && st.status == Running
    ensures Safe(host, st, Extra(st, chunk)) && Extra(st, chunk).status == Running
  {
    hide Steady, Sound, TakeChunk;
    if chunk.Some? { ChunkKeeps(host, st, chunk.value); } else { IdleKeeps(host, st); }
  }

  lemma IdleKeeps(host: Host, st: State)
    requires Steady(host, st) && st.status == Running
    ensures Safe(host, st, st)
  {
  }

  lemma StartKeeps(host: Host, st: State, id: Id, chain: seq<nat>)
    requires Steady(host, st) && st.status == Running && st.draining == None && id !in SavingIds(st.saving)
    ensures Safe(host, st, StartBlock(st, id, chain)) && StartBlock(st, id, chain).status == Running
  {
    hide Sound, Hashing, Cut;
    StartHashes(st, id, chain);
    var after := StartBlock(st, id, chain);
    assert SavingIds(after.saving) == if id in st.store then SavingIds(st.saving) else SavingIds(st.saving) + [id];
  }

  lemma FinishKeeps(host: Host, st: State)
    requires Steady(host, st) && st.saving != [] && st.draining == None && st.status == Running
    ensures var after := FinishBlock(host, st);
      && Safe(host, st, after)
      && (!after.status.Failed? ==> after == st.(saving := after.saving, store := after.store))
  {
    hide Shaped, Recorded, Whole, Expansion, StoredForm, Close, Sound;
    var after := FinishBlock(host, st);
    var n := |st.saving|;
    var open := st.saving[n - 1];
    if !after.status.Failed? {
      LastAbsorbed(st);
      PublishKeeps(st.store, open.id, open.writer);
      SoundGrows(host.env, st.store, after.store, open.id);
      forall i | 0 <= i < n
        ensures Shaped(after.store, WriterAt(after, i), Pending(after, i))
        ensures 0 < i ==>
          after.saving[i - 1].absorbed == Recorded(after.store, WriterAt(after, i), Pending(after, i)) + Inner(after, i)
      {
        RecordedGrows(st.store, after.store, WriterAt(st, i), Pending(st, i));
        if i == n - 1 {
          RecordedArrives(after.store, WriterAt(st, i), open.id);
          Assoc(Recorded(after.store, WriterAt(after, i), None), [], []);
        }
      }
      forall i | 0 <= i < n - 1 ensures after.saving[i].id !in after.store {
        assert SavingIds(st.saving)[i] != SavingIds(st.saving)[n - 1];
      }
      DistinctPrefix(SavingIds(st.saving), SavingIds(after.saving));
    }
  }

  lemma DistinctPrefix(ids: seq<Id>, first: seq<Id>)
    requires Distinct(ids) && first <= ids
    ensures Distinct(first)
  {
  }

  lemma LastAbsorbed(st: State)
    requires Hashing(st) && st.saving != [] && st.draining == None
    ensures var open := st.saving[|st.saving| - 1];
      Covered(st.store, open.writer.done) && open.absorbed == FillWriter(open.writer, Contents(st.store))
  {
    var n := |st.saving|;
    assert Pending(st, n) == None && Inner(st, n) == [];
    assert WriterAt(st, n) == st.saving[n - 1].writer;
    Assoc(Recorded(st.store, WriterAt(st, n), None), [], []);
  }

  lemma {:induction false} FinishDownToKeeps(host: Host, st: State, k: nat)
    requires Steady(host, st) && st.draining == None && st.status == Running && k <= |st.saving|
    ensures var after := FinishDownTo(host, st, k);
      && Safe(host, st, after)
      && (!after.status.Failed? ==> after == st.(saving := st.saving[..k], store := after.store))
    decreases |st.saving|
  {
    hide Sound, Hashing, Fresh, FinishBlock;
    if |st.saving| <= k {
      assert st.saving[..k] == st.saving;
    } else {
      FinishKeeps(host, st);
      var over := FinishBlock(host, st);
      if over.status == Running {
        FinishDownToKeeps(host, over, k);
        assert over.saving[..k] == st.saving[..k];
      }
    }
  }

  /** The end of a drain and of the blocks around it. */
  lemma FinishAfterDrainKeeps(host: Host, st: State, k: nat)
    requires Steady(host, st) && st.status == Running && k <= |st.saving|
    ensures var after := FinishAfterDrain(host, st, k);
      && Safe(host, st, after)
      && (!after.status.Failed? ==>
        after == st.(draining := None, saving := after.saving, store := after.store)
        && SavingIds(after.saving) == SavingIds(st.saving)[..k])
  {
    hide Sound, Hashing, FinishDownTo, Distinct, ReadBlock, ItemBytes;
    var over := EndDrain(host, st);
    if over.status == Running {
      DrainKeeps(host, st);
      assert SavingIds(over.saving) == SavingIds(st.saving);
      FinishDownToKeeps(host, over, k);
    }
  }

  lemma ResumeKeeps(host: Host, st: State, over: State)
    requires Safe(host, st, over)
    ensures Safe(host, st, Resume(over))
  {
    hide Steady, Covered;
    if over.status == Running { LevelsAside(host, over, Resume(over)); }
  }

  lemma ExhaustKeeps(host: Host, st: State)
    requires Steady(host, st) && st.status == Running
    ensures var after := Exhaust(host, st);
      && Safe(host, st, after)
      && (after.status == Running ==>
        after.saving == [] && after.draining == None && after.levels == 1 && after.blocks == [] && after.outer == None)
      && (after.status == Finished ==>
        st.saving == [] && st.draining == None && after.store == st.store && after.top == st.top)
  {
    hide Sound, FinishAfterDrain, Close;
    if st.saving == [] && st.draining == None {
      assert Shaped(st.store, WriterAt(st, 0), Pending(st, 0));
    } else {
      var idle := st.(levels := 0);
      LevelsAside(host, st, idle);
      FinishAfterDrainKeeps(host, idle, 0);
      ResumeKeeps(host, idle, FinishAfterDrain(host, idle, 0));
    }
  }

  lemma {:induction false} LayerFinds(saving: seq<Open>, id: Id)
    ensures match Layer(saving, id)
            case None => id !in SavingIds(saving)
            case Some(k) => k < |saving| && saving[k].id == id
  {
    if saving != [] && saving[0].id != id {
      LayerFinds(saving[1..], id);
      assert SavingIds(saving) == [saving[0].id] + SavingIds(saving[1..]);
    }
  }

  lemma NothingToFinish(host: Host, st: State)
    ensures EndDrain(host, st) == FinishAfterDrain(host, st, |st.saving|)
  {
    hide ReadBlock, ItemBytes;
  }

  /** A marker handed on: it ends a block being saved or drained, or starts one, or goes by. */
  lemma YieldKeeps(host: Host, st: State, id: Id, chain: seq<nat>, chunk: Option<bytes>)
    requires Steady(host, st) && st.status == Running
    ensures Safe(host, st, Yield(host, st, id, chain, chunk)) && Yield(host, st, id, chain, chunk).status != Finished
  {
    hide Steady, Sound, FinishAfterDrain, StartBlock, Extra, EndDrain, Layer;
    LayerFinds(st.saving, id);
    match Layer(st.saving, id)
    case Some(k) => TerminatorKeeps(host, st, chunk, k);
    case None =>
      if st.draining == Some(id) {
        NothingToFinish(host, st);
        FinishAfterDrainKeeps(host, st, |st.saving|);
        ResumeKeeps(host, st, EndDrain(host, st));
      } else if st.draining.Some? {
        IdleKeeps(host, st);
      } else {
        StartKeeps(host, st, id, chain);
        var started := StartBlock(st, id, chain);
        ExtraKeeps(host, started, chunk);
        SafeThen(host, st, started, Extra(started, chunk));
      }
  }

  lemma TerminatorKeeps(host: Host, st: State, chunk: Option<bytes>, k: nat)
    requires Steady(host, st) && st.status == Running && k < |st.saving|
    ensures var after := Resume(FinishAfterDrain(host, Extra(st, chunk), k));
      Safe(host, st, after) && after.status != Finished
  {
    hide Steady, Sound, FinishAfterDrain, TakeChunk;
    ExtraKeeps(host, st, chunk);
    var fed := Extra(st, chunk);
    ExtraSaves(st, chunk);
    FinishAfterDrainKeeps(host, fed, k);
    var over := FinishAfterDrain(host, fed, k);
    SafeThen(host, st, fed, over);
    ResumeKeeps(host, st, over);
  }

  lemma ExtraSaves(st: State, chunk: Option<bytes>)
    ensures |Extra(st, chunk).saving| == |st.saving|
  {
  }

  lemma FallThroughKeeps(host: Host, st: State, b: Buffer)
    requires Steady(host, st) && st.status == Running
    ensures Safe(host, st, FallThrough(host, st, b))
  {
    hide Steady, Sound, Yield, Exhaust, TakeChunk;
    match b.chunk
    case None =>
      ExhaustKeeps(host, st);
      IdleKeeps(host, st);
    case Some(c) =>
      var yielded :=
        match b.block
        case None => TakeChunk(st, c)
        case Some(m) => Yield(host, st, m.id, m.chain, Some(c));
      match b.block {
        case None => ChunkKeeps(host, st, c);
        case Some(m) => YieldKeeps(host, st, m.id, m.chain, Some(c));
      }
      if yielded.status == Running {
        ExhaustKeeps(host, yielded);
        SafeThen(host, st, yielded, Exhaust(host, yielded));
      }
  }

  lemma BreakKeeps(host: Host, st: State)
    requires Steady(host, st) && st.status == Running
    ensures Safe(host, st, Break(host, st))
  {
    hide Steady, Sound, Exhaust, FallThrough;
    if st.levels > 2 {
      LevelsAside(host, st, st.(levels := st.levels - 1));
      IdleKeeps(host, st.(levels := st.levels - 1));
    } else if st.levels == 2 && st.outer.Some? {
      var left := st.(levels := 1, outer := None);
      LevelsAside(host, st, left);
      FallThroughKeeps(host, left, st.outer.value);
    } else {
      ExhaustKeeps(host, st);
    }
  }

  /** What a step, a run, and the end of a stream keep. */
  ghost predicate Kept(host: Host, st: State, after: State) {
    && Extends(st.store, after.store)
    && Good(host, after)
    && st.asked <= after.asked
  }

  lemma SafeIsKept(host: Host, st: State, mid: State, after: State)
    requires Asking(mid) && Safe(host, mid, after) && mid.store == st.store && st.asked <= mid.asked
    ensures Kept(host, st, after)
  {
    hide Sound, Steady, Covered, Distinct;
  }

  lemma MarkerKeeps(host: Host, st: State, m: Spot, b: Buffer)
    requires Good(host, st) && st.status == Running
    ensures Kept(host, st, TakeMarker(host, st, m, b))
  {
    hide Sound, Steady, Yield, Break, Covered, Leftover, Asking;
    AskKeeps(st, Fail(st, IntersectionError), m.id);
    AskKeeps(st, Fail(st, NestedTooDeep), m.id);
    if m.id in st.blocks {
      if st.blocks[|st.blocks| - 1] == m.id { EndKeeps(host, st, m, b); }
    } else if |st.blocks| < MAX_BLOCK_NESTING {
      var inside := Enter(st, m, b);
      LevelsAside(host, st, inside);
      AskKeeps(st, inside, m.id);
      YieldKeeps(host, inside, m.id, m.chain, b.chunk);
      SafeIsKept(host, st, inside, TakeMarker(host, st, m, b));
    }
  }

  lemma AskKeeps(st: State, st': State, id: Id)
    requires Asking(st) && st'.store == st.store
    requires st'.asked == st.asked || (st'.asked == Ask(st.asked, id) && id in st.store)
    ensures Asking(st') && st.asked <= st'.asked
  {
  }

  /** The end marker of the innermost open block. */
  lemma EndKeeps(host: Host, st: State, m: Spot, b: Buffer)
    requires Good(host, st) && st.status == Running && st.blocks != [] && st.blocks[|st.blocks| - 1] == m.id
    ensures Kept(host, st, TakeMarker(host, st, m, b))
  {
    hide Sound, Steady, Yield, Break, Covered, Asking;
    var popped := st.(blocks := st.blocks[..|st.blocks| - 1]);
    LevelsAside(host, st, popped);
    AskKeeps(st, popped, m.id);
    if popped.blocks == [] {
      BreakKeeps(host, popped);
      SafeIsKept(host, st, popped, Break(host, popped));
    } else {
      YieldKeeps(host, popped, m.id, m.chain, b.chunk);
      var yielded := Yield(host, popped, m.id, m.chain, b.chunk);
      if yielded.status == Running && yielded.blocks != [] {
        BreakKeeps(host, yielded);
        SafeThen(host, popped, yielded, Break(host, yielded));
        SafeIsKept(host, st, popped, Break(host, yielded));
      } else {
        SafeIsKept(host, st, popped, yielded);
      }
    }
  }

  // -------------------------------------------------------------- steps and runs

  /** Any buffer, in any state: the store and the hashers keep their invariants. */
  lemma TakeKeeps(host: Host, st: State, b: Buffer)
    requires Good(host, st)
    ensures Kept(host, st, Take(host, st, b))
  {
    hide Sound, Steady, TakeMarker, Break, TakeChunk, Covered, Asking;
    if st.status == Running {
      match b.block
      case Some(m) => MarkerKeeps(host, st, m, b);
      case None =>
        ExtraKeeps(host, st, b.chunk);
        var fed := Extra(st, b.chunk);
        BreakKeeps(host, fed);
        SafeThen(host, st, fed, Break(host, fed));
        SafeIsKept(host, st, st, Take(host, st, b));
    }
  }

  lemma ItemKeeps(host: Host, st: State, item: Item)
    requires Good(host, st)
    ensures Kept(host, st, TakeItem(host, st, item))
  {
    hide Good, Take;
    TakeKeeps(host, st, Carry(item));
  }

  lemma {:induction false} RunKeeps(host: Host, st: State, bufs: seq<Buffer>)
    requires Good(host, st)
    ensures Kept(host, st, Run(host, st, bufs))
    decreases |bufs|
  {
    hide Good, Take;
    if bufs != [] {
      TakeKeeps(host, st, bufs[0]);
      RunKeeps(host, Take(host, st, bufs[0]), bufs[1..]);
    }
  }

  /** The end of any stream stops the receiver, with the invariants kept. */
  lemma {:induction false} EndOfStreamKeeps(host: Host, st: State)
    requires Good(host, st)
    ensures Kept(host, st, EndOfStream(host, st)) && EndOfStream(host, st).status != Running
    decreases st.levels
  {
    hide Sound, Steady, Exhaust, Break, Covered, Asking;
    if st.status == Running {
      if st.levels > 1 {
        BreakKeeps(host, st);
        SafeIsKept(host, st, st, Break(host, st));
        if Break(host, st).status == Running { EndOfStreamKeeps(host, Break(host, st)); }
      } else {
        ExhaustKeeps(host, st);
        var over := Exhaust(host, st);
        SafeIsKept(host, st, st, over);
        if over.status == Running {
          ExhaustKeeps(host, over);
          SafeThen(host, st, over, Exhaust(host, over));
          SafeIsKept(host, st, st, Exhaust(host, over));
          ExhaustEnds(host, over);
        }
      }
    }
  }

  lemma ExhaustEnds(host: Host, st: State)
    requires st.saving == [] && st.draining == None
    ensures Exhaust(host, st).status != Running
  {
  }

  /**
    The store invariant, over any stream and however it ends: what was stored stays, every
    stored id is the hash of its expansion, every reference below it is there, and no
    block contains itself. Only blocks that are held were asked for, each once.
    */
  lemma StoreInvariant(host: Host, store: Store, bufs: seq<Buffer>)
    requires Sound(host.env, store)
    ensures forall after | after in [Run(host, Init(store, []), bufs), EndOfStream(host, Run(host, Init(store, []), bufs))] ::
      && Extends(store, after.store)
      && Asking(after)
      && forall id <- after.store ::
        host.env.hash(Expansion(after.store, id)) == id
        && !CycleBelow(after.store, id) && !MissingBelow(after.store, id)
  {
    var st := Init(store, []);
    InitIsGood(host, store);
    RunKeeps(host, st, bufs);
    var run := Run(host, st, bufs);
    EndOfStreamKeeps(host, run);
    forall after, id | after in [run, EndOfStream(host, run)] && id in after.store
      ensures !CycleBelow(after.store, id) && !MissingBelow(after.store, id)
    {
      assert Sound(host.env, after.store);
      WholeIsSound(after.store, id);
    }
  }

  lemma InitIsGood(host: Host, store: Store)
    requires Sound(host.env, store)
    ensures Good(host, Init(store, []))
  {
    EmptyShaped(store);
    var st := Init(store, []);
    assert WriterAt(st, 0) == EMPTY;
  }

  /**
    The running-hash invariant, after any stream: while the receiver runs, the hasher of
    each open block has absorbed the expansion of the entries recorded for it, and then
    what the hasher of the block open inside it has.
    */
  lemma RunningHash(host: Host, store: Store, bufs: seq<Buffer>, i: nat)
    requires Sound(host.env, store)
    ensures var st := Run(host, Init(store, []), bufs);
      st.status == Running && i < |st.saving| ==>
        var w := st.saving[i].writer;
        if i + 1 < |st.saving| then
          |w.done| > 0 && w.done[|w.done| - 1].Ref? && w.done[|w.done| - 1].id == st.saving[i + 1].id
          && st.saving[i].absorbed == Fill(w.done[..|w.done| - 1], Contents(st.store)) + st.saving[i + 1].absorbed
        else if st.draining.Some? then
          |w.done| > 0 && w.done[|w.done| - 1].Ref? && w.done[|w.done| - 1].id == st.draining.value
          && st.saving[i].absorbed == Fill(w.done[..|w.done| - 1], Contents(st.store))
        else st.saving[i].absorbed == FillWriter(w, Contents(st.store))
  {
    InitIsGood(host, store);
    RunKeeps(host, Init(store, []), bufs);
    var st := Run(host, Init(store, []), bufs);
    if st.status == Running && i < |st.saving| {
      assert WriterAt(st, i + 1) == st.saving[i].writer;
      Assoc(Recorded(st.store, WriterAt(st, i + 1), Pending(st, i + 1)), [], []);
    }
  }

  // -------------------------------------------------- a start marker with a chunk

  function Chunked(ds: seq<bytes>): seq<Buffer> {
    if ds == [] then [] else [Carry(Piece(ds[0]))] + Chunked(ds[1..])
  }

  /** Inside an outermost block that the buffer `b` opened, with `x` hashed so far. */
  predicate InOutermost(st: State, b: Buffer, id: Id, x: bytes) {
    && st.status == Running && st.levels == 2 && st.blocks == [id] && st.outer == Some(b)
    && |st.saving| == 1 && st.saving[0].id == id && st.saving[0].absorbed == x
    && st.saving[0].writer.done == [] && st.draining == None
  }

  lemma {:induction false} ChunksAbsorbed(host: Host, st: State, b: Buffer, id: Id, x: bytes, ds: seq<bytes>)
    requires InOutermost(st, b, id, x)
    ensures InOutermost(Run(host, st, Chunked(ds)), b, id, x + Join(ds))
    decreases |ds|
  {
    if ds == [] {
      Assoc(x, [], []);
    } else {
      assert Chunked(ds)[1..] == Chunked(ds[1..]);
      var next := Take(host, st, Carry(Piece(ds[0])));
      assert next == TakeChunk(st, ds[0]);
      ChunksAbsorbed(host, next, b, id, x + ds[0], ds[1..]);
      Assoc(x, ds[0], Join(ds[1..]));
    }
  }

  /**
    The chunk of an outermost block's start marker is taken for the block's first and, when
    the iterator that yielded it comes back to it, for its last: such a block is accepted
    only if its id is the hash of its bytes with the chunk at both ends.
    */
  lemma StartChunkIsTakenTwice(host: Host, held: Store, b: Buffer, ds: seq<bytes>)
    requires b.block.Some? && b.chunk.Some? && b.block.value.id !in held
    ensures var m, c := b.block.value, b.chunk.value;
      var st := Run(host, Init(held, []), [b] + Chunked(ds) + [Carry(Marker(m.id, m.chain))]);
      if host.env.hash(c + Join(ds) + c) == m.id then m.id in st.store else st.status == Failed(BlockIdMismatch(m.id))
  {
    var m, c := b.block.value, b.chunk.value;
    var start, end := [b], [Carry(Marker(m.id, m.chain))];
    var begun := Take(host, Init(held, []), b);
    RunAppend(host, Init(held, []), start + Chunked(ds), end);
    RunAppend(host, Init(held, []), start, Chunked(ds));
    assert start[1..] == [] && end[1..] == [];
    assert Run(host, Init(held, []), start) == Run(host, begun, []) == begun;
    Opens(host, held, b);
    ChunksAbsorbed(host, begun, b, m.id, c, ds);
    var inside := Run(host, begun, Chunked(ds));
    assert Run(host, inside, end) == Run(host, Take(host, inside, end[0]), []);
    hide Take;
    Closes(host, inside, b, c + Join(ds));
  }

  lemma Opens(host: Host, held: Store, b: Buffer)
    requires b.block.Some? && b.chunk.Some? && b.block.value.id !in held
    ensures InOutermost(Take(host, Init(held, []), b), b, b.block.value.id, b.chunk.value)
  {
    assert [] + b.chunk.value == b.chunk.value;
  }

  lemma Closes(host: Host, st: State, b: Buffer, x: bytes)
    requires b.block.Some? && b.chunk.Some? && InOutermost(st, b, b.block.value.id, x)
    ensures var m := b.block.value; var after := Take(host, st, Carry(Marker(m.id, m.chain)));
      if host.env.hash(x + b.chunk.value) == m.id then m.id in after.store
      else after.status == Failed(BlockIdMismatch(m.id))
  {
    hide StoredForm;
    var m, c := b.block.value, b.chunk.value;
    var left := st.(blocks := [], levels := 1, outer := None);
    var fed := TakeChunk(left, c);
    assert fed.saving[0] == Open(m.id, Write(st.saving[0].writer, c), x + c);
    var finished := FinishBlock(host, fed);
    assert FinishAfterDrain(host, fed, 0) == FinishDownTo(host, fed, 0);
    assert finished.status == Running ==> FinishDownTo(host, fed, 0) == finished;
    assert Take(host, st, Carry(Marker(m.id, m.chain))) == FallThrough(host, left, b);
  }

  /**
    The end marker of an outermost block whose start marker came with a head does not end it:
    the iterator that yielded the start marker goes on, and so does the block.
    */
  lemma HeadKeepsItOpen(host: Host, held: Store, m: Spot, ds: seq<bytes>)
    requires m.id !in held
    ensures var b := Buffer(Some(m), None, true, false);
      var st := Run(host, Init(held, []), [b] + Chunked(ds) + [Carry(Marker(m.id, m.chain))]);
      && st.status == Running && st.levels == 1 && st.blocks == [] && st.store == held
      && |st.saving| == 1 && st.saving[0].id == m.id && st.saving[0].absorbed == Join(ds)
  {
    hide Take, InOutermost, Run;
    var b, mark := Buffer(Some(m), None, true, false), Carry(Marker(m.id, m.chain));
    var begun := Take(host, Init(held, []), b);
    HeadOpens(host, held, m);
    RunAppend(host, Init(held, []), [b] + Chunked(ds), [mark]);
    RunAppend(host, Init(held, []), [b], Chunked(ds));
    RunsOne(host, Init(held, []), b);
    ChunksAbsorbed(host, begun, b, m.id, [], ds);
    ChunksStoreNothing(host, begun, ds);
    var inside := Run(host, begun, Chunked(ds));
    RunsOne(host, inside, mark);
    assert [] + Join(ds) == Join(ds);
    HeadGoesOn(host, inside, b, m, Join(ds));
  }

  lemma RunsOne(host: Host, st: State, b: Buffer)
    ensures Run(host, st, [b]) == Take(host, st, b)
  {
    hide Take;
    assert [b][1..] == [];
  }

  lemma HeadOpens(host: Host, held: Store, m: Spot)
    requires m.id !in held
    ensures var b := Buffer(Some(m), None, true, false); var begun := Take(host, Init(held, []), b);
      InOutermost(begun, b, m.id, []) && begun.store == held
  {
  }

  lemma HeadGoesOn(host: Host, st: State, b: Buffer, m: Spot, x: bytes)
    requires b == Buffer(Some(m), None, true, false) && InOutermost(st, b, m.id, x)
    ensures Take(host, st, Carry(Marker(m.id, m.chain))) == st.(blocks := [], levels := 1, outer := None)
  {
    hide Exhaust, Yield;
  }

  lemma {:induction false} ChunksStoreNothing(host: Host, st: State, ds: seq<bytes>)
    ensures Run(host, st, Chunked(ds)).store == st.store
    decreases |ds|
  {
    if ds != [] {
      assert Chunked(ds)[1..] == Chunked(ds[1..]);
      ChunksStoreNothing(host, Take(host, st, Carry(Piece(ds[0]))), ds[1..]);
    }
  }

  // ------------------------------------------------------ local copies are readable

  lemma {:induction false} SoundIsIntact(env: Environment, s: Store, es: Directory, f: Flow)
    requires Sound(env, s) && Realizes(s, es, f)
    ensures Intact(env, s, f)
    decreases f
  {
    match f
    case Nil =>
    case Bytes(_, r) => SoundIsIntact(env, s, es[1..], r);
    case Block(id, _, body, r) =>
      SoundIsIntact(env, s, EntriesOf(s[id]), body);
      SoundIsIntact(env, s, es[1..], r);
      if s[id].File? { FileIsNamed(env, s, id); }
  }

  lemma FileIsNamed(env: Environment, s: Store, id: Id)
    requires Sound(env, s) && id in s && s[id].File?
    ensures env.hash(s[id].content) == id
  {
    var f := Bytes(s[id].content, Nil);
    assert [Part(s[id].content)][1..] == [];
    assert Unfolds(s, id, f);
    ExpansionIs(s, id, f);
    assert Content(f) == s[id].content;
  }

  /** Reading a held block never fails, and gives its expansion. */
  lemma HeldIsReadable(env: Environment, s: Store, id: Id)
    requires Sound(env, s) && id in s
    ensures var read := ReadBlock(env, s, id, true, 1, {});
      read.Ok? && ItemBytes(read.value) == Expansion(s, id)
  {
    var body := Unfolding(s, id);
    SoundIsIntact(env, s, EntriesOf(s[id]), body);
    ApartNone(body);
    if s[id].File? { FileIsNamed(env, s, id); }
    ReadsBlock(env, s, id, body, true, 1, {});
    StreamedIsMeasured(env, s, id, true, 1);
  }
}
