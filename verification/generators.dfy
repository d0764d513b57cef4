/**
  The receiver as it is written: `parser_iterator` calling itself, `stop_generator`s laid
  over one another, and the save functions pulling from them. Saving a stream to its end
  is what the one-buffer-at-a-time machine makes of it.
  */
module Generators {
  import opened Bytes
  import opened Documents
  import opened Layouts
  import opened Stores
  import opened Reader
  import opened Receiver

  /**
    A moment between two statements. `st` has the fields; `leaving` is a `parser_iterator`
    paused in a `yield` after which it breaks; `closing` the outermost `stop_generator` that
    has seen its marker; `handed` a buffer pulled and not yet dealt with, `shared` if the
    outermost iterator holds it too; `renew` an object that is about to get a new
    `parser_iterator`.
    */
  datatype Moment = Moment(
    st: State,
    leaving: bool,
    closing: Option<nat>,
    handed: Option<Buffer>,
    shared: bool,
    renew: bool)

  /** Between two buffers, with nothing half done. */
  function Quiet(st: State): Moment {
    Moment(st, false, None, None, false, false)
  }

  /** The paused iterator breaks, unless it has been given up for a new one. */
  function LeaveIf(host: Host, leaving: bool, before: State, st: State): State {
    if !leaving || st.status != Running || Renewed(before, st) then st else Break(host, st)
  }

  /** `stop_generator` takes the block field of the buffer it stops at. */
  function Cleared(b: Option<Buffer>): Option<Buffer> {
    match b
    case None => None
    case Some(x) => Some(x.(block := None))
  }

  /** What the consumers make of a buffer: a marker, or a chunk, or nothing. */
  function Dealt(host: Host, m: Moment, b: Buffer): State {
    match b.block
    case Some(mark) =>
      var st := if m.shared && Layer(m.st.saving, mark.id).Some? then m.st.(outer := Cleared(m.st.outer)) else m.st;
      Yield(host, st, mark.id, mark.chain, b.chunk)
    case None =>
      match m.closing
      case Some(k) => Resume(FinishAfterDrain(host, Extra(m.st, b.chunk), k))
      case None => Extra(m.st, b.chunk)
  }

  /** Where the machine is at that moment: all that the generators have still to do, done. */
  function Settle(host: Host, m: Moment): State {
    if m.st.status != Running then m.st
    else if m.renew then m.st.(levels := 1, blocks := [], outer := None)
    else
      match m.handed
      case Some(b) => LeaveIf(host, m.leaving, m.st, Dealt(host, m, b))
      case None =>
        match m.closing
        case Some(k) => LeaveIf(host, m.leaving, m.st, Resume(FinishAfterDrain(host, m.st, k)))
        case None => if m.st.levels == 0 then Exhaust(host, m.st) else LeaveIf(host, m.leaving, m.st, m.st)
  }

  /** What is left of the run. */
  function Ending(host: Host, st: State, rest: seq<Buffer>): State {
    EndOfStream(host, Run(host, st, rest))
  }

  lemma {:induction false} StoppedEnds(host: Host, st: State, rest: seq<Buffer>)
    requires st.status != Running
    ensures Ending(host, st, rest) == st
    decreases |rest|
  {
    if rest != [] { StoppedEnds(host, st, rest[1..]); }
  }

  lemma {:induction false} FinishedDown(host: Host, st: State, k: nat)
    requires st.draining == None && st.status == Running && k <= |st.saving|
    ensures var over := FinishDownTo(host, st, k);
      over.status == Running ==> |over.saving| == k && over.draining == None
    decreases |st.saving|
  {
    hide Publish, StoredForm, Close;
    if |st.saving| > k {
      var over := FinishBlock(host, st);
      if over.status == Running { FinishedDown(host, over, k); }
    }
  }

  /** An exhausted iterator leaves nothing open; the next one is exhausted with the object. */
  lemma ExhaustedTwice(host: Host, st: State)
    requires st.status == Running && Exhaust(host, st).status == Running
    ensures Exhaust(host, Exhaust(host, st)).status != Running
  {
    hide ReadBlock, ItemBytes;
    var idle := st.(levels := 0);
    var over := EndDrain(host, idle);
    if over.status == Running { FinishedDown(host, over, 0); }
  }

  /** At the end of the stream the innermost iterator ends, as at a separator. */
  lemma EndBreaks(host: Host, st: State)
    requires st.status == Running && st.levels > 0
    ensures Ending(host, Break(host, st), []) == Ending(host, st, [])
  {
    hide Exhaust, FallThrough;
    if st.levels == 1 {
      if Exhaust(host, st).status == Running {
        ExhaustedTwice(host, st);
        ExhaustRestarts(host, st);
      }
    } else if Break(host, st).status != Running {
      StoppedEnds(host, Break(host, st), []);
    }
  }

  lemma ExhaustRestarts(host: Host, st: State)
    requires st.status == Running && Exhaust(host, st).status == Running
    ensures Exhaust(host, st).levels == 1
  {
    hide ReadBlock, ItemBytes;
    var idle := st.(levels := 0);
    var over := EndDrain(host, idle);
    if over.status == Running { FinishedDown(host, over, 0); }
  }

  // -------------------------------------------------------------- the consumers' steps

  /** Whoever pulls gets nothing more: a terminator has seen its marker, or all is exhausted. */
  predicate AtEnd(m: Moment) {
    match m.closing
    case Some(k) => k < |m.st.saving| && m.st.levels > 0
    case None => m.st.levels == 0
  }

  lemma FinishCases(host: Host, st: State, open: Open)
    requires st.saving != [] && open == st.saving[|st.saving| - 1]
    ensures FinishBlock(host, st) ==
      if host.env.hash(open.absorbed) != open.id then Fail(st, BlockIdMismatch(open.id))
      else if open.writer.done != [] && !host.accepts(st.store, Close(open.writer), true) then
        Fail(st, NoPointerForm(Some(open.id)))
      else st.(saving := st.saving[..|st.saving| - 1], store := Publish(st.store, open.id, StoredForm(open.writer)))
  {
  }

  /** The innermost open block is finished: the terminators around it stay as they are. */
  lemma FinishSettles(host: Host, m: Moment)
    requires m.st.status == Running && m.st.saving != [] && m.st.draining == None
    requires m.handed == None && !m.renew
    requires AtEnd(m)
    ensures var after := FinishBlock(host, m.st); var n := |m.st.saving| - 1;
      var m' := m.(st := after, closing := if m.closing == Some(n) then None else m.closing, renew := n == 0);
      Settle(host, m') == Settle(host, m) && (after.status != Running ==> Settle(host, m) == after)
  {
    hide Publish, StoredForm, Close, Break;
    var after, n := FinishBlock(host, m.st), |m.st.saving| - 1;
    match m.closing
    case Some(k) =>
      assert FinishAfterDrain(host, m.st, k) == FinishDownTo(host, m.st, k);
      if after.status == Running {
        assert FinishDownTo(host, m.st, k) == FinishDownTo(host, after, k);
        if k == n {
          assert FinishDownTo(host, after, k) == after;
          if n == 0 {
            assert Settle(host, m) == after.(levels := 1, blocks := [], outer := None);
          } else {
            assert Settle(host, m) == LeaveIf(host, m.leaving, after, after);
          }
        } else {
          assert FinishAfterDrain(host, after, k) == FinishDownTo(host, after, k);
        }
      } else {
        assert Settle(host, m) == after;
      }
    case None =>
      assert m.st.(levels := 0) == m.st;
      assert FinishAfterDrain(host, m.st, 0) == FinishDownTo(host, m.st, 0);
      if after.status == Running {
        assert FinishDownTo(host, m.st, 0) == FinishDownTo(host, after, 0);
        if n == 0 {
          assert Settle(host, m) == after.(levels := 1, blocks := [], outer := None);
        } else {
          assert after.(levels := 0) == after;
          assert FinishAfterDrain(host, after, 0) == FinishDownTo(host, after, 0);
        }
      } else {
        assert Settle(host, m) == after;
      }
  }

  /** A drain is over. */
  lemma DrainSettles(host: Host, m: Moment)
    requires m.st.status == Running && m.st.draining.Some? && !m.renew
    requires match m.handed
             case Some(b) =>
               && m.closing == None && b.block.Some? && m.st.levels > 0
               && Layer(m.st.saving, b.block.value.id) == None && m.st.draining == Some(b.block.value.id)
             case None => AtEnd(m)
    ensures var m' := m.(st := EndDrain(host, m.st), handed := None, renew := m.st.saving == []);
      Settle(host, m') == Settle(host, m)
  {
    hide FinishDownTo, ReadBlock, ItemBytes, Break, Layer;
    var after := EndDrain(host, m.st);
    match m.handed
    case Some(b) =>
      assert Dealt(host, m, b) == Resume(after);
    case None =>
      match m.closing
      case Some(k) =>
        if after.status == Running {
          assert FinishAfterDrain(host, m.st, k) == FinishDownTo(host, after, k) == FinishAfterDrain(host, after, k);
        } else {
          assert FinishAfterDrain(host, m.st, k) == after;
        }
      case None =>
        assert m.st.(levels := 0) == m.st;
        if after.status != Running {
          assert FinishAfterDrain(host, m.st, 0) == after;
        } else {
          assert FinishAfterDrain(host, m.st, 0) == FinishDownTo(host, after, 0) == FinishAfterDrain(host, after, 0);
          assert after.(levels := 0) == after;
          if m.st.saving == [] { FinishNothing(host, after); }
        }
  }

  lemma FinishNothing(host: Host, st: State)
    requires st.saving == []
    ensures FinishDownTo(host, st, 0) == st
  {
  }

  // ------------------------------------------------------------- the iterator's steps

  /** `parser_iterator` passes over a buffer that nobody sees. */
  lemma Passes(host: Host, st: State, rest: seq<Buffer>)
    requires rest != []
    ensures Ending(host, st, rest) == Ending(host, Take(host, st, rest[0]), rest[1..])
  {
  }

  /** Who else has a buffer matters only as long as somebody has it. */
  lemma SharedAside(host: Host, m: Moment)
    requires m.handed == None
    ensures Settle(host, m) == Settle(host, m.(shared := false))
  {
    hide Exhaust, Break, FinishAfterDrain;
  }

  lemma LiveSettles(host: Host, st: State)
    requires st.status == Running && st.levels > 0
    ensures Settle(host, Quiet(st)) == st
  {
  }

  lemma LeavingBreaks(host: Host, m: Moment)
    requires m.st.status == Running && m.st.levels > 0 && m.leaving
    requires m.handed == None && m.closing == None && !m.renew
    ensures Settle(host, m) == Break(host, m.st)
  {
    hide Break;
  }

  lemma NestedBreaks(host: Host, st: State)
    requires st.status == Running && st.levels > 2
    ensures Break(host, st) == Settle(host, Quiet(st.(levels := st.levels - 1)))
  {
  }

  lemma LastBreaks(host: Host, st: State)
    requires st.status == Running && 0 < st.levels <= 2 && (st.levels == 2 ==> st.outer == None)
    ensures Break(host, st) == Settle(host, Quiet(st.(levels := 0)))
  {
    hide FinishAfterDrain;
  }

  /** The outermost iterator goes on with what the buffer of its block has left. */
  lemma OuterBreaks(host: Host, st: State)
    requires st.status == Running && st.levels == 2 && st.outer.Some?
    ensures var b := st.outer.value; var left := st.(levels := 1, outer := None);
      Break(host, st) ==
      Settle(host, if b.chunk.Some? then Moment(left, b.separator, None, Some(b), false, false)
                   else if !b.head || b.separator then Quiet(left.(levels := 0))
                   else Quiet(left))
  {
    hide FinishAfterDrain, Yield, TakeChunk, Exhaust;
    var b := st.outer.value;
    var left := st.(levels := 1, outer := None);
    if b.chunk.None? {
      if !b.head || b.separator { ExhaustSettles(host, left); }
    } else {
      OuterYields(host, left, b);
    }
  }

  lemma OuterYields(host: Host, left: State, b: Buffer)
    requires left.status == Running && left.levels == 1 && b.chunk.Some?
    ensures FallThrough(host, left, b) == Settle(host, Moment(left, b.separator, None, Some(b), false, false))
  {
    hide FinishAfterDrain, Yield, Exhaust;
    var m := Moment(left, b.separator, None, Some(b), false, false);
    var yielded := Dealt(host, m, b);
    if yielded.status == Running && !Renewed(left, yielded) {
      assert yielded.levels <= 1;
      assert Break(host, yielded) == Exhaust(host, yielded);
    }
  }

  lemma ExhaustSettles(host: Host, st: State)
    requires st.status == Running
    ensures Settle(host, Quiet(st.(levels := 0))) == Exhaust(host, st)
  {
    hide FinishAfterDrain;
  }

  lemma ChunkIsHanded(host: Host, st: State, b: Buffer)
    requires st.status == Running && b.block == None && b.chunk.Some?
    ensures Take(host, st, b) == Settle(host, Moment(st, b.separator, None, Some(b), false, false))
  {
    hide Break;
    ChunkKeepsFrames(st, b.chunk.value);
  }

  lemma OthersBreak(host: Host, st: State, b: Buffer)
    requires st.status == Running && b.block == None && b.chunk == None
    ensures Take(host, st, b) == if !b.head || b.separator then Break(host, st) else st
  {
    hide Break;
  }

  lemma FailedSettles(host: Host, m: Moment)
    requires m.st.status != Running
    ensures Settle(host, m) == m.st
  {
  }

  /** An end marker is off the stack: passed on inside another block, the end of the iterator else. */
  lemma EndSettles(host: Host, st: State, b: Buffer)
    requires st.status == Running && st.levels > 0
    requires b.block.Some? && b.block.value.id in st.blocks && st.blocks[|st.blocks| - 1] == b.block.value.id
    ensures var popped := st.(blocks := st.blocks[..|st.blocks| - 1]);
      Take(host, st, b) ==
      if popped.blocks == [] then Break(host, popped)
      else Settle(host, Moment(popped, true, None, Some(b), false, false))
  {
    hide Yield, Break;
    var popped := st.(blocks := st.blocks[..|st.blocks| - 1]);
    if popped.blocks != [] { RenewedIsEmpty(host, popped, b.block.value.id, b.block.value.chain, b.chunk); }
  }

  /** A new iterator starts with no open blocks, and only a new one does. */
  lemma RenewedIsEmpty(host: Host, st: State, id: Id, chain: seq<nat>, chunk: Option<bytes>)
    requires st.status == Running && st.blocks != []
    ensures var after := Yield(host, st, id, chain, chunk);
      after.status == Running ==> (Renewed(st, after) <==> after.blocks == [])
  {
    hide FinishDownTo, ReadBlock, ItemBytes, Cut, Write, Layer;
    LayerIsInside(st.saving, id);
    match Layer(st.saving, id)
    case Some(k) => FinishKeepsBlocks(host, EndDrain(host, Extra(st, chunk)), k);
    case None =>
  }

  lemma {:induction false} FinishKeepsBlocks(host: Host, st: State, k: nat)
    ensures FinishDownTo(host, st, k).blocks == st.blocks
    decreases |st.saving|
  {
    hide Publish, StoredForm, Close;
    if |st.saving| > k && FinishBlock(host, st).status == Running { FinishKeepsBlocks(host, FinishBlock(host, st), k); }
  }

  lemma StartSettles(host: Host, st: State, b: Buffer)
    requires st.status == Running
    requires b.block.Some? && b.block.value.id !in st.blocks && |st.blocks| < MAX_BLOCK_NESTING
    ensures var m := b.block.value;
      var inside := Enter(st, m, b).(outer := if st.levels == 1 then Leftover(b, false) else st.outer);
      Take(host, st, b) == Settle(host, Moment(inside, false, None, Some(b), st.levels == 1, false))
  {
    hide Yield, Break;
    var m := b.block.value;
    var inside := Enter(st, m, b).(outer := if st.levels == 1 then Leftover(b, false) else st.outer);
    assert Cleared(Leftover(b, false)) == Leftover(b, true);
    assert (if st.levels == 1 && Layer(inside.saving, m.id).Some? then inside.(outer := Cleared(inside.outer)) else inside)
        == Enter(st, m, b);
  }

  lemma TooDeep(host: Host, st: State, b: Buffer)
    requires st.status == Running && b.block.Some? && b.block.value.id !in st.blocks && |st.blocks| >= MAX_BLOCK_NESTING
    ensures Take(host, st, b) == Fail(st, NestedTooDeep)
  {
  }

  lemma Intersects(host: Host, st: State, b: Buffer)
    requires st.status == Running && b.block.Some? && b.block.value.id in st.blocks
    requires st.blocks[|st.blocks| - 1] != b.block.value.id
    ensures Take(host, st, b) == Fail(st, IntersectionError)
  {
  }

  class Receiving {
    const host: Host
    const source: seq<Buffer>
    ghost const goal: State
    var pos: nat

    var store: Store
    /** The skip requests made, in order. */
    var asked: seq<Id>
    /** How many `parser_iterator`s are active, and the stack they share. */
    var levels: nat
    var blocks: seq<Id>
    var leaving: bool
    var closing: Option<nat>
    /** The buffer the outermost iterator comes back to, and whether a consumer has it now. */
    var outer: Option<Buffer>
    var shared: bool
    /** The blocks being saved: the entries, the open file and the hasher of each. */
    var saving: seq<Open>
    var top: Writer
    var status: Status

    ghost var draining: Option<Id>
    ghost var handed: Option<Buffer>
    ghost var renew: bool

    ghost function Fields(): State
      reads this
    {
      State(store, asked, levels, blocks, saving, draining, top, outer, status)
    }

    ghost function Now(): Moment
      reads this
    {
      Moment(Fields(), leaving, closing, handed, shared, renew)
    }

    ghost predicate Valid()
      reads this
    {
      pos <= |source| && Ending(host, Settle(host, Now()), source[pos..]) == goal
    }

    /** What can still be handed out: the buffers to come, and the one to come back to. */
    ghost function Left(): int
      reads this
    {
      2 * (|source| - pos) + if outer.Some? then 1 else 0
    }

    constructor (host: Host, source: seq<Buffer>, store: Store)
      ensures Valid() && fresh(this)
      ensures this.host == host && this.source == source
      ensures goal == Ending(host, Init(store, []), source)
      ensures status == Running && handed == None && draining == None && closing == None && saving == [] && renew
    {
      this.host, this.source, this.store := host, source, store;
      goal := Ending(host, Init(store, []), source);
      pos, asked, levels, blocks, leaving, closing := 0, [], 0, [], false, None;
      outer, shared := None, false;
      saving, top, status := [], EMPTY, Running;
      draining, handed, renew := None, None, true;
    }

    /** Nothing is half done, and this is where the machine has to go on. */
    ghost predicate Goes(st: State)
      reads this
    {
      && pos <= |source| && Ending(host, st, source[pos..]) == goal
      && status == Running && handed == None && closing == None && !renew && !leaving && !shared
    }

    /** A buffer is yielded; or the innermost iterator goes on, or there is none, or all has failed. */
    ghost predicate Yields(r: Option<Buffer>)
      reads this
    {
      && Valid() && r == handed
      && (status != Running ==> r == None)
      && (status == Running ==> match r case None => levels == 0 || Goes(Fields()) case Some(_) => levels > 0)
    }

    /** `parser_iterator`, resumed: the next buffer, if any. */
    method Next() returns (r: Option<Buffer>)
      requires Valid() && status == Running && handed == None && closing == None && !renew
      modifies this`pos, this`asked, this`levels, this`blocks, this`leaving, this`outer, this`shared, this`status,
               this`handed
      ensures Yields(r) && Left() <= old(Left())
      ensures status == Running ==> match r case None => levels == 0 case Some(b) => Left() < old(Left())
    {
      hide Settle, Break, Ending;
      r := None;
      if levels == 0 {
        return;
      }
      SharedAside(host, Now());
      shared := false;
      if leaving {
        LeavingBreaks(host, Now());
        leaving := false;
        r := LeaveIterator();
      } else {
        LiveSettles(host, Fields());
      }
      while r.None? && status == Running && levels > 0
        invariant Yields(r) && Left() <= old(Left())
        invariant r.Some? ==> Left() < old(Left())
        decreases |source| - pos, levels
      {
        r := Read();
      }
    }

    /** One turn of `parser_iterator`'s loop. */
    method Read() returns (r: Option<Buffer>)
      requires Goes(Fields()) && levels > 0
      modifies this`pos, this`asked, this`levels, this`blocks, this`leaving, this`outer, this`shared, this`status,
               this`handed
      ensures Yields(r) && old(pos) <= pos && (pos == old(pos) ==> levels < old(levels))
      ensures Left() <= old(Left()) && (r.Some? ==> Left() < old(Left()))
    {
      hide Settle, Break, Take, Ending;
      ghost var st, rest := Fields(), source[pos..];
      if pos == |source| {
        assert rest == [];
        EndBreaks(host, st);
        r := LeaveIterator();
      } else {
        var buffer := source[pos];
        pos := pos + 1;
        assert rest[0] == buffer && rest[1..] == source[pos..];
        Passes(host, st, rest);
        r := Look(buffer);
      }
    }

    /** One buffer of the stream: whether it is yielded. */
    method Look(b: Buffer) returns (r: Option<Buffer>)
      requires levels > 0 && Goes(Take(host, Fields(), b))
      modifies this`asked, this`levels, this`blocks, this`leaving, this`outer, this`shared, this`status, this`handed
      ensures Yields(r) && Left() <= old(Left()) + 1
    {
      hide Settle, Break, Take, Ending;
      ghost var st := Fields();
      if b.block.Some? {
        r := NextMarker(b, b.block.value);
      } else if b.chunk.Some? {
        ChunkIsHanded(host, st, b);
        handed, leaving := Some(b), b.separator;
        r := Some(b);
      } else {
        OthersBreak(host, st, b);
        if !b.head || b.separator {
          r := LeaveIterator();
        } else {
          LiveSettles(host, st);
          r := None;
        }
      }
    }

    /** The innermost `parser_iterator` breaks, and the one around it goes on. */
    method LeaveIterator() returns (r: Option<Buffer>)
      requires levels > 0 && Goes(Break(host, Fields()))
      modifies this`levels, this`leaving, this`outer, this`handed
      ensures Yields(r) && Left() <= old(Left())
      ensures levels < old(levels) && (r.Some? ==> Left() < old(Left()))
    {
      hide Settle, Break, Ending;
      ghost var st := Fields();
      if levels > 2 {
        NestedBreaks(host, st);
        levels := levels - 1;
        LiveSettles(host, Fields());
        return None;
      }
      if levels == 2 && outer.Some? {
        OuterBreaks(host, st);
        var b := outer.value;
        levels, outer := 1, None;
        if b.chunk.Some? {
          handed, leaving := Some(b), b.separator;
          return Some(b);
        }
        if !b.head || b.separator {
          levels := 0;
        } else {
          LiveSettles(host, Fields());
        }
        return None;
      }
      LastBreaks(host, st);
      levels := 0;
      return None;
    }

    /** A marker has been read. */
    method NextMarker(b: Buffer, m: Spot) returns (r: Option<Buffer>)
      requires b.block == Some(m) && levels > 0 && Goes(Take(host, Fields(), b))
      modifies this`asked, this`levels, this`blocks, this`leaving, this`outer, this`shared, this`status, this`handed
      ensures Yields(r) && Left() <= old(Left()) + 1
    {
      hide Settle, Break, Take, Ending;
      if m.id in blocks {
        r := EndMarker(b, m);
      } else if |blocks| >= MAX_BLOCK_NESTING {
        TooDeep(host, Fields(), b);
        FailedSettles(host, Quiet(Fail(Fields(), NestedTooDeep)));
        status := Failed(NestedTooDeep);
        r := None;
      } else {
        StartMarker(b, m);
        r := Some(b);
      }
    }

    /** The marker of a block that is not open: the outermost iterator keeps its buffer. */
    method StartMarker(b: Buffer, m: Spot)
      requires b.block == Some(m) && m.id !in blocks && |blocks| < MAX_BLOCK_NESTING
      requires levels > 0 && Goes(Take(host, Fields(), b))
      modifies this`asked, this`levels, this`blocks, this`outer, this`shared, this`handed
      ensures Yields(Some(b)) && Left() <= old(Left()) + 1
    {
      hide Settle, Take, Ending, Leftover, Ask;
      StartSettles(host, Fields(), b);
      if levels == 1 {
        outer, shared := Leftover(b, false), true;
      }
      blocks := blocks + [m.id];
      levels := levels + 1;
      if m.id in store {
        asked := Ask(asked, m.id);
      }
      handed := Some(b);
    }

    /** The marker of an open block: it is passed on inside another block, and ends the iterator. */
    method EndMarker(b: Buffer, m: Spot) returns (r: Option<Buffer>)
      requires b.block == Some(m) && m.id in blocks && levels > 0 && Goes(Take(host, Fields(), b))
      modifies this`levels, this`blocks, this`leaving, this`outer, this`status, this`handed
      ensures Yields(r) && Left() <= old(Left())
    {
      hide Settle, Break, Take, Ending;
      ghost var st := Fields();
      var last := blocks[|blocks| - 1];
      if last != m.id {
        Intersects(host, st, b);
        FailedSettles(host, Quiet(Fail(st, IntersectionError)));
        status := Failed(IntersectionError);
        return None;
      }
      EndSettles(host, st, b);
      blocks := blocks[..|blocks| - 1];
      if blocks == [] {
        r := LeaveIterator();
        return;
      }
      leaving, handed := true, Some(b);
      return Some(b);
    }

    // ---------------------------------------------------------- the consumers

    /** The outermost `stop_generator` waiting for the marker. */
    method OutermostStop(id: Id) returns (k: Option<nat>)
      ensures k == Layer(saving, id)
    {
      var i := 0;
      while i < |saving|
        invariant 0 <= i <= |saving|
        invariant Layer(saving, id) == match Layer(saving[i..], id) case None => None case Some(k) => Some(i + k)
      {
        if saving[i].id == id {
          return Some(i);
        }
        assert saving[i..][1..] == saving[i + 1..];
        i := i + 1;
      }
      return None;
    }

    /** What a consumer may rely on when it pulls. */
    ghost predicate Ready()
      reads this
    {
      && Valid() && status == Running && handed == None && !renew
      && (closing.Some? ==> AtEnd(Now()))
    }

    /** A consumer has been handed a buffer that is no marker, or the one its reader stops at. */
    ghost predicate HasChunk(chunk: Option<bytes>)
      reads this
    {
      && Valid() && status == Running && !renew
      && handed.Some? && handed.value.block == None && handed.value.chunk == chunk
      && levels > 0 && (closing.Some? ==> closing.value < |saving|)
    }

    /** Or a marker that nobody it went through was waiting for. */
    ghost predicate HasMarker(b: Buffer, m: Spot)
      reads this
    {
      && Valid() && status == Running && !renew
      && handed == Some(b) && b.block == Some(m)
      && closing == None && Layer(saving, m.id) == None && levels > 0
    }

    /** The next buffer through the `stop_generator`s of all the blocks being saved. */
    method Pull() returns (r: Option<Buffer>)
      requires Ready()
      modifies this`pos, this`asked, this`levels, this`blocks, this`leaving, this`outer, this`shared, this`status,
               this`handed, this`closing
      ensures Valid() && Left() <= old(Left())
      ensures status != Running ==> r == None && handed == None
      ensures status == Running ==>
        match r
        case None => Ready() && AtEnd(Now())
        case Some(b) =>
          && handed == r && Left() < old(Left())
          && match b.block case None => HasChunk(b.chunk) case Some(m) => HasMarker(b, m)
    {
      hide Settle, Ending, Layer;
      if closing.Some? {
        return None;
      }
      r := Next();
      if r.None? {
        return;
      }
      var b := r.value;
      match b.block {
        case None =>
        case Some(m) =>
          var k := OutermostStop(m.id);
          if k.Some? {
            LayerIsInside(saving, m.id);
            StopSettles(host, Now(), b, m);
            closing := k;
            if shared {
              outer := Cleared(outer);
            }
            shared := false;
            b := b.(block := None);
            handed := Some(b);
            r := Some(b);
          }
      }
    }

    /** The hashers of this block and of those around it take the bytes. */
    method UpdateHashers(b: bytes)
      modifies this`saving
      ensures saving == Absorb(old(saving), b)
    {
      var i := 0;
      while i < |saving|
        invariant 0 <= i <= |saving| == |old(saving)|
        invariant forall j | 0 <= j < i :: saving[j] == Absorb(old(saving), b)[j]
        invariant forall j | i <= j < |saving| :: saving[j] == old(saving)[j]
      {
        saving := saving[i := saving[i].(absorbed := saving[i].absorbed + b)];
        i := i + 1;
      }
    }

    /** The innermost open file takes a chunk. */
    method WriteChunk(b: bytes)
      requires draining == None
      modifies this`saving, this`top
      ensures Fields() == TakeChunk(old(Fields()), b)
    {
      if saving == [] {
        top := Write(top, b);
      } else {
        var open := saving[|saving| - 1];
        saving := saving[|saving| - 1 := open.(writer := Write(open.writer, b))];
      }
      UpdateHashers(b);
    }

    /** The file ends, and the reference to a block is appended to `_.json`. */
    method Reference(id: Id, chain: seq<nat>)
      modifies this`saving, this`top
      ensures Fields() == SetCurrent(old(Fields()), Cut(Current(old(Fields())), id, chain))
    {
      if saving == [] {
        top := Cut(top, id, chain);
      } else {
        var open := saving[|saving| - 1];
        saving := saving[|saving| - 1 := open.(writer := Cut(open.writer, id, chain))];
      }
    }

    /** The buffer handed over is dealt with: its chunk, if any, goes into the open file. */
    method WriteHanded(chunk: Option<bytes>)
      requires HasChunk(chunk) && draining == None
      modifies this`saving, this`top, this`handed
      ensures Ready() && |saving| == |old(saving)|
    {
      hide Settle, Ending, TakeChunk;
      ghost var m := Now();
      HandedSettles(host, m);
      ExtraKeepsFrames(m.st, chunk);
      if chunk.Some? {
        WriteChunk(chunk.value);
      }
      handed := None;
    }

    /** `save_chunks_to_file`, with what was read before it: whether nothing more comes for this reader. */
    method SaveChunksToFile(prev: Option<bytes>) returns (done: bool)
      requires draining == None && (prev.Some? ==> HasChunk(prev)) && (prev.None? ==> Ready())
      modifies this
      ensures Valid() && handed == None && Left() <= old(Left())
      ensures status == Running ==> draining == None && |saving| == |old(saving)|
      ensures status == Running && done ==> Ready() && AtEnd(Now())
      ensures status == Running && !done ==>
        Left() < old(Left()) && renew == (saving == []) && (closing.Some? ==> AtEnd(Now()))
      decreases Left(), 0
    {
      hide Settle, Ending, TakeChunk;
      if prev.Some? {
        WriteHanded(prev);
      }
      while true
        invariant Ready() && draining == None && |saving| == |old(saving)| && Left() <= old(Left())
        decreases Left()
      {
        var r := Pull();
        if status != Running {
          return false;
        }
        match r {
          case None =>
            return true;
          case Some(b) =>
            match b.block {
              case None =>
                WriteHanded(b.chunk);
              case Some(m) =>
                SaveChunksToBlock(b, m);
                return false;
            }
        }
      }
    }

    /** `save_chunks_to_block`: a start marker is referenced, then saved or drained. */
    method SaveChunksToBlock(b: Buffer, m: Spot)
      requires HasMarker(b, m) && draining == None
      modifies this
      ensures Valid() && handed == None && Left() <= old(Left())
      ensures status == Running ==> draining == None && |saving| == |old(saving)|
      ensures status == Running ==> renew == (saving == []) && (closing.Some? ==> AtEnd(Now()))
      decreases Left(), 2
    {
      hide Settle, Ending, Cut, Layer;
      ghost var before := Now();
      Reference(m.id, m.chain);
      StartOpens(host, before, b, m);
      if m.id !in store {
        saving := saving + [Open(m.id, EMPTY, [])];
        handed := if b.chunk.Some? then Some(b.(block := None)) else None;
        SaveBlockContent(b.chunk);
      } else {
        draining := Some(m.id);
        handed := None;
        DrainBlock(m.id);
      }
    }

    /** `save_block_content`: the innermost block, to its end, from the chunk of its start marker on. */
    method SaveBlockContent(chunk: Option<bytes>)
      requires draining == None && saving != [] && (chunk.Some? ==> HasChunk(chunk)) && (chunk.None? ==> Ready())
      modifies this
      ensures Valid() && handed == None && Left() <= old(Left())
      ensures status == Running ==>
        draining == None && |saving| == |old(saving)| - 1 && renew == (saving == []) && (closing.Some? ==> AtEnd(Now()))
      decreases Left(), 1
    {
      hide Settle, Ending;
      var prev := chunk;
      while true
        invariant draining == None && |saving| == |old(saving)| && Left() <= old(Left())
        invariant (prev.Some? ==> HasChunk(prev)) && (prev.None? ==> Ready())
        decreases Left()
      {
        var done := SaveChunksToFile(prev);
        if status != Running {
          return;
        }
        if done {
          break;
        }
        prev := None;
      }
      FinishInnermost();
    }

    /** The hash is checked, the pointer form written, and the block published. */
    method FinishInnermost()
      requires Ready() && draining == None && saving != [] && AtEnd(Now())
      modifies this`status, this`store, this`saving, this`closing, this`renew
      ensures Valid() && handed == None
      ensures status == Running ==>
        |saving| == |old(saving)| - 1 && renew == (saving == []) && (closing.Some? ==> AtEnd(Now()))
    {
      hide Settle, Ending, FinishBlock, AtEnd;
      var open := saving[|saving| - 1];
      FinishSettles(host, Now());
      FinishCases(host, Fields(), open);
      if host.env.hash(open.absorbed) != open.id {
        status := Failed(BlockIdMismatch(open.id));
        FailedSettles(host, Now());
        return;
      }
      if open.writer.done != [] && !host.accepts(store, Close(open.writer), true) {
        status := Failed(NoPointerForm(Some(open.id)));
        FailedSettles(host, Now());
        return;
      }
      PublishInnermost(open);
    }

    method PublishInnermost(open: Open)
      requires saving != [] && saving[|saving| - 1] == open && pos <= |source|
      requires status == Running && handed == None && AtEnd(Now())
      requires var n := |saving| - 1;
        var after := Fields().(saving := saving[..n], store := Publish(store, open.id, StoredForm(open.writer)));
        var closing' := if closing == Some(n) then None else closing;
        Ending(host, Settle(host, Now().(st := after, closing := closing', renew := n == 0)), source[pos..]) == goal
      modifies this`store, this`saving, this`closing, this`renew
      ensures Valid() && |saving| == |old(saving)| - 1 && renew == (saving == []) && (closing.Some? ==> AtEnd(Now()))
    {
      hide Settle, Ending, Close, StoredForm;
      var n := |saving| - 1;
      if open.id !in store {
        store := store[open.id := StoredForm(open.writer)];
      }
      saving := saving[..n];
      if closing == Some(n) {
        closing := None;
      }
      renew := n == 0;
    }

    /** The blocks around a drained one take the pieces of its local copy. */
    method FeedHashers(items: seq<Item>)
      modifies this`saving
      ensures saving == Absorb(old(saving), ItemBytes(items))
    {
      var i := 0;
      AbsorbNothing(saving);
      while i < |items|
        invariant 0 <= i <= |items|
        invariant saving == Absorb(old(saving), ItemBytes(items[..i]))
      {
        assert items[..i + 1] == items[..i] + [items[i]];
        ItemBytesAppend(items[..i], [items[i]]);
        assert [items[i]][1..] == [];
        match items[i] {
          case Piece(b) =>
            assert ItemBytes([items[i]]) == b + [] == b;
            AbsorbTwice(old(saving), ItemBytes(items[..i]), b);
            UpdateHashers(b);
          case Marker(_, _) =>
            assert ItemBytes(items[..i]) + [] == ItemBytes(items[..i]);
        }
        i := i + 1;
      }
      assert items[..|items|] == items;
    }

    /** The drain loop stops at the block's own marker, or where nothing more comes. */
    ghost predicate Drained(id: Id)
      reads this
    {
      && Valid() && status == Running && !renew && draining == Some(id)
      && match handed
         case Some(b) => b.block.Some? && b.block.value.id == id && HasMarker(b, b.block.value)
         case None => AtEnd(Now())
    }

    /** The body of a held block goes by. */
    method PassBody(id: Id)
      requires Ready() && draining == Some(id)
      modifies this`pos, this`asked, this`levels, this`blocks, this`leaving, this`outer, this`shared, this`status,
               this`handed, this`closing
      ensures Valid() && Left() <= old(Left())
      ensures if status == Running then Drained(id) else handed == None
    {
      hide Settle, Ending, Layer;
      while true
        invariant Ready() && draining == Some(id) && Left() <= old(Left())
        decreases Left()
      {
        var r := Pull();
        if status != Running {
          return;
        }
        match r {
          case None =>
            return;
          case Some(b) =>
            if b.block.Some? && b.block.value.id == id {
              return;
            }
            PassesBy(host, Now(), b);
            handed := None;
        }
      }
    }

    /** The body of a held block goes by; the blocks around it take the local copy. */
    method DrainBlock(id: Id)
      requires Ready() && draining == Some(id)
      modifies this
      ensures Valid() && handed == None && Left() <= old(Left())
      ensures status == Running ==> draining == None && |saving| == |old(saving)|
      ensures status == Running ==> renew == (saving == []) && (closing.Some? ==> AtEnd(Now()))
      decreases Left(), 1
    {
      hide Settle, Ending, Layer, ReadBlock, ItemBytes, Absorb;
      PassBody(id);
      if status != Running {
        return;
      }
      DrainSettles(host, Now());
      handed := None;
      if saving != [] {
        match ReadBlock(host.env, store, id, true, 1, {}) {
          case Err(e) =>
            status := Failed(UnreadableBlock(e));
            return;
          case Ok(items) =>
            FeedHashers(items);
        }
      }
      draining := None;
      renew := saving == [];
    }

    /** `save_to_dir`: the object, with a new `parser_iterator` after each outermost block. */
    method SaveToDir()
      requires Valid() && status == Running && handed == None && draining == None
      requires closing == None && saving == [] && renew
      modifies this
      ensures status != Running && Fields() == goal
    {
      hide Settle, Ending, Close;
      while true
        invariant Valid() && status == Running && handed == None && draining == None
        invariant closing == None && saving == [] && renew
        decreases Left()
      {
        NewIterator(host, Now());
        levels, blocks, leaving, outer, shared := 1, [], false, None, false;
        renew := false;
        var done := SaveChunksToFile(None);
        if status != Running {
          StoppedIs(host, Now(), source[pos..]);
          return;
        }
        if done {
          break;
        }
      }
      ObjectEnds(host, Now());
      if top.done != [] && !host.accepts(store, Close(top), false) {
        status := Failed(NoPointerForm(None));
      } else {
        status := Finished;
      }
      StoppedEnds(host, Fields(), source[pos..]);
    }
  }

  lemma AbsorbNothing(saving: seq<Open>)
    ensures Absorb(saving, []) == saving && ItemBytes([]) == []
  {
    assert forall i | 0 <= i < |saving| :: saving[i].absorbed + [] == saving[i].absorbed;
  }

  lemma AbsorbTwice(saving: seq<Open>, a: bytes, b: bytes)
    ensures Absorb(Absorb(saving, a), b) == Absorb(saving, a + b)
  {
    assert forall i | 0 <= i < |saving| :: (saving[i].absorbed + a) + b == saving[i].absorbed + (a + b);
  }

  /** Inside a drained block nothing but its own marker is anything to anybody. */
  lemma PassesBy(host: Host, m: Moment, b: Buffer)
    requires m.st.status == Running && m.st.levels > 0 && !m.renew && m.handed == Some(b) && m.st.draining.Some?
    requires b.block.Some? ==>
      m.closing == None && Layer(m.st.saving, b.block.value.id) == None && m.st.draining.value != b.block.value.id
    ensures Settle(host, m) == Settle(host, m.(handed := None))
  {
    hide Break, FinishAfterDrain;
  }

  lemma NewIterator(host: Host, m: Moment)
    requires m.st.status == Running && m.renew && m.handed == None && m.closing == None
    ensures Settle(host, m) == Settle(host, Quiet(m.st.(levels := 1, blocks := [], outer := None)))
  {
  }

  lemma ObjectEnds(host: Host, m: Moment)
    requires m.st.status == Running && m.handed == None && !m.renew && AtEnd(m)
    requires m.st.saving == [] && m.st.draining == None
    ensures Settle(host, m) == FinishObject(host, m.st)
  {
    assert m.st.(levels := 0) == m.st;
  }

  lemma StoppedIs(host: Host, m: Moment, rest: seq<Buffer>)
    requires m.st.status != Running
    ensures Ending(host, Settle(host, m), rest) == m.st
  {
    StoppedEnds(host, m.st, rest);
  }

  /**
    Saving a stream with the generators leaves the store, the object and the outcome the
    machine reaches on the same stream.
    */
  method ParseFromBuffer(host: Host, source: seq<Buffer>, store: Store) returns (r: Receiving)
    ensures r.status != Running && r.Fields() == EndOfStream(host, Run(host, Init(store, []), source))
  {
    r := new Receiving(host, source, store);
    r.SaveToDir();
  }

  lemma ChunkKeepsFrames(st: State, b: bytes)
    ensures |TakeChunk(st, b).saving| == |st.saving|
    ensures TakeChunk(st, b) == st.(top := TakeChunk(st, b).top, saving := TakeChunk(st, b).saving)
  {
  }

  lemma ExtraKeepsFrames(st: State, chunk: Option<bytes>)
    ensures var after := Extra(st, chunk);
      |after.saving| == |st.saving| && after == st.(top := after.top, saving := after.saving)
  {
    if chunk.Some? { ChunkKeepsFrames(st, chunk.value); }
  }

  lemma HandedSettles(host: Host, m: Moment)
    requires m.st.status == Running && m.st.levels > 0 && !m.renew
    requires m.handed.Some? && m.handed.value.block == None
    ensures Settle(host, m) == Settle(host, m.(st := Extra(m.st, m.handed.value.chunk), handed := None))
  {
    hide Break, FinishAfterDrain, TakeChunk;
    ExtraKeepsFrames(m.st, m.handed.value.chunk);
  }

  /** A start marker at the innermost reader opens the block; a block being saved gets its chunk. */
  lemma StartOpens(host: Host, m: Moment, b: Buffer, mark: Spot)
    requires m.st.status == Running && m.st.levels > 0 && !m.renew && m.st.draining == None
    requires m.handed == Some(b) && b.block == Some(mark) && m.closing == None && Layer(m.st.saving, mark.id) == None
    ensures var handed := if b.chunk.Some? && mark.id !in m.st.store then Some(b.(block := None)) else None;
      Settle(host, m) == Settle(host, m.(st := StartBlock(m.st, mark.id, mark.chain), handed := handed))
  {
    hide Break, FinishAfterDrain, Cut;
  }

  lemma {:induction false} LayerIsInside(saving: seq<Open>, id: Id)
    ensures Layer(saving, id).Some? ==> Layer(saving, id).value < |saving|
  {
    if saving != [] { LayerIsInside(saving[1..], id); }
  }

  /** A `stop_generator` has seen its marker, and takes it off the buffer. */
  lemma StopSettles(host: Host, m: Moment, b: Buffer, mark: Spot)
    requires m.handed == Some(b) && b.block == Some(mark) && Layer(m.st.saving, mark.id).Some?
    requires m.st.status == Running && !m.renew && m.closing == None
    ensures var outer := if m.shared then Cleared(m.st.outer) else m.st.outer;
      Settle(host, m) ==
      Settle(host, m.(st := m.st.(outer := outer), handed := Some(b.(block := None)), shared := false,
                      closing := Layer(m.st.saving, mark.id)))
  {
    hide Break, FinishAfterDrain;
  }
}
