/**
  A whole transfer: the sender pulls its object through the skip filter, the wire delays
  what it lets out, the receiver asks to skip what it holds, and each request reaches the
  filter whenever it does.
  */
module Transfers {
  import opened Bytes
  import opened Documents
  import opened Layouts
  import opened Stores
  import opened Reader
  import opened Receiver
  import opened Descent
  import opened Filters
  import RoundTrips
  import opened SkipFilters
  import Safety

  /**
    `todo` is what the sender has still to read, `wire` all the filter has let out, of which
    the receiver has taken the first `taken`; `delivered` of its requests have arrived.
    */
  datatype World = World(todo: seq<Item>, filter: Filter, wire: seq<Item>, taken: nat, receiver: State, delivered: nat)

  function Start(items: seq<Item>, held: Store): World {
    World(items, IDLE, [], 0, Init(held, []), 0)
  }

  /** The filter knows the requests that have arrived, and may have missed the latest of them. */
  predicate Knows(w: World, ev: Event) {
    && Fits(w.filter, ev)
    && w.delivered <= |w.receiver.asked|
    && (ev.answer.Some? ==> w.filter.stack[ev.answer.value - 1] in w.receiver.asked[..w.delivered])
  }

  predicate Pulls(w: World, w': World, ev: Event) {
    && Knows(w, ev) && ev.Pull? && w.todo != [] && ev.item == w.todo[0]
    && w' == w.(todo := w.todo[1..], filter := Next(w.filter, ev), wire := w.wire + Out(w.filter, ev))
  }

  predicate Consults(w: World, w': World, ev: Event) {
    Knows(w, ev) && ev.Consult? && w' == w.(filter := Next(w.filter, ev))
  }

  predicate Receives(host: Host, w: World, w': World) {
    && w.taken < |w.wire|
    && w' == w.(taken := w.taken + 1, receiver := TakeItem(host, w.receiver, w.wire[w.taken]))
  }

  predicate Delivers(w: World, w': World) {
    w.delivered < |w.receiver.asked| && w' == w.(delivered := w.delivered + 1)
  }

  ghost predicate Moves(host: Host, w: World, w': World) {
    || (exists ev :: Pulls(w, w', ev))
    || (exists ev :: Consults(w, w', ev))
    || Receives(host, w, w')
    || Delivers(w, w')
  }

  /** An interleaving of sending, receiving and delivering requests. */
  ghost predicate History(host: Host, items: seq<Item>, held: Store, ws: seq<World>) {
    && |ws| > 0 && ws[0] == Start(items, held)
    && forall i | 0 < i < |ws| :: Moves(host, ws[i - 1], ws[i])
  }

  /** Nothing is left to send or to take. */
  predicate Complete(w: World) {
    w.todo == [] && !w.filter.due && w.taken == |w.wire|
  }

  /** The receiver given all the filter was given, and the receiver given all it let out. */
  function LockOf(host: Host, items: seq<Item>, held: Store, w: World): Lock
    requires |w.todo| <= |items|
  {
    Lock(w.filter, RunItems(host, Init(held, []), items[..|items| - |w.todo|]), RunItems(host, Init(held, []), w.wire))
  }

  ghost predicate Consistent(host: Host, items: seq<Item>, held: Store, w: World) {
    && |w.todo| <= |items| && w.todo == items[|items| - |w.todo|..]
    && Locked(host, LockOf(host, items, held, w))
    && w.taken <= |w.wire|
    && w.receiver == RunItems(host, Init(held, []), w.wire[..w.taken])
    && w.delivered <= |w.receiver.asked|
  }

  lemma {:induction false} RunItemsKeeps(host: Host, st: State, items: seq<Item>)
    requires Good(host, st)
    ensures Safety.Kept(host, st, RunItems(host, st, items))
    decreases |items|
  {
    hide Good, TakeItem;
    if items != [] {
      Safety.ItemKeeps(host, st, items[0]);
      RunItemsKeeps(host, TakeItem(host, st, items[0]), items[1..]);
    }
  }

  /** The receiver has asked for no more than the one that has everything on the wire. */
  lemma AsksBehind(host: Host, items: seq<Item>, held: Store, w: World)
    requires Sound(host.env, held) && Consistent(host, items, held, w)
    ensures w.receiver.asked <= LockOf(host, items, held, w).filtered.asked
    ensures RunItems(host, w.receiver, w.wire[w.taken..]) == LockOf(host, items, held, w).filtered
  {
    hide Good, Locked;
    var st := Init(held, []);
    Safety.InitIsGood(host, held);
    assert w.wire == w.wire[..w.taken] + w.wire[w.taken..];
    RunItemsAppend(host, st, w.wire[..w.taken], w.wire[w.taken..]);
    RunItemsKeeps(host, st, w.wire[..w.taken]);
    RunItemsKeeps(host, w.receiver, w.wire[w.taken..]);
  }

  lemma StartIsConsistent(host: Host, items: seq<Item>, held: Store)
    requires Sound(host.env, held)
    ensures Consistent(host, items, held, Start(items, held))
  {
    hide Good;
    Safety.InitIsGood(host, held);
    assert items[..0] == [];
    assert SavingIds([]) == [];
  }

  lemma EventKeeps(host: Host, items: seq<Item>, held: Store, w: World, w': World, ev: Event)
    requires Sound(host.env, held) && Consistent(host, items, held, w)
    requires Pulls(w, w', ev) || Consults(w, w', ev)
    ensures Consistent(host, items, held, w')
  {
    hide Locked, TakeItem, Next, Out;
    var l, st := LockOf(host, items, held, w), Init(held, []);
    AsksBehind(host, items, held, w);
    assert Causal(l, ev);
    StepKeeps(host, l, ev);
    var n := |items| - |w.todo|;
    RunItemsAppend(host, st, w.wire, Out(w.filter, ev));
    assert w'.wire[..w.taken] == w.wire[..w.taken];
    if ev.Pull? {
      assert items[..n + 1] == items[..n] + [items[n]];
      RunItemsAppend(host, st, items[..n], [items[n]]);
      RunOne(host, l.plain, items[n]);
    } else {
      NothingOut(w.filter, ev);
      assert w.wire + [] == w.wire;
    }
    assert LockOf(host, items, held, w') == Step(host, l, ev);
  }

  lemma NothingOut(fs: Filter, ev: Event)
    requires ev.Consult? && |fs.sent| == |fs.stack|
    ensures Out(fs, ev) == []
  {
  }

  lemma MoveKeeps(host: Host, items: seq<Item>, held: Store, w: World, w': World)
    requires Sound(host.env, held) && Consistent(host, items, held, w) && Moves(host, w, w')
    ensures Consistent(host, items, held, w')
  {
    hide Locked, TakeItem, Pulls, Consults, Good;
    if ev :| Pulls(w, w', ev) {
      EventKeeps(host, items, held, w, w', ev);
    } else if ev :| Consults(w, w', ev) {
      EventKeeps(host, items, held, w, w', ev);
    } else if Receives(host, w, w') {
      ReceiveKeeps(host, items, held, w, w');
    } else {
      assert Delivers(w, w');
    }
  }

  lemma ReceiveKeeps(host: Host, items: seq<Item>, held: Store, w: World, w': World)
    requires Sound(host.env, held) && Consistent(host, items, held, w) && Receives(host, w, w')
    ensures Consistent(host, items, held, w')
  {
    hide Locked, TakeItem, Good;
    var st, n := Init(held, []), w.taken;
    assert w.wire[..n + 1] == w.wire[..n] + [w.wire[n]];
    RunItemsAppend(host, st, w.wire[..n], [w.wire[n]]);
    RunOne(host, w.receiver, w.wire[n]);
    Safety.InitIsGood(host, held);
    RunItemsKeeps(host, st, w.wire[..n]);
    Safety.ItemKeeps(host, w.receiver, w.wire[n]);
  }

  /** Causality: at every moment of every interleaving the two receivers are in step. */
  lemma {:induction false} HistoryIsConsistent(host: Host, items: seq<Item>, held: Store, ws: seq<World>)
    requires Sound(host.env, held) && History(host, items, held, ws)
    ensures Consistent(host, items, held, ws[|ws| - 1])
    decreases |ws|
  {
    hide Consistent, Moves;
    if |ws| == 1 {
      StartIsConsistent(host, items, held);
    } else {
      var before := ws[..|ws| - 1];
      forall i | 0 < i < |before| ensures Moves(host, before[i - 1], before[i]) {
        assert before[i - 1] == ws[i - 1] && before[i] == ws[i];
      }
      HistoryIsConsistent(host, items, held, before);
      MoveKeeps(host, items, held, ws[|ws| - 2], ws[|ws| - 1]);
    }
  }

  /**
    End to end. An object of a sound store, sent through the skip filter to any sound store,
    however sending, receiving and the delivery of skip requests interleave, arrives as the
    same entries over blocks that expand to the sender's bytes; only a pointer form that the
    receiver cannot write stops it.
    */
  lemma EndToEnd(env: Environment, host: Host, sent: Store, es: Directory, f: Flow, items: seq<Item>, held: Store,
                 ws: seq<World>)
    requires env.hash == host.env.hash && RoundTrips.Injective(env.hash)
    requires Sound(env, sent) && Sound(host.env, held)
    requires RoundTrips.Streams(env, sent, es, f, items)
    requires RoundTrips.Nesting(Frame(f, 1, env.blockDepth)) <= MAX_BLOCK_NESTING
    requires History(host, items, held, ws) && Complete(ws[|ws| - 1])
    ensures var framed := Frame(f, 1, env.blockDepth); var st := Take(host, ws[|ws| - 1].receiver, SEPARATOR);
      && RoundTrips.ArrivedUnlessRefused(host, sent, es, framed, held, st)
      && (RoundTrips.Takes(host, es, framed) ==> RoundTrips.Arrived(host, sent, es, held, st))
      && (RoundTrips.WellKept(sent) && st.status == Finished ==>
        RoundTrips.KeptInKind(sent, held, st.store, RoundTrips.Nesting(f) <= env.blockDepth))
  {
    hide RoundTrips.KeptInKind, RoundTrips.WellKept, RoundTrips.Nesting, Sound, Good, ReadDirectory, Alternates,
        RoundTrips.Takes, RoundTrips.Arrived, RoundTrips.Injective, RoundTrips.ArrivedUnlessRefused, Take, Moves,
        RoundTrips.ObjectRead, RunItems, Frame;
    var w := ws[|ws| - 1];
    HistoryIsConsistent(host, items, held, ws);
    var r := RoundTrips.ObjectIsParsed(env, host, sent, es, f, items, held);
    assert items[..|items|] == items && w.wire[..|w.wire|] == w.wire;
    ReadInStep(host, sent, es, f, env.blockDepth, held, r, LockOf(host, items, held, w));
    RoundTrips.ObjectEnds(env, host, sent, es, f, held, r, w.receiver);
  }

  /** The filtered receiver has read the object as the plain one has, or failed as it did. */
  lemma ReadInStep(host: Host, sent: Store, es: Directory, f: Flow, limit: nat, held: Store,
                   r: Result<Parsed, Failure>, l: Lock)
    requires RoundTrips.ObjectRead(host, sent, es, f, limit, held, r, l.plain) && Locked(host, l)
    ensures RoundTrips.ObjectRead(host, sent, es, f, limit, held, r, l.filtered)
  {
    hide RoundTrips.KeptInKind, RoundTrips.Received, Good, RoundTrips.Refused, RoundTrips.Accepts, Frame;
    match r
    case Err(e) => assert !Broken(l.plain);
    case Ok(p) =>
      assert l.plain.blocks == [] && l.plain.levels == 1;
      assert l.filtered.blocks == [] && l.filtered.levels == 1;
  }

  lemma {:induction false} ParseIsNotTooDeep(host: Host, s: Store, asked: seq<Id>, depth: nat, w: Writer, f: Flow)
    requires depth + RoundTrips.Nesting(f) <= MAX_BLOCK_NESTING
    ensures var r := Parse(host, s, asked, depth, w, f);
      r.Err? ==> r.error != NestedTooDeep && r.error != IntersectionError
    decreases f
  {
    match f
    case Nil =>
    case Bytes(b, r) => ParseIsNotTooDeep(host, s, asked, depth, Write(w, b), r);
    case Block(id, c, body, r) =>
      if id in s {
        RoundTrips.DrainsWhole(s, Ask(asked, id), depth + 1, body);
        ParseIsNotTooDeep(host, s, Drain(s, Ask(asked, id), depth + 1, body).value, depth, Cut(w, id, c), r);
      } else {
        ParseIsNotTooDeep(host, s, asked, depth + 1, EMPTY, body);
        var p := Parse(host, s, asked, depth + 1, EMPTY, body);
        if p.Ok? && Saved(host, id, c, w, p.value).Ok? {
          var q := Saved(host, id, c, w, p.value).value;
          ParseIsNotTooDeep(host, q.store, q.asked, depth, q.writer, r);
        }
      }
  }

  /** No part of a well-nested stream breaks the rule. */
  lemma PlainIsUnbroken(host: Host, f: Flow, held: Store, n: nat)
    requires Proper(f, []) && RoundTrips.Nesting(f) <= MAX_BLOCK_NESTING && n <= |Items(f)|
    ensures !Broken(RunItems(host, Init(held, []), Items(f)[..n]))
  {
    hide TakeItem, Parse, Advance, RoundTrips.Nesting, Proper, Items, RunItems;
    var items, st := Items(f), Init(held, []);
    assert items == items[..n] + items[n..];
    RunItemsAppend(host, st, items[..n], items[n..]);
    assert Settled(st);
    Descends(host, st, f);
    ParseIsNotTooDeep(host, held, [], 0, EMPTY, f);
    var r := Parse(host, held, [], 0, EMPTY, f);
    if r.Ok? { AdvanceRuns(held, r.value); }
    var some := RunItems(host, st, items[..n]);
    if Broken(some) { RunStopped(host, some, items[n..]); }
  }

  lemma AdvanceRuns(held: Store, p: Parsed)
    ensures Advance(Init(held, []), p).status == Running
  {
  }

  /**
    However requests and items interleave, and whatever a well-nested stream brings, the
    receiver never meets the end of a block that is not the innermost open one.
    */
  lemma RuleNeverFails(host: Host, f: Flow, held: Store, ws: seq<World>)
    requires Sound(host.env, held) && Proper(f, []) && RoundTrips.Nesting(f) <= MAX_BLOCK_NESTING
    requires History(host, Items(f), held, ws)
    ensures !Broken(ws[|ws| - 1].receiver)
  {
    hide Good, Moves, InStep, RunItems, Items, RoundTrips.Nesting, Proper;
    var w := ws[|ws| - 1];
    HistoryIsConsistent(host, Items(f), held, ws);
    PlainIsUnbroken(host, f, held, |Items(f)| - |w.todo|);
    AsksBehind(host, Items(f), held, w);
    if Broken(w.receiver) { RunStopped(host, w.receiver, w.wire[w.taken..]); }
  }

  // -------------------------------------------------------------- the whole stream

  function Fed(items: seq<Item>): seq<Buffer> {
    if items == [] then [] else [Carry(items[0])] + Fed(items[1..])
  }

  /** `send_file`: a head, what the filter lets out, a separator. */
  function SentFile(wire: seq<Item>): seq<Buffer> {
    [HEAD] + Fed(wire) + [SEPARATOR]
  }

  lemma {:induction false} FedRuns(host: Host, st: State, items: seq<Item>)
    ensures Run(host, st, Fed(items)) == RunItems(host, st, items)
    decreases |items|
  {
    hide Take;
    if items != [] {
      assert Fed(items)[1..] == Fed(items[1..]);
      assert Fed(items)[0] == Carry(items[0]);
      FedRuns(host, TakeItem(host, st, items[0]), items[1..]);
    }
  }

  lemma SentFileRuns(host: Host, st: State, wire: seq<Item>)
    requires st.status == Running
    ensures Run(host, st, SentFile(wire)) == Take(host, RunItems(host, st, wire), SEPARATOR)
  {
    hide TakeItem, Break, Take;
    var head, end := [HEAD], [SEPARATOR];
    assert end[1..] == [] && head[1..] == [];
    RunAppend(host, st, head + Fed(wire), end);
    RunAppend(host, st, head, Fed(wire));
    HeadIsPassed(host, st);
    assert Run(host, st, head) == Run(host, st, []) == st;
    FedRuns(host, st, wire);
    var over := RunItems(host, st, wire);
    assert Run(host, over, end) == Run(host, Take(host, over, SEPARATOR), []);
  }

  lemma HeadIsPassed(host: Host, st: State)
    ensures Take(host, st, HEAD) == st
  {
  }

  /**
    The same for the stream as it is on the wire, from its head to its separator: this is
    what saving it with the generators leaves.
    */
  lemma StreamArrives(env: Environment, host: Host, sent: Store, es: Directory, f: Flow, items: seq<Item>, held: Store,
                      ws: seq<World>)
    requires env.hash == host.env.hash && RoundTrips.Injective(env.hash)
    requires Sound(env, sent) && Sound(host.env, held)
    requires RoundTrips.Streams(env, sent, es, f, items)
    requires RoundTrips.Nesting(Frame(f, 1, env.blockDepth)) <= MAX_BLOCK_NESTING
    requires History(host, items, held, ws) && Complete(ws[|ws| - 1])
    ensures var framed := Frame(f, 1, env.blockDepth);
      var st := EndOfStream(host, Run(host, Init(held, []), SentFile(ws[|ws| - 1].wire)));
      && RoundTrips.ArrivedUnlessRefused(host, sent, es, framed, held, st)
      && (RoundTrips.Takes(host, es, framed) ==> RoundTrips.Arrived(host, sent, es, held, st))
  {
    hide Sound, RoundTrips.Injective, RoundTrips.Streams, RoundTrips.Takes, Moves, Take, RunItems, Locked, RoundTrips.Nesting,
        RoundTrips.Refusal, Frame;
    EndToEnd(env, host, sent, es, f, items, held, ws);
    HistoryIsConsistent(host, items, held, ws);
    var w := ws[|ws| - 1];
    assert w.wire[..|w.wire|] == w.wire;
    SentFileRuns(host, Init(held, []), w.wire);
  }

  // ------------------------------------------------------- the filter's own answers

  /** What the filter sees in the control is something the world allows it to know. */
  lemma LooksAreKnown(w: World, skip: set<Id>, item: Item)
    requires |w.filter.sent| == |w.filter.stack| && w.delivered <= |w.receiver.asked|
    requires forall id <- skip :: id in w.receiver.asked[..w.delivered]
    ensures var answer := Outermost(w.filter.stack, skip);
      Knows(w, if w.filter.due then Consult(answer) else Pull(item, answer))
  {
  }
}
