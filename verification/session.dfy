/**
  A transfer with the objects that carry it out: the skip filter at the sender, a control
  at either end, and requests in flight between the controls.
  */
module Sessions {
  import opened Bytes
  import opened Documents
  import opened Layouts
  import opened Stores
  import opened Reader
  import opened Receiver
  import opened Descent
  import opened Filters
  import opened SkipFilters
  import opened Controls
  import opened Transfers
  import RoundTrips
  import Safety

  /** A marker that starts a block. */
  predicate Opens(st: State, item: Item) {
    st.status == Running && item.Marker? && item.id !in st.blocks && |st.blocks| < MAX_BLOCK_NESTING
  }

  /** The receiver asks to skip a block when it starts, if it holds it, and at no other time. */
  lemma AsksWhenHeld(host: Host, st: State, item: Item)
    requires Good(host, st)
    ensures var after := TakeItem(host, st, item);
      if Opens(st, item) && item.id in st.store then item.id in after.asked && Grown(st.asked, after.asked, item.id)
      else after.asked == st.asked
  {
    hide Steady, Sound, Yield, Break, TakeChunk, Asking;
    if st.status == Running {
      match item
      case Piece(b) => Safety.ChunkKeeps(host, st, b);
      case Marker(id, chain) =>
        var popped := if st.blocks == [] then st else st.(blocks := st.blocks[..|st.blocks| - 1]);
        Safety.LevelsAside(host, st, popped);
        if Opens(st, item) {
          var inside := Enter(st, Spot(id, chain), Carry(item));
          Safety.LevelsAside(host, st, inside);
          Safety.YieldKeeps(host, inside, id, chain, None);
        } else if id in st.blocks && popped.blocks == [] {
          Safety.BreakKeeps(host, popped);
        } else if id in st.blocks {
          Safety.YieldKeeps(host, popped, id, chain, None);
          var yielded := Yield(host, popped, id, chain, None);
          if yielded.status == Running { Safety.BreakKeeps(host, yielded); }
        }
    }
  }

  /** In any run, a held block that opens has been asked for by its end, and stays so. */
  lemma HeldIsAsked(host: Host, st: State, items: seq<Item>, i: nat)
    requires Good(host, st) && i < |items|
    ensures var before := RunItems(host, st, items[..i]);
      Opens(before, items[i]) && items[i].id in before.store ==> items[i].id in RunItems(host, st, items).asked
  {
    hide TakeItem, Good, Opens;
    var before := RunItems(host, st, items[..i]);
    var after := TakeItem(host, before, items[i]);
    assert items == items[..i] + [items[i]] + items[i + 1..];
    RunItemsAppend(host, st, items[..i] + [items[i]], items[i + 1..]);
    RunItemsAppend(host, st, items[..i], [items[i]]);
    RunOne(host, before, items[i]);
    RunItemsKeeps(host, st, items[..i]);
    AsksWhenHeld(host, before, items[i]);
    Safety.ItemKeeps(host, before, items[i]);
    RunItemsKeeps(host, after, items[i + 1..]);
  }

  lemma GrownAlike(before: seq<Id>, a: seq<Id>, b: seq<Id>, id: Id)
    requires Grown(before, a, id) && Grown(before, b, id) && id in a && id in b
    ensures a == b
  {
    if id !in before {
      LastIsNew(before, a, id);
      LastIsNew(before, b, id);
    }
  }

  /** What either side does next: send an item, take one, hand requests out, deliver one. */
  datatype Deed = Sending | Taking | HandingOut(all: bool) | Delivering

  /** The objects are where the world says they are. */
  ghost predicate Coupled(w: World, filter: SkipFilter, receiver: StreamControl, inFlight: seq<Wire>)
    reads filter, filter.control, receiver
  {
    && filter.Valid() && filter.State() == w.filter
    && Linked(receiver, filter.control, inFlight, w.delivered)
    && receiver.asks == w.receiver.asked
  }

  ghost predicate Reached(host: Host, items: seq<Item>, held: Store, ws: seq<World>, w: World) {
    History(host, items, held, ws) && ws[|ws| - 1] == w
  }

  lemma Moved(host: Host, items: seq<Item>, held: Store, ws: seq<World>, w: World, w': World)
    requires Reached(host, items, held, ws, w) && Moves(host, w, w')
    ensures Reached(host, items, held, ws + [w'], w')
  {
    hide Moves;
    var more := ws + [w'];
    forall i | 0 < i < |more| ensures Moves(host, more[i - 1], more[i]) {
      if i < |ws| { assert more[i] == ws[i] && more[i - 1] == ws[i - 1]; }
    }
  }

  /** Ids are hash values, and no hash value is empty. */
  ghost predicate NeverEmpty(hash: bytes -> Id) {
    forall b :: hash(b) != []
  }

  lemma ReceiverIsGood(host: Host, items: seq<Item>, held: Store, ws: seq<World>, w: World)
    requires Sound(host.env, held) && Reached(host, items, held, ws, w)
    ensures Good(host, w.receiver)
  {
    hide Good, Moves, Locked;
    HistoryIsConsistent(host, items, held, ws);
    Safety.InitIsGood(host, held);
    RunItemsKeeps(host, Init(held, []), w.wire[..w.taken]);
  }

  lemma HeldIsNamed(host: Host, st: State, id: Id)
    requires Good(host, st) && NeverEmpty(host.env.hash) && id in st.store
    ensures id != []
  {
    RoundTrips.SoundNames(host.env, st.store, id);
  }

  /** What the filter sees in its control is something the world allows it to know. */
  lemma LinkedKnows(w: World, filter: SkipFilter, receiver: StreamControl, inFlight: seq<Wire>, item: Item)
    requires Coupled(w, filter, receiver, inFlight)
    ensures var answer := Outermost(w.filter.stack, filter.control.skip);
      Knows(w, if w.filter.due then Consult(answer) else Pull(item, answer))
  {
    hide Outermost;
    LooksAreKnown(w, filter.control.skip, item);
  }

  /** The world after the filter, resumed with the next item, has looked at its control and taken the item. */
  function Looked(w: World, answer: Option<nat>): World
    requires |w.filter.sent| == |w.filter.stack|
  {
    if w.filter.due then w.(filter := Next(w.filter, Consult(answer))) else w
  }

  function SentOn(w: World, answer: Option<nat>): World
    requires |w.filter.sent| == |w.filter.stack| && w.todo != []
  {
    var ready, ev := Looked(w, answer).filter, Pull(w.todo[0], answer);
    w.(todo := w.todo[1..], filter := Next(ready, ev), wire := w.wire + Out(ready, ev))
  }

  lemma SendsOn(host: Host, items: seq<Item>, held: Store, ws: seq<World>, w: World, answer: Option<nat>)
    returns (ws': seq<World>)
    requires Reached(host, items, held, ws, w) && w.todo != [] && |w.filter.sent| == |w.filter.stack|
    requires Knows(w, if w.filter.due then Consult(answer) else Pull(w.todo[0], answer))
    ensures Reached(host, items, held, ws', SentOn(w, answer))
  {
    hide Next, Out, History;
    var looked := Looked(w, answer);
    ws' := ws;
    if w.filter.due {
      assert Consults(w, looked, Consult(answer));
      Moved(host, items, held, ws, w, looked);
      ws' := ws + [looked];
      LooksOnce(w.filter, answer);
    }
    assert Pulls(looked, SentOn(w, answer), Pull(w.todo[0], answer));
    Moved(host, items, held, ws', looked, SentOn(w, answer));
    ws' := ws' + [SentOn(w, answer)];
  }

  lemma LooksOnce(fs: Filter, answer: Option<nat>)
    requires |fs.sent| == |fs.stack|
    ensures var after := Next(fs, Consult(answer)); !after.due && after.stack == fs.stack && after.sent == fs.sent
  {
  }

  /** The requests that have arrived. */
  function Arrivals(w: World): set<Id> {
    var heard := if w.delivered < |w.receiver.asked| then w.receiver.asked[..w.delivered] else w.receiver.asked;
    set id <- heard
  }

  /** A world, and how many of the receiver's requests have been handed out. */
  datatype Progress = Progress(world: World, handed: nat)

  /** What one deed comes to, if there is anything to do. */
  function Ticked(host: Host, p: Progress, deed: Deed): Progress {
    var w := p.world;
    match deed
    case Sending =>
      if w.todo == [] || |w.filter.sent| != |w.filter.stack| then p
      else p.(world := SentOn(w, Outermost(w.filter.stack, Arrivals(w))))
    case Taking =>
      if w.taken >= |w.wire| then p
      else p.(world := w.(taken := w.taken + 1, receiver := TakeItem(host, w.receiver, w.wire[w.taken])))
    case HandingOut(all) =>
      if all then p.(handed := |w.receiver.asked|)
      else if p.handed < |w.receiver.asked| then p.(handed := p.handed + 1)
      else p
    case Delivering => if w.delivered >= p.handed then p else p.(world := w.(delivered := w.delivered + 1))
  }

  function Ticks(host: Host, p: Progress, deeds: seq<Deed>): Progress
    decreases |deeds|
  {
    if deeds == [] then p else Ticked(host, Ticks(host, p, deeds[..|deeds| - 1]), deeds[|deeds| - 1])
  }

  lemma TicksOne(host: Host, p: Progress, deeds: seq<Deed>, i: nat)
    requires i < |deeds|
    ensures Ticks(host, p, deeds[..i + 1]) == Ticked(host, Ticks(host, p, deeds[..i]), deeds[i])
    ensures Ticks(host, p, deeds[..0]) == p
  {
    hide Ticked;
    assert deeds[..i + 1][..i] == deeds[..i];
  }

  lemma CoupledKnows(w: World, filter: SkipFilter, receiver: StreamControl, inFlight: seq<Wire>)
    requires Coupled(w, filter, receiver, inFlight)
    ensures filter.control.skip == Arrivals(w) && |w.filter.sent| == |w.filter.stack|
    ensures |inFlight| == receiver.handed - w.delivered && w.receiver.asked == receiver.asks
  {
    InFlightIs(receiver, filter.control, inFlight, w.delivered);
  }

  /** The filter is resumed with the sender's next item; it looks at its own control. */
  method Send(host: Host, items: seq<Item>, held: Store, filter: SkipFilter, receiver: StreamControl, inFlight: seq<Wire>,
              w: World, ghost ws: seq<World>)
    returns (w': World, ghost ws': seq<World>)
    requires Reached(host, items, held, ws, w) && Coupled(w, filter, receiver, inFlight) && w.todo != []
    modifies filter
    ensures Reached(host, items, held, ws', w') && Coupled(w', filter, receiver, inFlight)
    ensures Progress(w', receiver.handed) == Ticked(host, Progress(w, receiver.handed), Sending)
  {
    hide Reached, Outermost, Next, Out, Linked, Knows;
    ghost var answer := Outermost(w.filter.stack, filter.control.skip);
    LinkedKnows(w, filter, receiver, inFlight, w.todo[0]);
    LinkedEnabled(w, filter, receiver, inFlight);
    CoupledKnows(w, filter, receiver, inFlight);
    ws' := SendsOn(host, items, held, ws, w, answer);
    var out := filter.Take(w.todo[0]);
    w' := w.(todo := w.todo[1..], filter := filter.State(), wire := w.wire + out);
  }

  lemma LinkedEnabled(w: World, filter: SkipFilter, receiver: StreamControl, inFlight: seq<Wire>)
    requires Coupled(w, filter, receiver, inFlight)
    ensures filter.control.enabled && receiver != filter.control && |w.filter.sent| == |w.filter.stack|
  {
  }

  /** The receiver takes the next item, and asks to skip the block that starts if it holds it. */
  method Receive(host: Host, items: seq<Item>, held: Store, filter: SkipFilter, receiver: StreamControl,
                 inFlight: seq<Wire>, w: World, ghost ws: seq<World>)
    returns (w': World, ghost ws': seq<World>)
    requires Sound(host.env, held) && NeverEmpty(host.env.hash)
    requires Reached(host, items, held, ws, w) && Coupled(w, filter, receiver, inFlight) && w.taken < |w.wire|
    modifies receiver
    ensures Reached(host, items, held, ws', w') && Coupled(w', filter, receiver, inFlight)
    ensures Progress(w', receiver.handed) == Ticked(host, Progress(w, old(receiver.handed)), Taking)
  {
    hide History, Outermost, Linked, TakeItem, Good, NeverEmpty;
    var item := w.wire[w.taken];
    ReceiverIsGood(host, items, held, ws, w);
    AsksWhenHeld(host, w.receiver, item);
    LinkedEnabled(w, filter, receiver, inFlight);
    w' := w.(taken := w.taken + 1, receiver := TakeItem(host, w.receiver, item));
    Moved(host, items, held, ws, w, w');
    ws' := ws + [w'];
    if Opens(w.receiver, item) && item.id in w.receiver.store {
      HeldIsNamed(host, w.receiver, item.id);
      Request(receiver, filter.control, inFlight, w.delivered, item.id);
      GrownAlike(w.receiver.asked, receiver.asks, w'.receiver.asked, item.id);
    }
  }

  /** A request that has arrived. */
  method Deliver(host: Host, items: seq<Item>, held: Store, filter: SkipFilter, receiver: StreamControl,
                 inFlight: seq<Wire>, w: World, ghost ws: seq<World>)
    returns (inFlight': seq<Wire>, w': World, ghost ws': seq<World>)
    requires Reached(host, items, held, ws, w) && Coupled(w, filter, receiver, inFlight) && inFlight != []
    modifies filter.control
    ensures Reached(host, items, held, ws', w') && Coupled(w', filter, receiver, inFlight')
    ensures Progress(w', receiver.handed) == Ticked(host, Progress(w, old(receiver.handed)), Delivering)
  {
    hide History, Outermost, Receives;
    var passed: seq<Wire>;
    CoupledKnows(w, filter, receiver, inFlight);
    inFlight', passed := Arrive(receiver, filter.control, inFlight, w.delivered);
    w' := w.(delivered := w.delivered + 1);
    assert Delivers(w, w');
    Moved(host, items, held, ws, w, w');
    ws' := ws + [w'];
  }

  /**
    Whatever the two parties do in whatever order, with the library's filter and controls,
    is one of the histories the end-to-end results are about.
    */
  method Play(host: Host, items: seq<Item>, held: Store, filter: SkipFilter, receiver: StreamControl, deeds: seq<Deed>)
    returns (w: World, inFlight: seq<Wire>, ghost ws: seq<World>)
    requires Sound(host.env, held) && NeverEmpty(host.env.hash)
    requires Coupled(Start(items, held), filter, receiver, [])
    modifies filter, filter.control, receiver
    ensures Reached(host, items, held, ws, w) && Coupled(w, filter, receiver, inFlight)
    ensures Progress(w, receiver.handed) == Ticks(host, Progress(Start(items, held), old(receiver.handed)), deeds)
  {
    hide Linked, Reached, Coupled, Ticked, Ticks;
    ghost var start := Progress(Start(items, held), receiver.handed);
    w, inFlight := Start(items, held), [];
    ws := [w];
    Begins(host, items, held);
    NoTicks(host, start);
    var i := 0;
    while i < |deeds|
      invariant i <= |deeds|
      invariant Reached(host, items, held, ws, w) && Coupled(w, filter, receiver, inFlight)
      invariant Progress(w, receiver.handed) == Ticks(host, start, deeds[..i])
    {
      TicksOne(host, start, deeds, i);
      CoupledKnows(w, filter, receiver, inFlight);
      NothingToDo(host, Progress(w, receiver.handed));
      match deeds[i] {
        case Sending =>
          if w.todo != [] {
            w, ws := Send(host, items, held, filter, receiver, inFlight, w, ws);
          }
        case Taking =>
          if w.taken < |w.wire| {
            w, ws := Receive(host, items, held, filter, receiver, inFlight, w, ws);
          }
        case HandingOut(all) =>
          inFlight := HandOut(host, filter, receiver, inFlight, w, all);
        case Delivering =>
          if inFlight != [] {
            inFlight, w, ws := Deliver(host, items, held, filter, receiver, inFlight, w, ws);
          }
      }
      i := i + 1;
    }
    assert deeds[..|deeds|] == deeds;
  }

  lemma NothingToDo(host: Host, p: Progress)
    ensures p.world.todo == [] ==> Ticked(host, p, Sending) == p
    ensures p.world.taken >= |p.world.wire| ==> Ticked(host, p, Taking) == p
    ensures p.world.delivered >= p.handed ==> Ticked(host, p, Delivering) == p
  {
  }

  lemma NoTicks(host: Host, p: Progress)
    ensures Ticks(host, p, []) == p
  {
  }

  lemma Begins(host: Host, items: seq<Item>, held: Store)
    ensures Reached(host, items, held, [Start(items, held)], Start(items, held))
  {
  }

  method HandOut(host: Host, filter: SkipFilter, receiver: StreamControl, inFlight: seq<Wire>, w: World, all: bool)
    returns (inFlight': seq<Wire>)
    requires Coupled(w, filter, receiver, inFlight)
    modifies receiver
    ensures Coupled(w, filter, receiver, inFlight')
    ensures Progress(w, receiver.handed) == Ticked(host, Progress(w, old(receiver.handed)), HandingOut(all))
  {
    LinkedEnabled(w, filter, receiver, inFlight);
    hide Linked;
    if all {
      inFlight' := Flush(receiver, filter.control, inFlight, w.delivered);
    } else {
      inFlight' := HandOne(receiver, filter.control, inFlight, w.delivered, true);
    }
  }

  // ------------------------------------------------------------- that it can be done

  function Nest(stack: seq<Id>, item: Item): seq<Id> {
    if item.Piece? then stack
    else if stack != [] && stack[|stack| - 1] == item.id then stack[..|stack| - 1]
    else stack + [item.id]
  }

  /** The blocks open after some items. */
  function Nested(stack: seq<Id>, items: seq<Item>): seq<Id> {
    if items == [] then stack else Nest(Nested(stack, items[..|items| - 1]), items[|items| - 1])
  }

  lemma {:induction false} NestedAppend(stack: seq<Id>, a: seq<Item>, b: seq<Item>)
    ensures Nested(stack, a + b) == Nested(Nested(stack, a), b)
    decreases |b|
  {
    if b == [] {
      assert a + b == a;
    } else {
      assert (a + b)[..|a + b| - 1] == a + b[..|b| - 1];
      NestedAppend(stack, a, b[..|b| - 1]);
    }
  }

  lemma {:induction false} NestedReturns(f: Flow, stack: seq<Id>)
    requires Proper(f, stack)
    ensures Nested(stack, Items(f)) == stack
    decreases f
  {
    match f
    case Nil =>
    case Bytes(b, r) =>
      NestedOne(stack, Piece(b));
      NestedAppend(stack, [Piece(b)], Items(r));
      NestedReturns(r, stack);
    case Block(id, c, body, r) =>
      var m, inside := [Marker(id, c)], stack + [id];
      NestedOne(stack, m[0]);
      NestedOne(inside, m[0]);
      NestedAppend(stack, m + Items(body) + m, Items(r));
      NestedAppend(stack, m + Items(body), m);
      NestedAppend(stack, m, Items(body));
      NestedReturns(body, inside);
      NestedReturns(r, stack);
      assert Nested(stack, m) == inside by { assert id !in stack; }
  }

  lemma NestedOne(stack: seq<Id>, item: Item)
    ensures Nested(stack, [item]) == Nest(stack, item)
  {
    assert [item][..0] == [];
    assert Nested(stack, []) == stack;
  }

  /** After `i` turns of sending. */
  ghost predicate SentSoFar(items: seq<Item>, held: Store, i: nat, w: World) {
    var n := if i < |items| then i else |items|;
    && w.todo == items[n..] && |w.wire| <= n && w.taken == 0
    && w.filter.stack == Nested([], items[..n]) && |w.filter.sent| == |w.filter.stack|
    && (w.filter.due ==> w.filter.stack != [])
  }

  lemma {:induction false} Sends(host: Host, items: seq<Item>, held: Store, handed: nat, deeds: seq<Deed>)
    requires forall i | 0 <= i < |deeds| :: deeds[i] == Sending
    ensures SentSoFar(items, held, |deeds|, Ticks(host, Progress(Start(items, held), handed), deeds).world)
    decreases |deeds|
  {
    hide Outermost, Nested;
    var start := Progress(Start(items, held), handed);
    if deeds == [] {
      assert items[..0] == [];
      assert Nested([], []) == [] by { NoneNested(); }
    } else {
      var before := deeds[..|deeds| - 1];
      Sends(host, items, held, handed, before);
      var w := Ticks(host, start, before).world;
      assert deeds[|deeds| - 1] == Sending;
      if w.todo != [] {
        var n := |before|;
        assert w.todo[0] == items[n] && w.todo[1..] == items[n + 1..];
        SendsOne(w, Outermost(w.filter.stack, Arrivals(w)));
        NestedStep(items, n);
      }
    }
  }

  lemma NoneNested()
    ensures Nested([], []) == []
  {
  }

  lemma NestedStep(items: seq<Item>, n: nat)
    requires n < |items|
    ensures Nested([], items[..n + 1]) == Nest(Nested([], items[..n]), items[n])
  {
    assert items[..n + 1][..n] == items[..n];
  }

  lemma SendsOne(w: World, answer: Option<nat>)
    requires |w.filter.sent| == |w.filter.stack| && w.todo != []
    ensures var next := SentOn(w, answer);
      && next.todo == w.todo[1..] && |next.wire| <= |w.wire| + 1 && next.taken == w.taken
      && next.filter.stack == Nest(w.filter.stack, w.todo[0]) && |next.filter.sent| == |next.filter.stack|
      && ((w.filter.due ==> w.filter.stack != []) && next.filter.due ==> next.filter.stack != [])
  {
  }

  lemma {:induction false} Takings(host: Host, p: Progress, deeds: seq<Deed>)
    requires (forall i | 0 <= i < |deeds| :: deeds[i] == Taking) && p.world.taken <= |p.world.wire|
    ensures var w := Ticks(host, p, deeds).world;
      && w.todo == p.world.todo && w.filter == p.world.filter && w.wire == p.world.wire
      && w.taken == if p.world.taken + |deeds| < |w.wire| then p.world.taken + |deeds| else |w.wire|
    decreases |deeds|
  {
    hide TakeItem;
    if deeds != [] {
      assert deeds[|deeds| - 1] == Taking;
      Takings(host, p, deeds[..|deeds| - 1]);
    }
  }

  lemma {:induction false} TicksAppend(host: Host, p: Progress, a: seq<Deed>, b: seq<Deed>)
    ensures Ticks(host, p, a + b) == Ticks(host, Ticks(host, p, a), b)
    decreases |b|
  {
    hide Ticked;
    if b == [] {
      assert a + b == a;
    } else {
      assert (a + b)[..|a + b| - 1] == a + b[..|b| - 1];
      TicksAppend(host, p, a, b[..|b| - 1]);
    }
  }

  /** Send often enough and then take often enough, and nothing is left to do. */
  lemma EverythingIsTaken(host: Host, f: Flow, held: Store, handed: nat, sends: seq<Deed>, takes: seq<Deed>)
    requires Proper(f, []) && |sends| >= |Items(f)| && |takes| >= |Items(f)|
    requires forall i | 0 <= i < |sends| :: sends[i] == Sending
    requires forall i | 0 <= i < |takes| :: takes[i] == Taking
    ensures Complete(Ticks(host, Progress(Start(Items(f), held), handed), sends + takes).world)
  {
    hide Ticks, Nested, Items;
    var start := Progress(Start(Items(f), held), handed);
    Sends(host, Items(f), held, handed, sends);
    var sent := Ticks(host, start, sends);
    assert Items(f)[..|Items(f)|] == Items(f);
    NestedReturns(f, []);
    Takings(host, sent, takes);
    TicksAppend(host, start, sends, takes);
  }

  /** Requests once handed out arrive when they are delivered, one at a time. */
  lemma {:induction false} RequestsArrive(host: Host, p: Progress, deeds: seq<Deed>)
    requires |deeds| > 0 && deeds[0] == HandingOut(true) && forall i | 0 < i < |deeds| :: deeds[i] == Delivering
    requires p.world.delivered <= |p.world.receiver.asked|
    ensures var w, asked := p.world, |p.world.receiver.asked|;
      Ticks(host, p, deeds) ==
      Progress(w.(delivered := if w.delivered + |deeds| - 1 < asked then w.delivered + |deeds| - 1 else asked), asked)
    decreases |deeds|
  {
    if |deeds| > 1 {
      RequestsArrive(host, p, deeds[..|deeds| - 1]);
    } else {
      assert deeds[..0] == [];
    }
  }

  /** So when everything sent has been taken, the object is there. */
  method PlayArrives(env: Environment, host: Host, sent: Store, es: Directory, ghost f: Flow, items: seq<Item>, held: Store,
                     filter: SkipFilter, receiver: StreamControl, deeds: seq<Deed>)
    returns (st: State, complete: bool)
    requires env.hash == host.env.hash && RoundTrips.Injective(env.hash) && NeverEmpty(env.hash)
    requires Sound(env, sent) && Sound(host.env, held)
    requires RoundTrips.Streams(env, sent, es, f, items)
    requires RoundTrips.Nesting(Frame(f, 1, env.blockDepth)) <= MAX_BLOCK_NESTING
    requires Coupled(Start(items, held), filter, receiver, [])
    modifies filter, filter.control, receiver
    ensures var end := Ticks(host, Progress(Start(items, held), old(receiver.handed)), deeds).world;
      st == Take(host, end.receiver, SEPARATOR) && (complete <==> Complete(end))
    ensures complete ==>
      var framed := Frame(f, 1, env.blockDepth);
      && RoundTrips.ArrivedUnlessRefused(host, sent, es, framed, held, st)
      && (RoundTrips.Takes(host, es, framed) ==> RoundTrips.Arrived(host, sent, es, held, st))
  {
    hide Linked, Sound, RoundTrips.Injective, NeverEmpty, Coupled, History, RoundTrips.Nesting, RoundTrips.Streams,
        RoundTrips.ArrivedUnlessRefused, RoundTrips.Arrived, RoundTrips.Takes, Take, Frame, Ticks;
    ghost var ws;
    var w, inFlight;
    w, inFlight, ws := Play(host, items, held, filter, receiver, deeds);
    complete := Complete(w);
    st := Take(host, w.receiver, SEPARATOR);
    if complete {
      Transfers.EndToEnd(env, host, sent, es, f, items, held, ws);
    }
  }
}
