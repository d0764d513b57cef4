/**
  What the skip filter does to a well-nested stream, whatever requests arrive and whenever:
  it only cuts off the ends of requested blocks' bodies.
  */
module Elision {
  import opened Bytes
  import opened Documents
  import opened Stores
  import opened Reader
  import opened Descent
  import opened Filters

  /** An item goes through, with the answer to the one consultation it may cause. */
  function Feed(fs: Filter, item: Item, answer: Option<nat>): (r: Filter)
    requires |fs.sent| == |fs.stack|
    ensures |r.sent| == |r.stack|
  {
    var next := Next(fs, Pull(item, answer));
    if next.due then Next(next, Consult(answer)) else next
  }

  function Played(fs: Filter, items: seq<Item>, answers: nat -> Option<nat>, i: nat): (r: Filter)
    requires |fs.sent| == |fs.stack|
    ensures |r.sent| == |r.stack|
    decreases |items|
  {
    if items == [] then fs else Played(Feed(fs, items[0], answers(i)), items[1..], answers, i + 1)
  }

  function Emitted(fs: Filter, items: seq<Item>, answers: nat -> Option<nat>, i: nat): seq<Item>
    requires |fs.sent| == |fs.stack|
    decreases |items|
  {
    if items == [] then []
    else Out(fs, Pull(items[0], answers(i))) + Emitted(Feed(fs, items[0], answers(i)), items[1..], answers, i + 1)
  }

  /** Every answer given while nothing is skipped names an open, requested block. */
  predicate Honest(fs: Filter, items: seq<Item>, answers: nat -> Option<nat>, i: nat, requested: set<Id>)
    requires |fs.sent| == |fs.stack|
    decreases |items|
  {
    items != [] ==>
      && (fs.skippingAt.None? ==> Names(Next(fs, Pull(items[0], None)).stack, answers(i), requested))
      && Honest(Feed(fs, items[0], answers(i)), items[1..], answers, i + 1, requested)
  }

  predicate Names(stack: seq<Id>, answer: Option<nat>, requested: set<Id>) {
    answer.Some? ==> 0 < answer.value <= |stack| && stack[answer.value - 1] in requested
  }

  lemma {:induction false} PlayAppend(fs: Filter, a: seq<Item>, b: seq<Item>, answers: nat -> Option<nat>, i: nat,
                                      requested: set<Id>)
    requires |fs.sent| == |fs.stack|
    ensures Played(fs, a + b, answers, i) == Played(Played(fs, a, answers, i), b, answers, i + |a|)
    ensures Emitted(fs, a + b, answers, i) ==
            Emitted(fs, a, answers, i) + Emitted(Played(fs, a, answers, i), b, answers, i + |a|)
    ensures Honest(fs, a + b, answers, i, requested) <==>
            Honest(fs, a, answers, i, requested) && Honest(Played(fs, a, answers, i), b, answers, i + |a|, requested)
    decreases |a|
  {
    hide Feed, Out, Names, Next;
    if a == [] {
      assert a + b == b;
    } else {
      assert (a + b)[1..] == a[1..] + b;
      var fed := Feed(fs, a[0], answers(i));
      PlayAppend(fed, a[1..], b, answers, i + 1, requested);
      SeqAssoc(Out(fs, Pull(a[0], answers(i))), Emitted(fed, a[1..], answers, i + 1),
               Emitted(Played(fs, a, answers, i), b, answers, i + |a|));
    }
  }

  lemma SeqAssoc<T>(a: seq<T>, b: seq<T>, c: seq<T>)
    ensures (a + b) + c == a + (b + c)
  {
  }

  /** A block that starts inside a skipped one leaves no trace. */
  lemma SwallowedMarkers(fs: Filter, m: Item, before: Option<nat>, after: Option<nat>)
    requires |fs.sent| == |fs.stack| && !fs.due && m.Marker? && m.id !in fs.stack
    requires fs.skippingAt.Some? && fs.skippingAt.value <= |fs.stack|
    ensures var inside := Filter(fs.stack + [m.id], fs.sent + [false], fs.skippingAt, false);
      && Feed(fs, m, before) == inside && Out(fs, Pull(m, before)) == []
      && Feed(inside, m, after) == fs && Out(inside, Pull(m, after)) == []
  {
  }

  /** A block that starts outside goes out, and what the peer asked for is looked at. */
  lemma OpeningMarker(fs: Filter, m: Item, answer: Option<nat>)
    requires |fs.sent| == |fs.stack| && !fs.due && m.Marker? && m.id !in fs.stack && fs.skippingAt == None
    ensures Feed(fs, m, answer) == Filter(fs.stack + [m.id], fs.sent + [true], answer, false)
    ensures Out(fs, Pull(m, answer)) == [m] && Next(fs, Pull(m, None)).stack == fs.stack + [m.id]
  {
  }

  lemma ClosingMarker(fs: Filter, within: Filter, m: Item, answer: Option<nat>)
    requires |fs.sent| == |fs.stack| && m.Marker?
    requires within == Filter(fs.stack + [m.id], fs.sent + [true], within.skippingAt, false)
    ensures Feed(within, m, answer) ==
            Filter(fs.stack, fs.sent, if within.skippingAt == Some(|fs.stack| + 1) then None else within.skippingAt, false)
    ensures Out(within, Pull(m, answer)) == [m]
  {
  }

  /** A whole stretch of stream inside a skipped block is swallowed, markers and all. */
  lemma {:induction false} Swallows(fs: Filter, f: Flow, answers: nat -> Option<nat>, i: nat)
    requires |fs.sent| == |fs.stack| && !fs.due
    requires fs.skippingAt.Some? && fs.skippingAt.value <= |fs.stack| && Proper(f, fs.stack)
    ensures Played(fs, Items(f), answers, i) == fs && Emitted(fs, Items(f), answers, i) == []
    decreases f, 1
  {
    match f
    case Nil =>
    case Bytes(b, r) =>
      assert Items(f)[1..] == Items(r);
      Swallows(fs, r, answers, i + 1);
    case Block(id, c, body, r) =>
      SwallowsBlock(fs, id, c, body, r, answers, i);
  }

  lemma {:induction false} SwallowsBlock(fs: Filter, id: Id, c: seq<nat>, body: Flow, r: Flow,
                                         answers: nat -> Option<nat>, i: nat)
    requires |fs.sent| == |fs.stack| && !fs.due
    requires fs.skippingAt.Some? && fs.skippingAt.value <= |fs.stack|
    requires id !in fs.stack && Proper(body, fs.stack + [id]) && Proper(r, fs.stack)
    ensures var items := Items(Block(id, c, body, r));
      Played(fs, items, answers, i) == fs && Emitted(fs, items, answers, i) == []
    decreases Block(id, c, body, r), 0
  {
    hide Feed, Out, Next, Honest, Names, Proper;
    var m, n := Marker(id, c), i + 1 + |Items(body)|;
    var inside := Filter(fs.stack + [id], fs.sent + [false], fs.skippingAt, false);
    SwallowedMarkers(fs, m, answers(i), answers(n));
    PlayBlock(fs, m, Items(body), Items(r), answers, i, {});
    Swallows(inside, body, answers, i + 1);
    Swallows(fs, r, answers, n + 1);
  }

  /** A marker, a body, the marker again, and what follows. */
  lemma PlayBlock(fs: Filter, m: Item, body: seq<Item>, rest: seq<Item>, answers: nat -> Option<nat>, i: nat,
                  requested: set<Id>)
    requires |fs.sent| == |fs.stack|
    ensures var items, n := [m] + body + [m] + rest, i + 1 + |body|;
      var inside := Feed(fs, m, answers(i));
      var within := Played(inside, body, answers, i + 1);
      var over := Feed(within, m, answers(n));
      && Played(fs, items, answers, i) == Played(over, rest, answers, n + 1)
      && Emitted(fs, items, answers, i) ==
        Out(fs, Pull(m, answers(i))) + Emitted(inside, body, answers, i + 1) + Out(within, Pull(m, answers(n)))
        + Emitted(over, rest, answers, n + 1)
      && (Honest(fs, items, answers, i, requested) ==>
        && (fs.skippingAt.None? ==> Names(Next(fs, Pull(m, None)).stack, answers(i), requested))
        && Honest(inside, body, answers, i + 1, requested)
        && Honest(over, rest, answers, n + 1, requested))
  {
    hide Feed, Out, Names, Next;
    var one := [m];
    var inside, n := Feed(fs, m, answers(i)), i + 1 + |body|;
    var within := Played(inside, body, answers, i + 1);
    assert one[1..] == [];
    PlayAppend(fs, one + body + one, rest, answers, i, requested);
    PlayAppend(fs, one + body, one, answers, i, requested);
    PlayAppend(fs, one, body, answers, i, requested);
    assert Emitted(fs, one, answers, i) == Out(fs, Pull(m, answers(i)));
    assert Emitted(within, one, answers, n) == Out(within, Pull(m, answers(n)));
  }

  // ---------------------------------------------------------------- what is left

  /** `g` is `f` with the ends of some requested blocks' bodies cut off. */
  predicate Trims(f: Flow, g: Flow, requested: set<Id>)
    decreases f
  {
    match f
    case Nil => g == Nil
    case Bytes(b, r) => g.Bytes? && g.data == b && Trims(r, g.rest, requested)
    case Block(id, c, body, r) =>
      && g.Block? && g.id == id && g.chain == c
      && (Trims(body, g.body, requested) || (id in requested && Cuts(body, g.body, requested)))
      && Trims(r, g.rest, requested)
  }

  /** `g` is `f`, trimmed, up to some point; what was open there is closed. */
  predicate Cuts(f: Flow, g: Flow, requested: set<Id>)
    decreases f
  {
    g == Nil ||
    match f
    case Nil => false
    case Bytes(b, r) => g.Bytes? && g.data == b && Cuts(r, g.rest, requested)
    case Block(id, c, body, r) =>
      && g.Block? && g.id == id && g.chain == c
      && if Trims(body, g.body, requested) || (id in requested && Cuts(body, g.body, requested))
         then Cuts(r, g.rest, requested)
         else Cuts(body, g.body, requested) && g.rest == Nil
  }

  /** The filter at the end of a stretch of stream that it entered skipping nothing. */
  predicate Left(fs: Filter, out: Filter, f: Flow, g: Flow, requested: set<Id>)
    requires |fs.sent| == |fs.stack|
  {
    && out == fs.(skippingAt := out.skippingAt)
    && match out.skippingAt
       case None => Trims(f, g, requested)
       case Some(d) => Names(fs.stack, Some(d), requested) && Cuts(f, g, requested)
  }

  /** What goes out is well nested: an end marker if and only if its start marker did. */
  lemma {:induction false} Trimming(fs: Filter, f: Flow, answers: nat -> Option<nat>, i: nat, requested: set<Id>)
    returns (g: Flow)
    requires |fs.sent| == |fs.stack| && !fs.due && fs.skippingAt == None
    requires Proper(f, fs.stack) && Honest(fs, Items(f), answers, i, requested)
    ensures Emitted(fs, Items(f), answers, i) == Items(g)
    ensures Left(fs, Played(fs, Items(f), answers, i), f, g, requested)
    decreases f, 1
  {
    match f
    case Nil => g := Nil;
    case Bytes(b, r) =>
      assert Items(f)[1..] == Items(r);
      var fed := Feed(fs, Piece(b), answers(i));
      if answers(i).None? {
        var g' := Trimming(fed, r, answers, i + 1, requested);
        g := Bytes(b, g');
      } else {
        Swallows(fed, r, answers, i + 1);
        g := Nil;
      }
    case Block(id, c, body, r) =>
      g := TrimmingBlock(fs, id, c, body, r, answers, i, requested);
  }

  lemma {:induction false} TrimmingBlock(fs: Filter, id: Id, c: seq<nat>, body: Flow, r: Flow,
                                         answers: nat -> Option<nat>, i: nat,
                                         requested: set<Id>)
    returns (g: Flow)
    requires |fs.sent| == |fs.stack| && !fs.due && fs.skippingAt == None
    requires id !in fs.stack && Proper(body, fs.stack + [id]) && Proper(r, fs.stack)
    requires Honest(fs, Items(Block(id, c, body, r)), answers, i, requested)
    ensures Emitted(fs, Items(Block(id, c, body, r)), answers, i) == Items(g)
    ensures Left(fs, Played(fs, Items(Block(id, c, body, r)), answers, i), Block(id, c, body, r), g, requested)
    decreases Block(id, c, body, r), 0
  {
    hide Feed, Out, Next, Honest, Proper, Played, Emitted, Items;
    var m, n := Marker(id, c), i + 1 + |Items(body)|;
    PlayBlock(fs, m, Items(body), Items(r), answers, i, requested);
    ItemsBlock(id, c, body, r);
    OpeningMarker(fs, m, answers(i));
    var inside := Feed(fs, m, answers(i));
    var g1;
    if answers(i).None? {
      g1 := Trimming(inside, body, answers, i + 1, requested);
    } else {
      Swallows(inside, body, answers, i + 1);
      g1 := Nil;
      ItemsNil();
    }
    var within := Played(inside, Items(body), answers, i + 1);
    assert Left(inside, within, body, g1, requested);
    ClosingMarker(fs, within, m, answers(n));
    var over := Feed(within, m, answers(n));
    NamesBelow(fs.stack, id, within.skippingAt, requested);
    if over.skippingAt.None? {
      var g2 := Trimming(over, r, answers, n + 1, requested);
      g := Block(id, c, g1, g2);
      ItemsBlock(id, c, g1, g2);
      assert over == fs;
      assert Trims(body, g1, requested) || (id in requested && Cuts(body, g1, requested));
      var out := Played(over, Items(r), answers, n + 1);
      assert Left(over, out, r, g2, requested);
      assert out.skippingAt.None? ==> Trims(Block(id, c, body, r), g, requested);
      assert out.skippingAt.Some? ==> Cuts(Block(id, c, body, r), g, requested);
    } else {
      Swallows(over, r, answers, n + 1);
      g := Block(id, c, g1, Nil);
      ItemsBlock(id, c, g1, Nil);
      ItemsNil();
      assert Cuts(body, g1, requested);
      assert Cuts(Block(id, c, body, r), g, requested);
    }
  }

  lemma ItemsBlock(id: Id, c: seq<nat>, body: Flow, r: Flow)
    ensures var m := Marker(id, c); Items(Block(id, c, body, r)) == [m] + Items(body) + [m] + Items(r)
  {
  }

  lemma ItemsNil()
    ensures Items(Nil) == []
  {
  }

  lemma NamesBelow(stack: seq<Id>, id: Id, answer: Option<nat>, requested: set<Id>)
    requires Names(stack + [id], answer, requested)
    ensures if answer == Some(|stack| + 1) then id in requested else Names(stack, answer, requested)
  {
  }

  // ------------------------------------------------------------------- the results

  /** The bytes of a stream in which the requested blocks are taken from elsewhere. */
  function Substituted(f: Flow, requested: set<Id>, content: Id -> bytes): bytes {
    match f
    case Nil => []
    case Bytes(b, r) => b + Substituted(r, requested, content)
    case Block(id, _, body, r) =>
      (if id in requested then content(id) else Substituted(body, requested, content)) + Substituted(r, requested, content)
  }

  lemma {:induction false} TrimsMeans(f: Flow, g: Flow, requested: set<Id>, content: Id -> bytes)
    requires Trims(f, g, requested)
    ensures Substituted(g, requested, content) == Substituted(f, requested, content)
    decreases f
  {
    match f
    case Nil =>
    case Bytes(_, r) => TrimsMeans(r, g.rest, requested, content);
    case Block(id, _, body, r) =>
      if id !in requested { TrimsMeans(body, g.body, requested, content); }
      TrimsMeans(r, g.rest, requested, content);
  }

  /**
    The filter on any well-nested stream, with any requests at any moments. What goes out is
    well nested; only the ends of requested blocks' bodies are missing; and with the
    requested blocks taken from elsewhere, the bytes before and after are the same.
    */
  lemma OnlyElides(f: Flow, answers: nat -> Option<nat>, requested: set<Id>, content: Id -> bytes)
    returns (g: Flow)
    requires Proper(f, []) && Honest(IDLE, Items(f), answers, 0, requested)
    ensures Emitted(IDLE, Items(f), answers, 0) == Items(g)
    ensures Played(IDLE, Items(f), answers, 0) == IDLE
    ensures Trims(f, g, requested)
    ensures Substituted(g, requested, content) == Substituted(f, requested, content)
  {
    g := Trimming(IDLE, f, answers, 0, requested);
    TrimsMeans(f, g, requested, content);
  }

  /** A request found at a chunk stops the stream there, for all that is left of the block. */
  lemma StopsAtChunk(fs: Filter, b: bytes, r: Flow, answers: nat -> Option<nat>, i: nat)
    requires |fs.sent| == |fs.stack| && !fs.due && fs.skippingAt == None && Proper(r, fs.stack)
    requires answers(i).Some? && answers(i).value <= |fs.stack|
    ensures Emitted(fs, Items(Bytes(b, r)), answers, i) == []
    ensures Played(fs, Items(Bytes(b, r)), answers, i) == fs.(skippingAt := answers(i))
  {
    var fed := Feed(fs, Piece(b), answers(i));
    assert Items(Bytes(b, r))[1..] == Items(r);
    Swallows(fed, r, answers, i + 1);
  }

  /** A block requested by the time its start marker is out costs its two markers. */
  lemma CostsItsMarkers(fs: Filter, id: Id, c: seq<nat>, body: Flow, r: Flow, answers: nat -> Option<nat>, i: nat)
    requires |fs.sent| == |fs.stack| && !fs.due && fs.skippingAt == None
    requires id !in fs.stack && Proper(body, fs.stack + [id])
    requires answers(i) == Some(|fs.stack| + 1)
    ensures var m, n := Marker(id, c), i + 1 + |Items(body)|;
      Emitted(fs, Items(Block(id, c, body, r)), answers, i) == [m, m] + Emitted(fs, Items(r), answers, n + 1)
  {
    hide Feed, Out, Next, Honest, Proper, Played, Emitted, Items;
    var m, n := Marker(id, c), i + 1 + |Items(body)|;
    ItemsBlock(id, c, body, r);
    PlayBlock(fs, m, Items(body), Items(r), answers, i, {});
    OpeningMarker(fs, m, answers(i));
    var inside := Feed(fs, m, answers(i));
    Swallows(inside, body, answers, i + 1);
    ClosingMarker(fs, inside, m, answers(n));
    assert [m] + [] + [m] + Emitted(fs, Items(r), answers, n + 1) == [m, m] + Emitted(fs, Items(r), answers, n + 1);
  }

  /** With no request nothing is dropped. */
  lemma {:induction false} TrimsNothing(f: Flow, g: Flow)
    requires Trims(f, g, {})
    ensures g == f
    decreases f
  {
    match f
    case Nil =>
    case Bytes(_, r) => TrimsNothing(r, g.rest);
    case Block(_, _, body, r) => TrimsNothing(body, g.body); TrimsNothing(r, g.rest);
  }

  /** What is left is, in order, some of what was there. */
  ghost predicate Subsequence(a: seq<Item>, b: seq<Item>)
    decreases |b|
  {
    a == [] || (b != [] && ((a[0] == b[0] && Subsequence(a[1..], b[1..])) || Subsequence(a, b[1..])))
  }

  lemma {:induction false} EmitsSubsequence(fs: Filter, items: seq<Item>, answers: nat -> Option<nat>, i: nat)
    requires |fs.sent| == |fs.stack|
    ensures Subsequence(Emitted(fs, items, answers, i), items)
    decreases |items|
  {
    hide Feed, Next;
    if items != [] {
      var fed := Feed(fs, items[0], answers(i));
      var more := Emitted(fed, items[1..], answers, i + 1);
      EmitsSubsequence(fed, items[1..], answers, i + 1);
      var out := Out(fs, Pull(items[0], answers(i)));
      if out == [] {
        assert out + more == more;
      } else {
        assert (out + more)[1..] == more;
      }
    }
  }
}
