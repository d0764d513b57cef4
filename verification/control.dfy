/**
  `StreamControl`: the channel on which a receiver tells the sender what to leave out.

  Every method body below is one locked section of the library's, so a sequence of calls is
  an interleaving of the two threads that share the object. The event is set and cleared
  outside the lock; nothing here depends on it.
  */
module Controls {
  import opened Bytes
  import opened Documents
  import opened Pointers
  import opened Receiver

  /** A buffer of the reverse stream: a skip request, and whatever else it carries. */
  datatype Wire = Wire(skip: Option<Pointer>, head: bool, block: bool, separator: bool, signal: bool, chunk: Option<bytes>)

  /** `skip_buffer`: the request, over an empty chunk that older peers ignore. */
  function SkipBuffer(kind: bytes, id: Id): Wire {
    Wire(Some([Hash(kind, id)]), false, false, false, false, Some([]))
  }

  function NamedBy(p: Pointer, kind: bytes): Option<Id> {
    if p == [] then None else if p[0].kind == kind then Some(p[0].value) else NamedBy(p[1..], kind)
  }

  /** `skipped_block_id`: the id under this node's own algorithm. */
  function SkippedBlockId(kind: bytes, w: Wire): Option<Id> {
    if w.skip.None? then None else NamedBy(w.skip.value, kind)
  }

  /** `_is_inert`: nothing but the request and its padding. */
  predicate IsInert(w: Wire) {
    !(w.head || w.block || w.separator || w.signal || (w.chunk.Some? && |w.chunk.value| > 0))
  }

  /** The first hash made with this node's algorithm, wherever it stands among the others. */
  lemma {:induction false} NamedByExactly(p: Pointer, kind: bytes, k: nat)
    requires k <= |p| && (forall j | 0 <= j < k :: p[j].kind != kind) && (k < |p| ==> p[k].kind == kind)
    ensures NamedBy(p, kind) == if k < |p| then Some(p[k].value) else None
    decreases k
  {
    if k > 0 { NamedByExactly(p[1..], kind, k - 1); }
  }

  lemma RequestIsRead(kind: bytes, id: Id)
    ensures SkippedBlockId(kind, SkipBuffer(kind, id)) == Some(id) && IsInert(SkipBuffer(kind, id))
    ensures forall other | other != kind :: SkippedBlockId(other, SkipBuffer(kind, id)) == None
  {
    var p := [Hash(kind, id)];
    assert p[1..] == [];
    forall other | other != kind
      ensures SkippedBlockId(other, SkipBuffer(kind, id)) == None
    {
      assert NamedBy(p, other) == NamedBy(p[1..], other) == None;
    }
  }

  /** What the parser sees of a reverse stream. */
  function Passed(kind: bytes, ws: seq<Wire>): seq<Wire> {
    if ws == [] then []
    else
      (if SkippedBlockId(kind, ws[0]).None? then [ws[0]]
       else if IsInert(ws[0]) then []
       else [ws[0].(skip := None)]) + Passed(kind, ws[1..])
  }

  function Requested(kind: bytes, ws: seq<Wire>): set<Id> {
    if ws == [] then {}
    else
      (match SkippedBlockId(kind, ws[0]) case None => {} case Some(id) => {id}) + Requested(kind, ws[1..])
  }

  lemma {:induction false} PassedAppend(kind: bytes, a: seq<Wire>, b: seq<Wire>)
    ensures Passed(kind, a + b) == Passed(kind, a) + Passed(kind, b)
    ensures Requested(kind, a + b) == Requested(kind, a) + Requested(kind, b)
  {
    hide SkippedBlockId, IsInert;
    if a == [] {
      assert a + b == b;
    } else {
      assert (a + b)[1..] == a[1..] + b;
      PassedAppend(kind, a[1..], b);
    }
  }

  /** Buffers with something in them besides a request, the request aside. */
  function Payload(ws: seq<Wire>): seq<Wire> {
    if ws == [] then []
    else
      var w := ws[0];
      (if w.head || w.block || w.separator || w.signal || (w.chunk.Some? && w.chunk.value != []) then [w.(skip := None)] else [])
      + Payload(ws[1..])
  }

  /** The parser gets every payload in order, and no request this node could answer. */
  lemma {:induction false} PassedKeepsPayload(kind: bytes, ws: seq<Wire>)
    ensures Payload(Passed(kind, ws)) == Payload(ws)
    ensures forall w <- Passed(kind, ws) :: SkippedBlockId(kind, w) == None
  {
    if ws != [] {
      PassedKeepsPayload(kind, ws[1..]);
      var rest := Passed(kind, ws[1..]);
      var here := Passed(kind, ws)[..|Passed(kind, ws)| - |rest|];
      assert Passed(kind, ws) == here + rest;
      if here != [] { assert (here + rest)[1..] == rest; }
    }
  }

  class StreamControl {
    const enabled: bool
    const kind: bytes
    var skip: set<Id>
    var asked: set<Id>
    var outbound: seq<Wire>
    var outboundReady: bool
    var sendingDone: bool
    /** The distinct ids asked for, in the order they were first asked for. */
    ghost var asks: seq<Id>
    /** How many of them have been handed to the outgoing stream. */
    ghost var handed: nat

    /** Handed out, then queued: each request once, in the order of asking. */
    ghost predicate Valid()
      reads this
    {
      && Distinct(asks)
      && (forall id :: id in asked <==> id in asks)
      && handed <= |asks|
      && outbound == Queue(kind, asks[handed..])
      && (!enabled ==> asks == [] && skip == {})
    }

    constructor (enabled: bool, kind: bytes)
      ensures Valid() && this.enabled == enabled && this.kind == kind
      ensures asks == [] && handed == 0 && skip == {}
    {
      this.enabled, this.kind := enabled, kind;
      skip, asked, outbound, outboundReady, sendingDone := {}, {}, [], false, false;
      asks, handed := [], 0;
    }

    method RequestSkip(id: Id)
      requires Valid()
      modifies this
      ensures Valid() && skip == old(skip) && handed == old(handed)
      ensures enabled && id != [] ==> id in asks && Grown(old(asks), asks, id)
      ensures enabled && id != [] && id !in old(asks) ==> outbound == old(outbound) + [SkipBuffer(kind, id)]
      ensures !enabled || id == [] || id in old(asks) ==> asks == old(asks) && outbound == old(outbound)
      ensures outboundReady == (old(outboundReady) || |asks| > |old(asks)|)
    {
      if !enabled || id == [] {
        return;
      }
      if id in asked {
        return;
      }
      assert Grown(asks, asks + [id], id);
      asked := asked + {id};
      outbound := outbound + [SkipBuffer(kind, id)];
      QueueAppend(kind, asks[handed..], [id]);
      assert [id][1..] == [];
      assert (asks + [id])[handed..] == asks[handed..] + [id];
      asks := asks + [id];
      outboundReady := true;
    }

    method ShouldSkip(id: Option<Id>) returns (r: bool)
      requires Valid()
      ensures r <==> enabled && id.Some? && id.value != [] && id.value in skip
    {
      if !enabled || id.None? || id.value == [] {
        return false;
      }
      return id.value in skip;
    }

    /** Everything queued, at once. */
    method PendingOutbound() returns (out: seq<Wire>)
      requires Valid()
      modifies this
      ensures Valid() && skip == old(skip) && asks == old(asks)
      ensures handed == |asks| && outbound == []
      ensures out == Queue(kind, asks[old(handed)..])
      ensures outboundReady == (old(outboundReady) && out == [])
    {
      if !enabled {
        return [];
      }
      if outbound == [] {
        QueueLength(kind, asks[handed..]);
        return [];
      }
      out := outbound;
      outbound := [];
      handed := |asks|;
      outboundReady := false;
    }

    /** The first queued request, if the wait ended before its time and something is there. */
    method NextOutbound(woken: bool) returns (r: Option<Wire>)
      requires Valid()
      modifies this
      ensures Valid() && skip == old(skip) && asks == old(asks)
      ensures r.None? ==> handed == old(handed) && (woken ==> handed == |asks|)
      ensures r.Some? ==>
        woken && handed == old(handed) + 1 && r.value == SkipBuffer(kind, asks[old(handed)])
      ensures outboundReady == (old(outboundReady) && (!enabled || !woken || handed < |asks|))
    {
      if !enabled {
        return None;
      }
      QueueLength(kind, asks[handed..]);
      if woken {
        if outbound != [] {
          assert asks[handed..][1..] == asks[handed + 1..];
          r := Some(outbound[0]);
          outbound := outbound[1..];
          handed := handed + 1;
          if outbound == [] {
            outboundReady := false;
          }
          return;
        }
        outboundReady := false;
      }
      return None;
    }

    method FinishSending()
      requires Valid()
      modifies this`sendingDone, this`outboundReady
      ensures Valid() && sendingDone && outboundReady
    {
      sendingDone := true;
      outboundReady := true;
    }

    method Observe(w: Wire) returns (r: bool)
      requires Valid()
      modifies this`skip
      ensures Valid()
      ensures r <==> enabled && SkippedBlockId(kind, w).Some?
      ensures skip == if enabled then old(skip) + Requested(kind, [w]) else old(skip)
    {
      assert [w][1..] == [];
      if !enabled {
        return false;
      }
      var id := SkippedBlockId(kind, w);
      if id.None? {
        return false;
      }
      skip := skip + {id.value};
      return true;
    }

    /** The peer's stream, with its requests picked off. */
    method Reader(input: seq<Wire>) returns (out: seq<Wire>)
      requires Valid()
      modifies this`skip
      ensures Valid()
      ensures out == if enabled then Passed(kind, input) else input
      ensures skip == if enabled then old(skip) + Requested(kind, input) else old(skip)
    {
      if !enabled {
        return input;
      }
      out := [];
      var i := 0;
      while i < |input|
        invariant 0 <= i <= |input| && Valid()
        invariant out == Passed(kind, input[..i])
        invariant skip == old(skip) + Requested(kind, input[..i])
      {
        assert input[..i + 1] == input[..i] + [input[i]];
        PassedAppend(kind, input[..i], [input[i]]);
        assert [input[i]][1..] == [];
        var w := input[i];
        i := i + 1;
        var observed := Observe(w);
        if observed {
          if IsInert(w) {
            continue;
          }
          w := w.(skip := None);
        }
        out := out + [w];
      }
      assert input[..|input|] == input;
    }
  }

  /** One id more at the end, if it was not there. */
  predicate Grown(before: seq<Id>, after: seq<Id>, id: Id) {
    before <= after && |after| == |before| + (if id in before then 0 else 1)
  }

  function Queue(kind: bytes, ids: seq<Id>): seq<Wire> {
    if ids == [] then [] else [SkipBuffer(kind, ids[0])] + Queue(kind, ids[1..])
  }

  lemma {:induction false} QueueAppend(kind: bytes, a: seq<Id>, b: seq<Id>)
    ensures Queue(kind, a + b) == Queue(kind, a) + Queue(kind, b)
  {
    if a == [] {
      assert a + b == b;
    } else {
      assert (a + b)[1..] == a[1..] + b;
      QueueAppend(kind, a[1..], b);
    }
  }

  lemma QueueOne(kind: bytes, id: Id)
    ensures Queue(kind, [id]) == [SkipBuffer(kind, id)]
  {
    assert [id][1..] == [];
  }

  lemma {:induction false} QueueLength(kind: bytes, ids: seq<Id>)
    ensures |Queue(kind, ids)| == |ids|
  {
    if ids != [] { QueueLength(kind, ids[1..]); }
  }

  // --------------------------------------------------------------- the two parties

  /**
    A receiver's control and its sender's, with the requests in flight between them: the
    sender's skip set is what has arrived, of what was asked for, in order.
    */
  ghost predicate Linked(receiver: StreamControl, sender: StreamControl, inFlight: seq<Wire>, arrived: nat)
    reads receiver, sender
  {
    && receiver != sender && receiver.Valid() && sender.Valid()
    && receiver.enabled && sender.enabled && receiver.kind == sender.kind
    && arrived <= receiver.handed
    && inFlight == Queue(receiver.kind, receiver.asks[arrived..receiver.handed])
    && forall id :: id in sender.skip <==> id in receiver.asks[..arrived]
  }

  /** The receiver finds a block it holds. */
  method Request(receiver: StreamControl, sender: StreamControl, inFlight: seq<Wire>, ghost arrived: nat, id: Id)
    requires Linked(receiver, sender, inFlight, arrived)
    modifies receiver
    ensures Linked(receiver, sender, inFlight, arrived)
    ensures id == [] ==> receiver.asks == old(receiver.asks)
    ensures id != [] ==> id in receiver.asks && Grown(old(receiver.asks), receiver.asks, id)
    ensures receiver.handed == old(receiver.handed)
  {
    ghost var asks := receiver.asks;
    receiver.RequestSkip(id);
    assert receiver.asks[arrived..receiver.handed] == asks[arrived..receiver.handed];
    assert receiver.asks[..arrived] == asks[..arrived];
  }

  /** The receiver's outgoing stream takes all that is queued. */
  method Flush(receiver: StreamControl, sender: StreamControl, inFlight: seq<Wire>, ghost arrived: nat)
    returns (inFlight': seq<Wire>)
    requires Linked(receiver, sender, inFlight, arrived)
    modifies receiver
    ensures Linked(receiver, sender, inFlight', arrived)
    ensures receiver.asks == old(receiver.asks) && receiver.handed == |receiver.asks|
  {
    ghost var asks, handed := receiver.asks, receiver.handed;
    var out := receiver.PendingOutbound();
    inFlight' := inFlight + out;
    QueueAppend(receiver.kind, asks[arrived..handed], asks[handed..]);
    assert asks[arrived..handed] + asks[handed..] == asks[arrived..|asks|];
  }

  /** It waits for one request and takes it, or its time is up. */
  method HandOne(receiver: StreamControl, sender: StreamControl, inFlight: seq<Wire>, ghost arrived: nat, woken: bool)
    returns (inFlight': seq<Wire>)
    requires Linked(receiver, sender, inFlight, arrived)
    modifies receiver
    ensures Linked(receiver, sender, inFlight', arrived)
    ensures receiver.asks == old(receiver.asks)
    ensures receiver.handed == old(receiver.handed) + (if woken && old(receiver.handed) < |receiver.asks| then 1 else 0)
  {
    hide SkipBuffer;
    ghost var asks, handed := receiver.asks, receiver.handed;
    var one := receiver.NextOutbound(woken);
    if one.None? {
      return inFlight;
    }
    inFlight' := inFlight + [one.value];
    QueueAppend(receiver.kind, asks[arrived..handed], [asks[handed]]);
    QueueOne(receiver.kind, asks[handed]);
    assert asks[arrived..handed] + [asks[handed]] == asks[arrived..handed + 1];
  }

  /** The first request in flight arrives, and the sender's reader keeps it from the parser. */
  method Arrive(receiver: StreamControl, sender: StreamControl, inFlight: seq<Wire>, ghost arrived: nat)
    returns (inFlight': seq<Wire>, passed: seq<Wire>)
    requires Linked(receiver, sender, inFlight, arrived) && inFlight != []
    modifies sender`skip
    ensures arrived < receiver.handed && Linked(receiver, sender, inFlight', arrived + 1)
    ensures sender.skip == old(sender.skip) + {receiver.asks[arrived]}
    ensures passed == []
  {
    hide Queue, Passed, Requested, SkipBuffer;
    ghost var asks := receiver.asks;
    ghost var ids := asks[arrived..receiver.handed];
    FirstInFlight(receiver.kind, ids);
    assert ids[1..] == asks[arrived + 1..receiver.handed];
    OneRequest(receiver.kind, asks[arrived]);
    passed := sender.Reader([inFlight[0]]);
    inFlight' := inFlight[1..];
    assert asks[..arrived + 1] == asks[..arrived] + [asks[arrived]];
  }

  lemma FirstInFlight(kind: bytes, ids: seq<Id>)
    requires Queue(kind, ids) != []
    ensures ids != [] && Queue(kind, ids)[0] == SkipBuffer(kind, ids[0]) && Queue(kind, ids)[1..] == Queue(kind, ids[1..])
  {
  }

  /** A request alone: the reader keeps it, and its id is what was requested. */
  lemma OneRequest(kind: bytes, id: Id)
    ensures Passed(kind, [SkipBuffer(kind, id)]) == [] && Requested(kind, [SkipBuffer(kind, id)]) == {id}
  {
    RequestIsRead(kind, id);
    assert [SkipBuffer(kind, id)][1..] == [];
  }

  /**
    Conservation: the requests that have arrived, those in flight and those still queued are
    what was asked for, in order and each once; and the peer skips only what was asked for.
    */
  lemma NothingIsLost(receiver: StreamControl, sender: StreamControl, inFlight: seq<Wire>, arrived: nat)
    requires Linked(receiver, sender, inFlight, arrived)
    ensures Queue(receiver.kind, receiver.asks[..arrived]) + inFlight + receiver.outbound ==
            Queue(receiver.kind, receiver.asks)
    ensures sender.skip <= receiver.asked
  {
    hide SkipBuffer;
    var kind, asks, handed := receiver.kind, receiver.asks, receiver.handed;
    QueueAppend(kind, asks[..arrived], asks[arrived..handed]);
    assert asks[..arrived] + asks[arrived..handed] == asks[..handed];
    QueueAppend(kind, asks[..handed], asks[handed..]);
    assert asks[..handed] + asks[handed..] == asks;
    forall id | id in sender.skip ensures id in receiver.asked { assert id in asks[..arrived]; }
  }

  /** A locked section of either thread of either party. */
  datatype Turn = Requesting(id: Id) | Flushing | Handing(woken: bool) | Arriving

  /** The ids asked for, how many of them have been handed out, and how many of those have arrived. */
  datatype Channel = Channel(asks: seq<Id>, handed: nat, arrived: nat)

  function Turned(c: Channel, turn: Turn): Channel {
    match turn
    case Requesting(id) => if id == [] || id in c.asks then c else c.(asks := c.asks + [id])
    case Flushing => c.(handed := |c.asks|)
    case Handing(woken) => if woken && c.handed < |c.asks| then c.(handed := c.handed + 1) else c
    case Arriving => if c.arrived < c.handed then c.(arrived := c.arrived + 1) else c
  }

  function After(c: Channel, turns: seq<Turn>): Channel {
    if turns == [] then c else Turned(After(c, turns[..|turns| - 1]), turns[|turns| - 1])
  }

  lemma AfterOne(c: Channel, turns: seq<Turn>, i: nat)
    requires i < |turns|
    ensures After(c, turns[..i + 1]) == Turned(After(c, turns[..i]), turns[i])
  {
    assert turns[..i + 1][..i] == turns[..i];
  }

  /** Once the queue has been handed out, as many arrivals as there are requests in flight bring them all. */
  lemma {:induction false} AllArrive(c: Channel, turns: seq<Turn>, k: nat)
    requires |turns| > 0 && turns[0] == Flushing && forall i | 0 < i < |turns| :: turns[i] == Arriving
    requires k == |turns| - 1 && c.arrived <= |c.asks|
    ensures After(c, turns) == Channel(c.asks, |c.asks|, if c.arrived + k < |c.asks| then c.arrived + k else |c.asks|)
    decreases k
  {
    if k == 0 {
      assert turns[..0] == [];
    } else {
      AllArrive(c, turns[..k], k - 1);
    }
  }

  /** The turn at which an id is first requested, if it is. */
  function FirstRequest(turns: seq<Turn>, id: Id): (i: nat)
    ensures i <= |turns|
    ensures i < |turns| <==> Requesting(id) in turns
    ensures i < |turns| ==> turns[i] == Requesting(id)
    ensures forall k | 0 <= k < i :: turns[k] != Requesting(id)
  {
    if turns == [] then 0 else if turns[0] == Requesting(id) then 0 else 1 + FirstRequest(turns[1..], id)
  }

  /**
    What was asked for before, and after it every id these turns request, once, in the order
    of the first requests.
    */
  ghost predicate Recorded(before: seq<Id>, turns: seq<Turn>, asks: seq<Id>) {
    && before <= asks && Distinct(asks)
    && (forall id :: id in asks <==> id in before || (id != [] && Requesting(id) in turns))
    && forall i, j | |before| <= i < j < |asks| :: FirstRequest(turns, asks[i]) < FirstRequest(turns, asks[j])
  }

  lemma NothingRecorded(before: seq<Id>)
    requires Distinct(before)
    ensures Recorded(before, [], before)
  {
  }

  lemma FirstRequestStays(turns: seq<Turn>, turn: Turn, id: Id)
    ensures Requesting(id) in turns ==> FirstRequest(turns + [turn], id) == FirstRequest(turns, id)
    ensures Requesting(id) !in turns && turn == Requesting(id) ==> FirstRequest(turns + [turn], id) == |turns|
  {
    var more := turns + [turn];
    var i, j := FirstRequest(turns, id), FirstRequest(more, id);
    assert forall k | 0 <= k < |turns| :: more[k] == turns[k];
    assert more[|turns|] == turn;
    assert turn == Requesting(id) ==> Requesting(id) in more;
    assert i < |turns| ==> more[i] == Requesting(id);
  }

  lemma RecordedTurn(before: seq<Id>, turns: seq<Turn>, turn: Turn, asks: seq<Id>, asks': seq<Id>)
    requires Recorded(before, turns, asks) && Distinct(asks')
    requires if turn.Requesting? && turn.id != [] then turn.id in asks' && Grown(asks, asks', turn.id) else asks' == asks
    ensures Recorded(before, turns + [turn], asks')
  {
    hide FirstRequest;
    var more := turns + [turn];
    assert forall t :: t in more <==> t in turns || t == turn;
    if |asks'| > |asks| { assert asks' == asks + [turn.id] by { LastIsNew(asks, asks', turn.id); } }
    forall i, j | |before| <= i < j < |asks'|
      ensures FirstRequest(more, asks'[i]) < FirstRequest(more, asks'[j])
    {
      FirstRequestStays(turns, turn, asks'[i]);
      FirstRequestStays(turns, turn, asks'[j]);
      NewIsRequested(before, turns, asks, i);
      if j < |asks| { NewIsRequested(before, turns, asks, j); }
    }
  }

  lemma LastIsNew(asks: seq<Id>, asks': seq<Id>, id: Id)
    requires Grown(asks, asks', id) && id in asks' && id !in asks
    ensures asks' == asks + [id]
  {
    assert forall k | 0 <= k < |asks| :: asks'[k] == asks[k];
  }

  lemma NewIsRequested(before: seq<Id>, turns: seq<Turn>, asks: seq<Id>, i: nat)
    requires Recorded(before, turns, asks) && |before| <= i < |asks|
    ensures Requesting(asks[i]) in turns
  {
    hide FirstRequest;
    assert asks[i] in asks;
    assert forall k | 0 <= k < |before| :: before[k] == asks[k] && asks[k] != asks[i];
  }

  /**
    Any interleaving of the two parties' locked sections: every id requested is asked for,
    once and in order of its first request, nothing of it is lost or repeated on the way,
    and nothing else arrives.
    */
  method Interleave(receiver: StreamControl, sender: StreamControl, turns: seq<Turn>)
    returns (arrived: nat, inFlight: seq<Wire>)
    requires Linked(receiver, sender, [], 0)
    modifies receiver, sender
    ensures Linked(receiver, sender, inFlight, arrived)
    ensures Recorded(old(receiver.asks), turns, receiver.asks)
    ensures Channel(receiver.asks, receiver.handed, arrived) ==
            After(Channel(old(receiver.asks), old(receiver.handed), 0), turns)
    ensures Queue(receiver.kind, receiver.asks[..arrived]) + inFlight + receiver.outbound ==
            Queue(receiver.kind, receiver.asks)
    ensures forall id :: id in sender.skip <==> id in receiver.asks[..arrived]
    ensures sender.skip <= receiver.asked
  {
    hide Queue, Distinct, Recorded, Grown, After;
    arrived, inFlight := 0, [];
    var i := 0;
    NothingRecorded(receiver.asks);
    ghost var start := Channel(receiver.asks, receiver.handed, 0);
    NoTurns(start);
    while i < |turns|
      invariant i <= |turns| && Linked(receiver, sender, inFlight, arrived)
      invariant Recorded(old(receiver.asks), turns[..i], receiver.asks)
      invariant Channel(receiver.asks, receiver.handed, arrived) == After(start, turns[..i])
    {
      ghost var asks := receiver.asks;
      assert turns[..i + 1] == turns[..i] + [turns[i]];
      AfterOne(start, turns, i);
      InFlightIs(receiver, sender, inFlight, arrived);
      match turns[i] {
        case Requesting(id) =>
          Request(receiver, sender, inFlight, arrived, id);
          if id != [] { GrownIs(asks, receiver.asks, id); }
        case Flushing =>
          inFlight := Flush(receiver, sender, inFlight, arrived);
        case Handing(woken) =>
          inFlight := HandOne(receiver, sender, inFlight, arrived, woken);
        case Arriving =>
          if inFlight != [] {
            var passed: seq<Wire>;
            inFlight, passed := Arrive(receiver, sender, inFlight, arrived);
            arrived := arrived + 1;
          }
      }
      RecordedTurn(old(receiver.asks), turns[..i], turns[i], asks, receiver.asks);
      i := i + 1;
    }
    assert turns[..|turns|] == turns;
    NothingIsLost(receiver, sender, inFlight, arrived);
  }

  lemma NoTurns(c: Channel)
    ensures After(c, []) == c
  {
  }

  lemma InFlightIs(receiver: StreamControl, sender: StreamControl, inFlight: seq<Wire>, arrived: nat)
    requires Linked(receiver, sender, inFlight, arrived)
    ensures |inFlight| == receiver.handed - arrived
  {
    QueueLength(receiver.kind, receiver.asks[arrived..receiver.handed]);
  }

  lemma GrownIs(asks: seq<Id>, asks': seq<Id>, id: Id)
    requires Grown(asks, asks', id) && id in asks'
    ensures asks' == if id in asks then asks else asks + [id]
  {
    if id !in asks { LastIsNew(asks, asks', id); }
  }

  // ------------------------------------------------- what happens at an older peer

  /** A wire buffer without a block, to a parser that does not know the request field. */
  function Seen(w: Wire): Buffer {
    Buffer(None, w.chunk, w.head, w.separator)
  }

  /** A request changes nothing in a receiver that does not know it, wherever it lands. */
  lemma RequestIsInert(host: Host, st: State, kind: bytes, id: Id)
    ensures !SkipBuffer(kind, id).block && Take(host, st, Seen(SkipBuffer(kind, id))) == st
  {
    EmptyChunk(st);
  }
}
