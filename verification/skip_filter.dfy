/** The skip filter as the sender runs it: a generator over its control object. */
module SkipFilters {
  import opened Bytes
  import opened Documents
  import opened Reader
  import opened Filters
  import opened Controls

  /** What `should_skip` answers for a block. */
  predicate Requests(skip: set<Id>, id: Id) {
    id != [] && id in skip
  }

  /** The shallowest requested block of the stack, by its depth. */
  function Outermost(stack: seq<Id>, skip: set<Id>): (r: Option<nat>)
    ensures r.Some? ==> 0 < r.value <= |stack| && Requests(skip, stack[r.value - 1])
    ensures r.Some? ==> forall i | 0 <= i < r.value - 1 :: !Requests(skip, stack[i])
    ensures r.None? ==> forall id <- stack :: !Requests(skip, id)
  {
    if stack == [] then None
    else
      match Outermost(stack[..|stack| - 1], skip)
      case Some(d) => Some(d)
      case None => if Requests(skip, stack[|stack| - 1]) then Some(|stack|) else None
  }

  lemma {:induction false} OutermostPrefix(stack: seq<Id>, n: nat, skip: set<Id>)
    requires n <= |stack| && Outermost(stack[..n], skip).Some?
    ensures Outermost(stack, skip) == Outermost(stack[..n], skip)
  {
    if n < |stack| {
      assert stack[..|stack| - 1][..n] == stack[..n];
      OutermostPrefix(stack[..|stack| - 1], n, skip);
    } else {
      assert stack[..n] == stack;
    }
  }

  class SkipFilter {
    const control: StreamControl
    var stack: seq<Id>
    var sent: seq<bool>
    var skippingAt: Option<nat>
    /** Whether the generator is paused in the `yield` of a start marker. */
    var due: bool

    ghost predicate Valid()
      reads this, control
    {
      control.Valid() && |sent| == |stack|
    }

    function State(): Filter
      reads this
    {
      Filter(stack, sent, skippingAt, due)
    }

    constructor (control: StreamControl)
      requires control.Valid()
      ensures Valid() && this.control == control && State() == IDLE
    {
      this.control := control;
      stack, sent, skippingAt, due := [], [], None, false;
    }

    /** `outermost_skipped`. */
    method OutermostSkipped() returns (r: Option<nat>)
      requires Valid() && control.enabled
      ensures r == Outermost(stack, control.skip)
      ensures r.None? ==> forall id <- stack :: id == [] || id !in control.skip
      ensures r.Some? ==> 0 < r.value <= |stack| && stack[r.value - 1] != [] && stack[r.value - 1] in control.skip
      ensures r.Some? ==> forall i | 0 <= i < r.value - 1 :: stack[i] == [] || stack[i] !in control.skip
    {
      var depth := 0;
      while depth < |stack|
        invariant 0 <= depth <= |stack|
        invariant Outermost(stack[..depth], control.skip) == None
      {
        assert stack[..depth + 1][..depth] == stack[..depth];
        var asked := control.ShouldSkip(Some(stack[depth]));
        if asked {
          OutermostPrefix(stack, depth + 1, control.skip);
          return Some(depth + 1);
        }
        depth := depth + 1;
      }
      assert stack[..|stack|] == stack;
      return None;
    }

    /** A marker ends the innermost block, or starts another. */
    method TakeMarker(id: Id, chain: seq<nat>) returns (out: seq<Item>)
      requires Valid() && !due
      modifies this
      ensures Valid() && State() == PullMarker(old(State()), id)
      ensures out == Out(old(State()), Pull(Marker(id, chain), None))
    {
      if stack != [] && stack[|stack| - 1] == id {
        var depth := |stack|;
        stack := stack[..depth - 1];
        var wasOpened := sent[depth - 1];
        sent := sent[..depth - 1];
        if skippingAt == Some(depth) {
          skippingAt := None;
        }
        return if wasOpened then [Marker(id, chain)] else [];
      }
      stack := stack + [id];
      if skippingAt.None? {
        sent := sent + [true];
        due := true;
        return [Marker(id, chain)];
      }
      sent := sent + [false];
      return [];
    }

    /**
      The generator is resumed: it looks at the requests it still owes a look, and takes the
      next item. Between two calls the other thread may add requests to the control.
      */
    method Take(item: Item) returns (out: seq<Item>)
      requires Valid()
      modifies this
      ensures Valid() && control.skip == old(control.skip)
      ensures !control.enabled ==> out == [item] && State() == old(State())
      ensures control.enabled ==>
        var before := old(State());
        var answer := Outermost(before.stack, control.skip);
        var ready := if before.due then Next(before, Consult(answer)) else before;
        State() == Next(ready, Pull(item, answer)) && out == Out(ready, Pull(item, answer))
      ensures control.enabled && item.Piece? && (exists id <- old(stack) :: id != [] && id in control.skip) ==> out == []
    {
      hide Outermost, StreamControl.Valid, PullMarker, Ends;
      if !control.enabled {
        return [item];
      }
      if due {
        skippingAt := OutermostSkipped();
        due := false;
      }
      match item {
        case Marker(id, chain) =>
          MarkersIgnoreAnswers(State(), id, chain, Outermost(stack, control.skip));
          out := TakeMarker(id, chain);
        case Piece(_) =>
          if skippingAt.None? {
            skippingAt := OutermostSkipped();
          }
          out := if skippingAt.None? then [item] else [];
      }
    }
  }

  lemma MarkersIgnoreAnswers(fs: Filter, id: Id, chain: seq<nat>, answer: Option<nat>)
    requires |fs.sent| == |fs.stack|
    ensures Out(fs, Pull(Marker(id, chain), answer)) == Out(fs, Pull(Marker(id, chain), None))
  {
  }
}
