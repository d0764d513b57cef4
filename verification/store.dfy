/**
  The block registry: a map from block ids to files and multiblock directories, what
  a stored block expands to, and how the library measures and seeks in expansions.
  */
module Stores {
  import opened Bytes
  import opened Varint
  import opened Documents
  import opened Layouts

  datatype Stored = File(content: bytes) | Dir(entries: Directory)

  type Store = map<Id, Stored>

  /** A file block streams like a directory of one part. */
  function EntriesOf(stored: Stored): Directory {
    match stored
    case File(b) => [Part(b)]
    case Dir(es) => es
  }

  /**
    A stream with its block structure: bytes, and blocks around streams of their own.
    The unfolding of a stored directory is one, and so is a framed stream on the wire.
    */
  datatype Flow =
    | Nil
    | Bytes(data: bytes, rest: Flow)
    | Block(id: Id, chain: seq<nat>, body: Flow, rest: Flow)

  function Content(f: Flow): bytes {
    match f
    case Nil => []
    case Bytes(b, r) => b + Content(r)
    case Block(_, _, body, r) => Content(body) + Content(r)
  }

  function Concat(f: Flow, g: Flow): Flow {
    match f
    case Nil => g
    case Bytes(b, r) => Bytes(b, Concat(r, g))
    case Block(id, c, body, r) => Block(id, c, body, Concat(r, g))
  }

  lemma {:induction false} ContentConcat(f: Flow, g: Flow)
    ensures Content(Concat(f, g)) == Content(f) + Content(g)
  {
    match f
    case Nil =>
    case Bytes(b, r) => ContentConcat(r, g);
    case Block(_, _, body, r) => ContentConcat(r, g);
  }

  function Size(f: Flow): nat {
    match f
    case Nil => 0
    case Bytes(_, r) => 1 + Size(r)
    case Block(_, _, body, r) => 1 + Size(body) + Size(r)
  }

  /** `f` is what the entries unfold to in the store, down to the files. */
  predicate Realizes(s: Store, es: Directory, f: Flow)
    decreases f
  {
    match f
    case Nil => es == []
    case Bytes(b, r) => es != [] && es[0] == Part(b) && Realizes(s, es[1..], r)
    case Block(id, c, body, r) =>
      && es != [] && es[0] == Ref(id, c)
      && id in s && Realizes(s, EntriesOf(s[id]), body)
      && Realizes(s, es[1..], r)
  }

  lemma {:induction false} RealizesUnique(s: Store, es: Directory, f: Flow, g: Flow)
    requires Realizes(s, es, f) && Realizes(s, es, g)
    ensures f == g
    decreases f
  {
    match f
    case Nil =>
    case Bytes(b, r) => RealizesUnique(s, es[1..], r, g.rest);
    case Block(id, c, body, r) =>
      RealizesUnique(s, EntriesOf(s[id]), body, g.body);
      RealizesUnique(s, es[1..], r, g.rest);
  }

  /** Publishing more blocks changes no expansion. */
  ghost predicate Extends(s: Store, s': Store) {
    forall id <- s :: id in s' && s'[id] == s[id]
  }

  lemma {:induction false} RealizesGrows(s: Store, s': Store, es: Directory, f: Flow)
    requires Extends(s, s') && Realizes(s, es, f)
    ensures Realizes(s', es, f)
    decreases f
  {
    match f
    case Nil =>
    case Bytes(_, r) => RealizesGrows(s, s', es[1..], r);
    case Block(id, _, body, r) =>
      RealizesGrows(s, s', EntriesOf(s[id]), body);
      RealizesGrows(s, s', es[1..], r);
  }

  /** The unfolding of a stored block. */
  predicate Unfolds(s: Store, id: Id, f: Flow) {
    id in s && Realizes(s, EntriesOf(s[id]), f)
  }

  /** The block is there with everything below it, and nothing below contains it. */
  ghost predicate Whole(s: Store, id: Id) {
    exists f :: Unfolds(s, id, f)
  }

  ghost function Unfolding(s: Store, id: Id): (f: Flow)
    requires Whole(s, id)
    ensures Unfolds(s, id, f)
  {
    var f :| Unfolds(s, id, f); f
  }

  lemma WholeIsStored(s: Store, id: Id)
    ensures Whole(s, id) ==> id in s
  {
  }

  /** What the block expands to. */
  ghost function Expansion(s: Store, id: Id): bytes {
    if Whole(s, id) then Content(Unfolding(s, id)) else []
  }

  lemma ExpansionIs(s: Store, id: Id, f: Flow)
    requires Unfolds(s, id, f)
    ensures Whole(s, id) && Expansion(s, id) == Content(f)
  {
    RealizesUnique(s, EntriesOf(s[id]), f, Unfolding(s, id));
  }

  lemma ExpansionGrows(s: Store, s': Store, id: Id)
    requires Extends(s, s') && Whole(s, id)
    ensures Whole(s', id) && Expansion(s', id) == Expansion(s, id)
  {
    var f := Unfolding(s, id);
    RealizesGrows(s, s', EntriesOf(s[id]), f);
    ExpansionIs(s', id, f);
  }

  /** An entry contributes its bytes or its block's expansion. */
  lemma {:induction false} FlowFills(s: Store, es: Directory, f: Flow)
    requires Realizes(s, es, f)
    ensures Fill(es, (id: Id) => Expansion(s, id)) == Content(f)
  {
    match f
    case Nil =>
    case Bytes(_, r) => FlowFills(s, es[1..], r);
    case Block(id, _, body, r) =>
      ExpansionIs(s, id, body);
      FlowFills(s, es[1..], r);
  }

  ghost predicate Covered(s: Store, es: Directory) {
    forall e <- es :: e.Ref? ==> Whole(s, e.id)
  }

  lemma {:induction false} CoveredRealizes(s: Store, es: Directory) returns (f: Flow)
    requires Covered(s, es)
    ensures Realizes(s, es, f)
  {
    if es == [] {
      f := Nil;
    } else {
      var r := CoveredRealizes(s, es[1..]);
      match es[0]
      case Part(b) => f := Bytes(b, r);
      case Ref(id, c) => f := Block(id, c, Unfolding(s, id), r);
    }
  }

  lemma {:induction false} RealizesCovers(s: Store, es: Directory, f: Flow)
    requires Realizes(s, es, f)
    ensures Covered(s, es)
  {
    match f
    case Nil =>
    case Bytes(_, r) => RealizesCovers(s, es[1..], r); assert es == [es[0]] + es[1..];
    case Block(id, _, body, r) =>
      assert Unfolds(s, id, body);
      RealizesCovers(s, es[1..], r);
      assert es == [es[0]] + es[1..];
  }

  // -------------------------------------------------------- cycles and missing blocks

  predicate Edge(s: Store, a: Id, b: Id) {
    a in s && exists e <- EntriesOf(s[a]) :: e.Ref? && e.id == b
  }

  /** A walk along references. */
  predicate Walk(s: Store, path: seq<Id>) {
    |path| > 0 && forall i | 0 <= i < |path| - 1 :: Edge(s, path[i], path[i + 1])
  }

  ghost predicate Reaches(s: Store, a: Id, b: Id) {
    exists path :: Walk(s, path) && |path| > 1 && path[0] == a && path[|path| - 1] == b
  }

  ghost predicate AtOrBelow(s: Store, a: Id, b: Id) {
    a == b || Reaches(s, a, b)
  }

  /** Some block at or below `id` contains itself. */
  ghost predicate CycleBelow(s: Store, id: Id) {
    exists x :: AtOrBelow(s, id, x) && Reaches(s, x, x)
  }

  ghost predicate MissingBelow(s: Store, id: Id) {
    exists x :: AtOrBelow(s, id, x) && x !in s
  }

  lemma {:induction false} EdgeDescends(s: Store, es: Directory, f: Flow, b: Id) returns (g: Flow)
    requires Realizes(s, es, f)
    requires exists e <- es :: e.Ref? && e.id == b
    ensures Unfolds(s, b, g) && Size(g) < Size(f)
  {
    match f
    case Bytes(_, r) => g := EdgeDescends(s, es[1..], r, b);
    case Block(id, _, body, r) =>
      if id == b { g := body; } else { g := EdgeDescends(s, es[1..], r, b); }
  }

  /** Unfoldings shrink along a walk. */
  lemma {:induction false} WalkDescends(s: Store, path: seq<Id>, f: Flow) returns (g: Flow)
    requires Walk(s, path) && Unfolds(s, path[0], f)
    ensures Unfolds(s, path[|path| - 1], g)
    ensures Size(g) <= Size(f) && (|path| > 1 ==> Size(g) < Size(f))
  {
    if |path| == 1 {
      g := f;
    } else {
      assert Edge(s, path[0], path[1]);
      var h := EdgeDescends(s, EntriesOf(s[path[0]]), f, path[1]);
      assert Walk(s, path[1..]) by {
        forall i | 0 <= i < |path| - 2 ensures Edge(s, path[1..][i], path[1..][i + 1]) {
          assert Edge(s, path[i + 1], path[i + 2]);
        }
      }
      g := WalkDescends(s, path[1..], h);
    }
  }

  lemma WholeBelow(s: Store, a: Id, b: Id)
    requires Whole(s, a) && AtOrBelow(s, a, b)
    ensures Whole(s, b)
  {
    if a != b {
      var path :| Walk(s, path) && |path| > 1 && path[0] == a && path[|path| - 1] == b;
      var g := WalkDescends(s, path, Unfolding(s, a));
    }
  }

  /** A whole block has no cycle and no gap at or below it. */
  lemma WholeIsSound(s: Store, id: Id)
    requires Whole(s, id)
    ensures !CycleBelow(s, id) && !MissingBelow(s, id)
  {
    forall x | AtOrBelow(s, id, x)
      ensures x in s && !Reaches(s, x, x)
    {
      WholeBelow(s, id, x);
      var f := Unfolding(s, x);
      forall path | Walk(s, path) && |path| > 1 && path[0] == x && path[|path| - 1] == x
        ensures false
      {
        var g := WalkDescends(s, path, f);
        RealizesUnique(s, EntriesOf(s[x]), f, g);
      }
    }
  }

  lemma ReachesStep(s: Store, a: Id, b: Id, c: Id)
    requires AtOrBelow(s, a, b) && Edge(s, b, c)
    ensures Reaches(s, a, c)
  {
    if a == b {
      assert Walk(s, [a, c]);
    } else {
      var path :| Walk(s, path) && |path| > 1 && path[0] == a && path[|path| - 1] == b;
      assert Walk(s, path + [c]);
    }
  }

  // ------------------------------------------------------------------- measuring

  datatype MeasureError = LoopError(id: Id) | FileNotFound(id: Id)

  /**
    `get_expanded_block_length`: `seen` is the stack of directories being measured.
    Ghost: every one of them contains this block.
    */
  method GetExpandedBlockLength(s: Store, id: Id, seen: set<Id>) returns (r: Result<nat, MeasureError>)
    requires seen <= s.Keys
    requires forall x <- seen :: Reaches(s, x, id)
    ensures r.Ok? <==> Whole(s, id)
    ensures r.Ok? ==> r.value == |Expansion(s, id)|
    ensures r.Err? && r.error.LoopError? ==> CycleBelow(s, id)
    ensures r.Err? && r.error.FileNotFound? ==> MissingBelow(s, id)
    decreases s.Keys - seen, 0
  {
    if id in seen {
      assert AtOrBelow(s, id, id);
      if Whole(s, id) { WholeIsSound(s, id); }
      return Err(LoopError(id));
    }
    if id !in s {
      assert AtOrBelow(s, id, id);
      return Err(FileNotFound(id));
    }
    match s[id] {
      case File(b) =>
        var f := Bytes(b, Nil);
        assert [Part(b)][1..] == [];
        assert Unfolds(s, id, f);
        ExpansionIs(s, id, f);
        assert Content(f) == b;
        return Ok(|b|);
      case Dir(es) =>
        r := GetSize(s, id, es, seen + {id});
        if r.Ok? {
          var f := CoveredRealizes(s, es);
          assert Unfolds(s, id, f);
          ExpansionIs(s, id, f);
          FlowFills(s, es, f);
        } else if Whole(s, id) {
          WholeIsSound(s, id);
        }
    }
  }

  /** The summing loop of `getsize` over a directory's `_.json`. */
  method GetSize(s: Store, id: Id, es: Directory, seen: set<Id>) returns (r: Result<nat, MeasureError>)
    requires id in s && s[id] == Dir(es) && id in seen
    requires seen <= s.Keys
    requires forall x <- seen :: AtOrBelow(s, x, id)
    ensures r.Ok? ==> Covered(s, es) && r.value == |Fill(es, (b: Id) => Expansion(s, b))|
    ensures r.Err? && r.error.LoopError? ==> CycleBelow(s, id)
    ensures r.Err? && r.error.FileNotFound? ==> MissingBelow(s, id)
    decreases s.Keys - seen, 1
  {
    var totalSize := 0;
    var i := 0;
    ghost var content := (b: Id) => Expansion(s, b);
    while i < |es|
      invariant 0 <= i <= |es|
      invariant Covered(s, es[..i])
      invariant totalSize == |Fill(es[..i], content)|
    {
      assert es[..i + 1] == es[..i] + [es[i]];
      FillAppend(es[..i], [es[i]], content);
      assert [es[i]][1..] == [];
      match es[i] {
        case Part(b) =>
          totalSize := totalSize + |b|;
        case Ref(b, _) =>
          assert Edge(s, id, b) by { assert es[i] in EntriesOf(s[id]); }
          forall x | x in seen ensures Reaches(s, x, b) { ReachesStep(s, x, id, b); }
          var length := GetExpandedBlockLength(s, b, seen);
          match length {
            case Err(e) =>
              BelowStep(s, id, b);
              return Err(e);
            case Ok(n) =>
              totalSize := totalSize + n;
          }
      }
      i := i + 1;
    }
    assert es[..i] == es;
    return Ok(totalSize);
  }

  lemma BelowStep(s: Store, a: Id, b: Id)
    requires Edge(s, a, b)
    ensures CycleBelow(s, b) ==> CycleBelow(s, a)
    ensures MissingBelow(s, b) ==> MissingBelow(s, a)
  {
    forall x | AtOrBelow(s, b, x)
      ensures AtOrBelow(s, a, x)
    {
      if b == x {
        ReachesStep(s, a, a, b);
      } else {
        var path :| Walk(s, path) && |path| > 1 && path[0] == b && path[|path| - 1] == x;
        assert Walk(s, [a] + path) by {
          forall i | 0 <= i < |path| ensures Edge(s, ([a] + path)[i], ([a] + path)[i + 1]) {
            if i > 0 { assert Edge(s, path[i - 1], path[i]); }
          }
        }
      }
    }
  }

  /** Being measurable is having neither a cycle nor a gap at or below. */
  lemma WholeExactly(s: Store, id: Id)
    ensures Whole(s, id) <==> !CycleBelow(s, id) && !MissingBelow(s, id)
  {
    if Whole(s, id) {
      WholeIsSound(s, id);
    } else if !CycleBelow(s, id) && !MissingBelow(s, id) {
      FindUnfolding(s, id, {});
    }
  }

  lemma {:induction false} FindUnfolding(s: Store, id: Id, seen: set<Id>)
    requires !CycleBelow(s, id) && !MissingBelow(s, id)
    requires seen <= s.Keys && forall x <- seen :: Reaches(s, x, id)
    ensures Whole(s, id)
    decreases s.Keys - seen
  {
    assert AtOrBelow(s, id, id);
    var es := EntriesOf(s[id]);
    forall e | e in es && e.Ref?
      ensures Whole(s, e.id)
    {
      assert Edge(s, id, e.id);
      BelowStep(s, id, e.id);
      forall x | x in seen + {id} ensures Reaches(s, x, e.id) { ReachesStep(s, x, id, e.id); }
      FindUnfolding(s, e.id, seen + {id});
    }
    var f := CoveredRealizes(s, es);
    assert Unfolds(s, id, f);
  }

  /** `getsize` on a path of the registry: nothing there counts nothing. */
  method GetSizeOfPath(s: Store, id: Id) returns (r: Result<nat, MeasureError>)
    ensures Whole(s, id) ==> r == Ok(|Expansion(s, id)|)
    ensures id !in s ==> r == Ok(0)
    ensures id in s && !Whole(s, id) ==> r.Err?
  {
    if id !in s {
      if Whole(s, id) { WholeIsSound(s, id); }
      return Ok(0);
    }
    r := GetExpandedBlockLength(s, id, {});
  }

  // --------------------------------------------------------------------- seeking

  /**
    A place in a stored file: the directory that owns it (none for the object at hand),
    which of its entries it is, and the offset in it.
    */
  datatype Place = Place(owner: Option<Id>, index: nat, offset: nat)

  datatype SeekError = OutOfRange | Unmeasured(error: MeasureError)

  function OwnerEntries(s: Store, es: Directory, owner: Option<Id>): Directory {
    match owner
    case None => es
    case Some(id) => if id in s then EntriesOf(s[id]) else []
  }

  predicate IsFile(s: Store, es: Directory, p: Place) {
    && p.index < |OwnerEntries(s, es, p.owner)|
    && OwnerEntries(s, es, p.owner)[p.index].Part?
  }

  function FileAt(s: Store, es: Directory, p: Place): bytes
    requires IsFile(s, es, p)
  {
    OwnerEntries(s, es, p.owner)[p.index].content
  }

  /** The file, in its own place in the stream, covers position `position` at its offset. */
  ghost predicate Covers(stream: bytes, position: nat, file: bytes, offset: nat) {
    && offset < |file| && offset <= position
    && At(stream, position - offset, file)
  }

  ghost function Contents(s: Store): Id -> bytes {
    (id: Id) => Expansion(s, id)
  }

  /** The entries before `j` take up this much of the stream. */
  ghost function Offset(s: Store, es: Directory, j: nat): nat
    requires j <= |es|
  {
    |Fill(es[..j], Contents(s))|
  }

  lemma {:induction false} OffsetStep(s: Store, es: Directory, j: nat)
    requires j < |es|
    ensures Offset(s, es, j + 1) == Offset(s, es, j) + (if es[j].Part? then |es[j].content| else |Expansion(s, es[j].id)|)
  {
    assert es[..j + 1] == es[..j] + [es[j]];
    FillAppend(es[..j], [es[j]], Contents(s));
    assert [es[j]][1..] == [];
  }

  lemma {:induction false} OffsetMonotone(s: Store, es: Directory, i: nat, j: nat)
    requires i <= j <= |es|
    ensures Offset(s, es, i) <= Offset(s, es, j)
    decreases j - i
  {
    if i < j {
      OffsetStep(s, es, i);
      OffsetMonotone(s, es, i + 1, j);
    }
  }

  lemma {:induction false} EntryInStream(s: Store, es: Directory, f: Flow, j: nat)
    requires Realizes(s, es, f) && j < |es|
    ensures At(Content(f), Offset(s, es, j), if es[j].Part? then es[j].content else Expansion(s, es[j].id))
    ensures Offset(s, es, |es|) == |Content(f)|
  {
    FlowFills(s, es, f);
    assert es[..|es|] == es;
    assert es == es[..j] + [es[j]] + es[j + 1..];
    FillAppend(es[..j] + [es[j]], es[j + 1..], Contents(s));
    FillAppend(es[..j], [es[j]], Contents(s));
    assert [es[j]][1..] == [];
  }

  /**
    What seeking owes: every position of the stream is found in a file that covers it
    there, in the very part when the position is inside a part of these entries.
    */
  ghost predicate Sought(s: Store, top: Directory, position: nat, es: Directory, owner: Option<Id>, f: Flow,
                         r: Result<Place, SeekError>)
    requires r.Ok? ==> IsFile(s, top, r.value)
  {
    && (r.Ok? <==> position < |Content(f)|)
    && (r.Err? ==> r.error.OutOfRange?)
    && (r.Ok? ==> Covers(Content(f), position, FileAt(s, top, r.value), r.value.offset))
    && forall j | 0 <= j < |es| && InPart(s, es, j, position) :: r == Ok(Place(owner, j, position - Offset(s, es, j)))
  }

  ghost predicate InPart(s: Store, es: Directory, j: nat, position: nat)
    requires j < |es|
  {
    es[j].Part? && Offset(s, es, j) <= position < Offset(s, es, j) + |es[j].content|
  }

  /**
    `seek_expanded_position`. `owner` is the directory the entries belong to; below the
    object at hand that is a stored block, whose unfolding is `f`.
    */
  method SeekExpandedPosition(s: Store, top: Directory, position: nat, es: Directory, owner: Option<Id>, ghost f: Flow)
    returns (r: Result<Place, SeekError>)
    requires es == OwnerEntries(s, top, owner)
    requires owner.Some? ==> Realizes(s, es, f)
    ensures r.Ok? ==> IsFile(s, top, r.value) && r.value.offset < |FileAt(s, top, r.value)|
    ensures Realizes(s, es, f) ==> Sought(s, top, position, es, owner, f, r)
    decreases if owner.None? then 1 else 0, Size(f)
  {
    var remaining := position;
    var i := 0;
    while i < |es|
      invariant 0 <= i <= |es|
      invariant Realizes(s, es, f) ==> Offset(s, es, i) + remaining == position
    {
      OffsetStep(s, es, i);
      match es[i] {
        case Part(b) =>
          if remaining < |b| {
            r := Ok(Place(owner, i, remaining));
            if Realizes(s, es, f) { SeekPart(s, top, position, es, owner, f, i); }
            return;
          }
          remaining := remaining - |b|;
        case Ref(id, _) =>
          var length := GetSizeOfPath(s, id);
          if Realizes(s, es, f) { RefWhole(s, es, f, i); }
          if length.Err? {
            return Err(Unmeasured(length.error));
          }
          if remaining < length.value {
            ghost var body := Unfolding(s, id);
            r := SeekExpandedPosition(s, top, remaining, EntriesOf(s[id]), Some(id), body);
            if Realizes(s, es, f) { SeekRef(s, top, position, es, owner, f, i, remaining, body, r); }
            return;
          }
          remaining := remaining - length.value;
      }
      i := i + 1;
    }
    r := Err(OutOfRange);
    if Realizes(s, es, f) { SeekNothing(s, top, position, es, owner, f); }
  }

  lemma RefWhole(s: Store, es: Directory, f: Flow, i: nat)
    requires Realizes(s, es, f) && i < |es| && es[i].Ref?
    ensures Whole(s, es[i].id) && Size(Unfolding(s, es[i].id)) < Size(f)
  {
    RealizesCovers(s, es, f);
    assert es[i] in es;
    var g := EdgeDescends(s, es, f, es[i].id);
    RealizesUnique(s, EntriesOf(s[es[i].id]), g, Unfolding(s, es[i].id));
  }

  lemma SeekPart(s: Store, top: Directory, position: nat, es: Directory, owner: Option<Id>, f: Flow, i: nat)
    requires es == OwnerEntries(s, top, owner) && Realizes(s, es, f)
    requires i < |es| && InPart(s, es, i, position)
    ensures Sought(s, top, position, es, owner, f, Ok(Place(owner, i, position - Offset(s, es, i))))
  {
    OffsetStep(s, es, i);
    EntryInStream(s, es, f, i);
    OnlyEntry(s, es, i, position);
  }

  lemma SeekRef(s: Store, top: Directory, position: nat, es: Directory, owner: Option<Id>, f: Flow, i: nat,
                remaining: nat, body: Flow, r: Result<Place, SeekError>)
    requires Realizes(s, es, f) && i < |es| && es[i].Ref?
    requires Unfolds(s, es[i].id, body)
    requires Offset(s, es, i) + remaining == position && remaining < |Content(body)|
    requires r.Ok? ==> IsFile(s, top, r.value)
    requires Sought(s, top, remaining, EntriesOf(s[es[i].id]), Some(es[i].id), body, r)
    ensures Sought(s, top, position, es, owner, f, r)
  {
    ExpansionIs(s, es[i].id, body);
    OffsetStep(s, es, i);
    EntryInStream(s, es, f, i);
    OnlyEntry(s, es, i, position);
    CoversInside(Content(f), Offset(s, es, i), Content(body), remaining, FileAt(s, top, r.value), r.value.offset);
  }

  lemma SeekNothing(s: Store, top: Directory, position: nat, es: Directory, owner: Option<Id>, f: Flow)
    requires Realizes(s, es, f) && Offset(s, es, |es|) <= position
    ensures Sought(s, top, position, es, owner, f, Err(OutOfRange))
  {
    FlowFills(s, es, f);
    assert es[..|es|] == es;
    forall j | 0 <= j < |es| && es[j].Part?
      ensures Offset(s, es, j) + |es[j].content| <= position
    {
      OffsetStep(s, es, j);
      OffsetMonotone(s, es, j + 1, |es|);
    }
  }

  /** A position inside one entry is inside no other part. */
  lemma OnlyEntry(s: Store, es: Directory, i: nat, position: nat)
    requires i < |es| && Offset(s, es, i) <= position < Offset(s, es, i + 1)
    ensures forall j | 0 <= j < |es| && InPart(s, es, j, position) :: j == i
  {
    forall j | 0 <= j < |es| && InPart(s, es, j, position)
      ensures j == i
    {
      OffsetStep(s, es, j);
      if j < i { OffsetMonotone(s, es, j + 1, i); }
      if i < j { OffsetMonotone(s, es, i + 1, j); }
    }
  }

  lemma CoversInside(stream: bytes, at: nat, body: bytes, position: nat, file: bytes, offset: nat)
    requires At(stream, at, body) && Covers(body, position, file, offset)
    ensures Covers(stream, at + position, file, offset)
  {
    var start := position - offset;
    forall k | 0 <= k < |file|
      ensures file[k] == stream[at + start + k]
    {
      assert file[k] == body[start..start + |file|][k];
      assert body[start + k] == stream[at..at + |body|][start + k];
    }
  }

  /** `get_varint_at_position`: seek, then read in that one file. */
  method GetVarintAtPosition(s: Store, es: Directory, position: nat, ghost f: Flow) returns (r: Result<nat, SeekError>)
    ensures Realizes(s, es, f) ==> (r.Ok? <==> position < |Content(f)|)
    ensures Realizes(s, es, f) ==>
      forall j | 0 <= j < |es| && InPart(s, es, j, position) ::
        r == Ok(DecodeLoose(es[j].content[position - Offset(s, es, j)..]))
  {
    var place := SeekExpandedPosition(s, es, position, es, None, f);
    if place.Err? {
      return Err(place.error);
    }
    var file := FileAt(s, es, place.value);
    var v := ReadVarintInFile(file, place.value.offset);
    return Ok(v);
  }
}
