/** `create_lengths_tree`: pointer chains, gathered block by block, become one tree. */
module LengthsTrees {
  import opened Bytes
  import opened Documents
  import opened Layouts

  /** For every block, the chains that reach it. */
  type Container = map<Id, seq<seq<nat>>>

  predicate Listed(c: Container, chain: seq<nat>, id: Id) {
    id in c && chain in c[id]
  }

  predicate Related(a: seq<nat>, b: seq<nat>) {
    a <= b || b <= a
  }

  /** One chain, walked down from the top level; None is the TypeError of walking into a block id. */
  function Insert(kids: Kids, chain: seq<nat>, id: Id): Option<Kids>
    decreases |chain|
  {
    if chain == [] then None
    else if |chain| == 1 then Some(kids[chain[0] := Leaf(id)])
    else if chain[0] in kids && kids[chain[0]].Leaf? then None
    else
      var sub := if chain[0] in kids then kids[chain[0]].kids else map[];
      match Insert(sub, chain[1..], id)
      case None => None
      case Some(sub') => Some(kids[chain[0] := Branch(sub')])
  }

  /** A block stands somewhere on the way along the chain. */
  ghost predicate Blocked(kids: Kids, chain: seq<nat>) {
    exists n, i :: 0 < n < |chain| && HasLeaf(kids, chain[..n], i)
  }

  lemma BlockedStep(kids: Kids, chain: seq<nat>)
    requires |chain| > 1
    ensures Blocked(kids, chain) <==>
      chain[0] in kids && (kids[chain[0]].Leaf? || Blocked(kids[chain[0]].kids, chain[1..]))
  {
    var k := chain[0];
    if k in kids && kids[k].Leaf? {
      var n, i := 1, kids[k].id;
      assert chain[..n] == [k] && HasLeaf(kids, chain[..n], i);
    } else if k in kids && Blocked(kids[k].kids, chain[1..]) {
      var n, i :| 0 < n < |chain[1..]| && HasLeaf(kids[k].kids, chain[1..][..n], i);
      assert chain[..n + 1][1..] == chain[1..][..n];
      assert HasLeaf(kids, chain[..n + 1], i);
    }
    if Blocked(kids, chain) {
      var n, i :| 0 < n < |chain| && HasLeaf(kids, chain[..n], i);
      assert chain[..n][1..] == chain[1..][..n - 1];
      assert k in kids && kids[k].Branch? ==> HasLeaf(kids[k].kids, chain[1..][..n - 1], i);
    }
  }

  /** Inserting fails exactly on an empty chain, or one that runs through a block. */
  lemma {:induction false} InsertExactly(kids: Kids, chain: seq<nat>, id: Id)
    ensures Insert(kids, chain, id) == None <==> chain == [] || Blocked(kids, chain)
    decreases |chain|
  {
    if |chain| > 1 {
      BlockedStep(kids, chain);
      var sub := if chain[0] in kids && kids[chain[0]].Branch? then kids[chain[0]].kids else map[];
      InsertExactly(sub, chain[1..], id);
      assert !Blocked(map[], chain[1..]);
    }
  }

  lemma {:induction false} InsertLeaves(kids: Kids, chain: seq<nat>, id: Id)
    requires Solid(kids) && |chain| > 0
    requires forall c, i :: HasLeaf(kids, c, i) ==> (c == chain && i == id) || !Related(c, chain)
    ensures Insert(kids, chain, id).Some?
    ensures var kids' := Insert(kids, chain, id).value;
      Solid(kids') && kids' != map[]
      && forall c, i :: HasLeaf(kids', c, i) <==> HasLeaf(kids, c, i) || (c == chain && i == id)
    decreases |chain|
  {
    var k := chain[0];
    if |chain| == 1 {
      assert chain == [k];
      assert k in Insert(kids, chain, id).value;
      if k in kids && kids[k].Branch? {
        var c, i := SomeLeaf(kids[k].kids);
        assert ([k] + c)[1..] == c;
        assert HasLeaf(kids, [k] + c, i);
      } else if k in kids {
        assert HasLeaf(kids, [k], kids[k].id);
      }
    } else {
      assert [k] <= chain;
      if k in kids && kids[k].Leaf? {
        assert HasLeaf(kids, [k], kids[k].id);
      }
      var sub := if k in kids then kids[k].kids else map[];
      forall c, i | HasLeaf(sub, c, i)
        ensures (c == chain[1..] && i == id) || !Related(c, chain[1..])
      {
        assert ([k] + c)[1..] == c;
        assert HasLeaf(kids, [k] + c, i);
        assert chain == [k] + chain[1..];
      }
      InsertLeaves(sub, chain[1..], id);
      var kids' := Insert(kids, chain, id).value;
      assert k in kids';
      forall c, i
        ensures HasLeaf(kids', c, i) <==> HasLeaf(kids, c, i) || (c == chain && i == id)
      {
        if |c| > 0 && c[0] == k { assert c == [k] + c[1..]; assert chain == [k] + chain[1..]; }
      }
    }
  }

  /** Chains that lead to places of their own. */
  ghost predicate Treelike(container: Container) {
    && (forall c, id :: Listed(container, c, id) ==> |c| > 0)
    && (forall c0, id0, c1, id1 :: Listed(container, c0, id0) && Listed(container, c1, id1) && c0 <= c1 ==> c0 == c1 && id0 == id1)
  }

  /** Blocks and chains are taken in whatever order the dictionary has them. */
  method CreateLengthsTree(container: Container) returns (r: Option<Kids>)
    ensures Treelike(container) ==>
      r.Some? && Solid(r.value) && forall c, id :: HasLeaf(r.value, c, id) <==> Listed(container, c, id)
  {
    var tree: Kids := map[];
    var todo := container.Keys;
    while todo != {}
      invariant todo <= container.Keys
      invariant Treelike(container) ==> Solid(tree)
      invariant Treelike(container) ==>
        forall c, i :: HasLeaf(tree, c, i) <==> Listed(container, c, i) && i !in todo
    {
      var id :| id in todo;
      var chains := container[id];
      var j := 0;
      while j < |chains|
        invariant 0 <= j <= |chains|
        invariant Treelike(container) ==> Solid(tree)
        invariant Treelike(container) ==>
          forall c, i :: HasLeaf(tree, c, i) <==> (Listed(container, c, i) && i !in todo) || (i == id && c in chains[..j])
      {
        if Treelike(container) {
          assert Listed(container, chains[j], id);
          forall c, i | HasLeaf(tree, c, i)
            ensures (c == chains[j] && i == id) || !Related(c, chains[j])
          {
            assert Listed(container, c, i);
          }
          InsertLeaves(tree, chains[j], id);
        }
        var next := Insert(tree, chains[j], id);
        if next.None? {
          return None;
        }
        assert chains[..j + 1] == chains[..j] + [chains[j]];
        tree := next.value;
        j := j + 1;
      }
      assert chains[..j] == chains;
      todo := todo - {id};
    }
    return Some(tree);
  }

  /** The chains of a document, in any order, make the document's tree. */
  lemma TreeOfContainer(d: Doc, pos: nat, container: Container)
    requires forall c, id :: Listed(container, c, id) <==> IsSpot(d, pos, c, id)
    ensures Treelike(container)
    ensures forall kids :: Solid(kids) && (forall c, id :: HasLeaf(kids, c, id) <==> Listed(container, c, id)) ==> kids == TreeOf(d, pos)
  {
    forall c, id | Listed(container, c, id) ensures |c| > 0 { SpotBounds(d, pos, c, id); }
    forall c0, id0, c1, id1 | Listed(container, c0, id0) && Listed(container, c1, id1) && c0 <= c1
      ensures c0 == c1 && id0 == id1
    {
      SpotsPrefixFree(d, pos, c0, id0, c1, id1);
    }
    forall kids | Solid(kids) && (forall c, id :: HasLeaf(kids, c, id) <==> Listed(container, c, id))
      ensures kids == TreeOf(d, pos)
    {
      forall c, id ensures HasLeaf(kids, c, id) <==> HasLeaf(TreeOf(d, pos), c, id) { TreeLeaves(d, pos, c, id); }
      TreeSolid(d, pos);
      SameLeaves(kids, TreeOf(d, pos));
    }
  }

  // ------------------------------------------------------- gathering the chains

  function Add(c: Container, s: Spot): Container {
    c[s.id := (if s.id in c then c[s.id] else []) + [s.chain]]
  }

  function AddAll(c: Container, spots: seq<Spot>): Container
    decreases spots
  {
    if spots == [] then c else AddAll(Add(c, spots[0]), spots[1..])
  }

  lemma {:induction false} AddAllAppend(c: Container, a: seq<Spot>, b: seq<Spot>)
    ensures AddAll(c, a + b) == AddAll(AddAll(c, a), b)
    decreases a
  {
    if a == [] {
      assert a + b == b;
    } else {
      assert (a + b)[1..] == a[1..] + b;
      AddAllAppend(Add(c, a[0]), a[1..], b);
    }
  }

  lemma {:induction false} AddAllListed(c: Container, spots: seq<Spot>, chain: seq<nat>, id: Id)
    ensures Listed(AddAll(c, spots), chain, id) <==> Listed(c, chain, id) || Spot(id, chain) in spots
    ensures AddAll(c, spots).Keys == c.Keys + IdsOf(spots)
    decreases spots
  {
    if spots != [] {
      AddAllListed(Add(c, spots[0]), spots[1..], chain, id);
      assert spots == [spots[0]] + spots[1..];
      IdsAppend([spots[0]], spots[1..]);
    }
  }

  function IdsOf(spots: seq<Spot>): set<Id> {
    set s <- spots :: s.id
  }

  lemma IdsAppend(a: seq<Spot>, b: seq<Spot>)
    ensures IdsOf(a + b) == IdsOf(a) + IdsOf(b)
    ensures |a| == 1 ==> IdsOf(a) == {a[0].id}
  {
    forall id | id in IdsOf(a) + IdsOf(b)
      ensures id in IdsOf(a + b)
    {
      var s :| (s in a || s in b) && s.id == id;
      assert s in a + b;
    }
  }

  /** Gathering the occurrences of a document lists exactly its chains. */
  lemma GatheredIsDocument(d: Doc, pos: nat)
    ensures forall c, id :: Listed(AddAll(map[], Spots(d, [], pos)), c, id) <==> IsSpot(d, pos, c, id)
    ensures AddAll(map[], Spots(d, [], pos)).Keys == HoleIds(d)
  {
    var spots := Spots(d, [], pos);
    forall c, id
      ensures Listed(AddAll(map[], spots), c, id) <==> IsSpot(d, pos, c, id)
    {
      AddAllListed(map[], spots, c, id);
      if Spot(id, c) in spots {
        SpotsSound(d, [], pos, Spot(id, c));
        assert c[0..] == c;
      }
      if IsSpot(d, pos, c, id) {
        SpotsComplete(d, [], pos, c, id);
        assert [] + c == c;
      }
    }
    AddAllListed(map[], spots, [], []);
    SpotIds(d, [], pos);
  }

  lemma {:induction false} SpotIds(d: Doc, prefix: seq<nat>, pos: nat)
    ensures IdsOf(Spots(d, prefix, pos)) == HoleIds(d)
  {
    match d
    case End =>
    case Raw(b, r) => SpotIds(r, prefix, pos + |b|);
    case Hole(_, id, h, _, r) =>
      SpotIds(r, prefix, pos + RecordSize(|h|));
      IdsAppend([Spot(id, prefix + [pos + 1])], Spots(r, prefix, pos + RecordSize(|h|)));
    case Sub(_, i, r) =>
      SpotIds(i, prefix + [pos + 1], Inside(i, pos));
      SpotIds(r, prefix, pos + RecordSize(|Text(i)|));
      IdsAppend(Spots(i, prefix + [pos + 1], Inside(i, pos)), Spots(r, prefix, pos + RecordSize(|Text(i)|)));
  }
}
