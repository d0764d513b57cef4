/** What the descent leaves when the stream is a framed object: the sender's object. */
module RoundTrips {
  import opened Bytes
  import opened Documents
  import opened Layouts
  import opened Stores
  import opened Reader
  import opened Receiver
  import opened Descent
  import Safety

  /** The entries a stretch of stream spells, block bodies aside. */
  function Gather(w: Writer, f: Flow): Writer
    decreases f
  {
    match f
    case Nil => w
    case Bytes(b, r) => Gather(Write(w, b), r)
    case Block(id, chain, _, r) => Gather(Cut(w, id, chain), r)
  }

  /** The stored form a framed block spells. */
  function Spelled(body: Flow): Stored {
    StoredForm(Gather(EMPTY, body))
  }

  lemma {:induction false} ParseGathers(host: Host, s: Store, asked: seq<Id>, depth: nat, w: Writer, f: Flow)
    requires Parse(host, s, asked, depth, w, f).Ok?
    ensures Parse(host, s, asked, depth, w, f).value.writer == Gather(w, f)
    decreases f
  {
    hide Drain, LocalCopy, Write, Cut;
    match f
    case Nil =>
    case Bytes(b, r) => ParseGathers(host, s, asked, depth, Write(w, b), r);
    case Block(id, c, body, r) =>
      if id in s {
        ParseGathers(host, s, Drain(s, Ask(asked, id), depth + 1, body).value, depth, Cut(w, id, c), r);
      } else {
        var p := Parse(host, s, asked, depth + 1, EMPTY, body).value;
        var q := Saved(host, id, c, w, p).value;
        ParseGathers(host, q.store, q.asked, depth, q.writer, r);
      }
  }

  /** A block occurrence, at any depth. */
  predicate Occurs(f: Flow, id: Id, body: Flow) {
    match f
    case Nil => false
    case Bytes(_, r) => Occurs(r, id, body)
    case Block(x, _, b, r) => (x == id && b == body) || Occurs(b, id, body) || Occurs(r, id, body)
  }

  /** What was not there is stored in the form one of its occurrences spells. */
  ghost predicate StoresAsSpelled(s: Store, s': Store, f: Flow) {
    && Extends(s, s')
    && forall id | id in s' && id !in s :: exists body :: Occurs(f, id, body) && s'[id] == Spelled(body)
  }

  /** Whatever the stream, what is stored is what it spells, and what was held stays. */
  lemma {:induction false} ParseStores(host: Host, s: Store, asked: seq<Id>, depth: nat, w: Writer, f: Flow)
    requires Parse(host, s, asked, depth, w, f).Ok?
    ensures StoresAsSpelled(s, Parse(host, s, asked, depth, w, f).value.store, f)
    decreases f
  {
    hide Drain, LocalCopy, StoredForm, Gather, Write, Cut;
    var after := Parse(host, s, asked, depth, w, f).value.store;
    match f
    case Nil =>
    case Bytes(b, r) =>
      ParseStores(host, s, asked, depth, Write(w, b), r);
      assert forall id, body :: Occurs(r, id, body) ==> Occurs(f, id, body);
    case Block(id, c, body, r) =>
      assert forall x, b :: Occurs(r, x, b) || Occurs(body, x, b) ==> Occurs(f, x, b);
      if id in s {
        ParseStores(host, s, Drain(s, Ask(asked, id), depth + 1, body).value, depth, Cut(w, id, c), r);
      } else {
        var p := Parse(host, s, asked, depth + 1, EMPTY, body).value;
        ParseStores(host, s, asked, depth + 1, EMPTY, body);
        ParseGathers(host, s, asked, depth + 1, EMPTY, body);
        var q := Saved(host, id, c, w, p).value;
        ParseStores(host, q.store, q.asked, depth, q.writer, r);
        assert Occurs(f, id, body);
        forall x | x in after && x !in s
          ensures exists b :: Occurs(f, x, b) && after[x] == Spelled(b)
        {
          if x in p.store {
            assert exists b :: Occurs(body, x, b) && p.store[x] == Spelled(b);
          } else if x != id {
            assert exists b :: Occurs(r, x, b) && after[x] == Spelled(b);
          }
        }
      }
  }

  // ------------------------------------------------------------ what is asked for

  predicate Starts(f: Flow, id: Id) {
    match f
    case Nil => false
    case Bytes(_, r) => Starts(r, id)
    case Block(x, _, body, r) => x == id || Starts(body, id) || Starts(r, id)
  }

  lemma AskHas(asked: seq<Id>, id: Id)
    ensures id in Ask(asked, id) && forall x <- asked :: x in Ask(asked, id)
  {
  }

  lemma {:induction false} DrainAsks(s: Store, asked: seq<Id>, depth: nat, f: Flow, id: Id)
    requires id in s && Drain(s, asked, depth, f).Ok?
    ensures var after := Drain(s, asked, depth, f).value; (id in asked || Starts(f, id)) ==> id in after
    decreases f
  {
    hide Ask;
    match f
    case Nil =>
    case Bytes(_, r) => DrainAsks(s, asked, depth, r, id);
    case Block(x, _, body, r) =>
      var asked' := if x in s then Ask(asked, x) else asked;
      AskHas(asked, x);
      DrainAsks(s, asked', depth + 1, body, id);
      DrainAsks(s, Drain(s, asked', depth + 1, body).value, depth, r, id);
  }

  /** Every block that is held and starts in the stream, at any depth, has been asked to be skipped. */
  lemma {:induction false} ParseAsks(host: Host, s: Store, asked: seq<Id>, depth: nat, w: Writer, f: Flow, id: Id)
    requires id in s && Parse(host, s, asked, depth, w, f).Ok?
    ensures var p := Parse(host, s, asked, depth, w, f).value;
      id in p.store && ((id in asked || Starts(f, id)) ==> id in p.asked)
    decreases f
  {
    hide Ask, LocalCopy, Write, Cut, StoredForm;
    match f
    case Nil =>
    case Bytes(b, r) => ParseAsks(host, s, asked, depth, Write(w, b), r, id);
    case Block(x, c, body, r) =>
      AskHas(asked, x);
      if x in s {
        DrainAsks(s, Ask(asked, x), depth + 1, body, id);
        ParseAsks(host, s, Drain(s, Ask(asked, x), depth + 1, body).value, depth, Cut(w, x, c), r, id);
      } else {
        ParseAsks(host, s, asked, depth + 1, EMPTY, body, id);
        var q := Saved(host, x, c, w, Parse(host, s, asked, depth + 1, EMPTY, body).value).value;
        ParseAsks(host, q.store, q.asked, depth, q.writer, r, id);
      }
  }

  // -------------------------------------------------------- streams worth receiving

  ghost predicate Injective(hash: bytes -> Id) {
    forall a, b | hash(a) == hash(b) :: a == b
  }

  /** Every block is what its id names. */
  predicate Named(env: Environment, f: Flow) {
    match f
    case Nil => true
    case Bytes(_, r) => Named(env, r)
    case Block(id, _, body, r) => env.hash(Content(body)) == id && Named(env, body) && Named(env, r)
  }

  /** How deep blocks nest. */
  function Nesting(f: Flow): nat {
    match f
    case Nil => 0
    case Bytes(_, r) => Nesting(r)
    case Block(_, _, body, r) => var a, b := 1 + Nesting(body), Nesting(r); if a < b then b else a
  }

  /** The receiver writes the pointer form of these entries wherever all they reference is there. */
  ghost predicate Accepts(host: Host, es: Directory, omitTypes: bool) {
    forall s: Store | Sound(host.env, s) && Covered(s, es) :: host.accepts(s, es, omitTypes)
  }

  /** It may refuse to write that of the block. */
  ghost predicate Refused(host: Host, f: Flow, id: Id) {
    exists body :: Occurs(f, id, body) && Spelled(body).Dir? && !Accepts(host, Spelled(body).entries, true)
  }

  lemma {:induction false} DrainsWhole(s: Store, asked: seq<Id>, depth: nat, f: Flow)
    requires depth + Nesting(f) <= MAX_BLOCK_NESTING
    ensures Drain(s, asked, depth, f).Ok?
    decreases f
  {
    match f
    case Nil =>
    case Bytes(_, r) => DrainsWhole(s, asked, depth, r);
    case Block(id, _, body, r) =>
      var asked' := if id in s then Ask(asked, id) else asked;
      DrainsWhole(s, asked', depth + 1, body);
      DrainsWhole(s, Drain(s, asked', depth + 1, body).value, depth, r);
  }

  /** What a stretch of a sendable stream does to a sound store. */
  ghost predicate Received(env: Environment, s: Store, w: Writer, f: Flow, p: Parsed) {
    && Extends(s, p.store) && Sound(env, p.store)
    && Covered(p.store, p.writer.done)
    && FillWriter(p.writer, Contents(p.store)) == FillWriter(w, Contents(s)) + Content(f)
  }

  /**
    A stream of blocks that are what their ids name is read to its end, and what is left
    expands to its content, unless the pointer form of one of its blocks is refused.
    */
  lemma {:induction false} ParseReceives(host: Host, s: Store, asked: seq<Id>, depth: nat, w: Writer, f: Flow)
    requires Sound(host.env, s) && Injective(host.env.hash)
    requires Named(host.env, f) && depth + Nesting(f) <= MAX_BLOCK_NESTING
    requires Covered(s, w.done)
    ensures match Parse(host, s, asked, depth, w, f)
            case Ok(p) => Received(host.env, s, w, f, p) && (depth > 0 ==> p.absorbed == Content(f))
            case Err(e) => e.NoPointerForm? && e.block.Some? && Refused(host, f, e.block.value)
    decreases f
  {
    hide Sound, Injective, Covered, FillWriter, Drain, LocalCopy, Refused, Saved;
    match f
    case Nil =>
      assert FillWriter(w, Contents(s)) + [] == FillWriter(w, Contents(s));
    case Bytes(b, r) =>
      ParseReceives(host, s, asked, depth, Write(w, b), r);
      FillWrite(w, b, Contents(s));
      Safety.Assoc(FillWriter(w, Contents(s)), b, Content(r));
      RefusedInside(host, f);
    case Block(id, c, body, r) =>
      RefusedInside(host, f);
      if id in s {
        DrainsWhole(s, Ask(asked, id), depth + 1, body);
        var asked' := Drain(s, Ask(asked, id), depth + 1, body).value;
        HeldIsNamed(host, s, id, body, depth);
        Referenced(host.env, s, s, w, id, c, body);
        ParseReceives(host, s, asked', depth, Cut(w, id, c), r);
        Safety.Assoc(FillWriter(w, Contents(s)), Content(body), Content(r));
      } else {
        EmptyFills(s);
        ParseReceives(host, s, asked, depth + 1, EMPTY, body);
        var inside := Parse(host, s, asked, depth + 1, EMPTY, body);
        if inside.Ok? {
          ParseGathers(host, s, asked, depth + 1, EMPTY, body);
          SavedIsStored(host, s, id, c, w, body, r, inside.value);
          var saved := Saved(host, id, c, w, inside.value);
          if saved.Ok? {
            ParseReceives(host, saved.value.store, saved.value.asked, depth, saved.value.writer, r);
            Safety.Assoc(FillWriter(w, Contents(s)), Content(body), Content(r));
          }
        }
      }
  }

  /** A refusal further on, or inside a block, is a refusal of the whole. */
  lemma RefusedInside(host: Host, f: Flow)
    requires f.Bytes? || f.Block?
    ensures forall id :: Refused(host, f.rest, id) || (f.Block? && Refused(host, f.body, id)) ==> Refused(host, f, id)
  {
    hide Accepts, Spelled;
    assert forall id, b :: Occurs(f.rest, id, b) || (f.Block? && Occurs(f.body, id, b)) ==> Occurs(f, id, b);
  }

  lemma EmptyFills(s: Store)
    ensures FillWriter(EMPTY, Contents(s)) == [] && Covered(s, EMPTY.done)
  {
  }

  /** A held block expands to what the stream would have brought. */
  lemma HeldIsNamed(host: Host, s: Store, id: Id, body: Flow, depth: nat)
    requires Sound(host.env, s) && Injective(host.env.hash) && id in s && host.env.hash(Content(body)) == id
    ensures Whole(s, id) && Expansion(s, id) == Content(body)
    ensures LocalCopy(host, s, id, depth) == Ok(if depth == 0 then [] else Content(body))
  {
    hide ReadBlock, ItemBytes;
    Safety.HeldIsReadable(host.env, s, id);
  }

  /** A reference to a block that is there counts as the block's bytes. */
  lemma Referenced(env: Environment, s: Store, s': Store, w: Writer, id: Id, c: seq<nat>, body: Flow)
    requires Extends(s, s') && Covered(s, w.done) && Whole(s', id) && Expansion(s', id) == Content(body)
    ensures Covered(s', Cut(w, id, c).done)
    ensures FillWriter(Cut(w, id, c), Contents(s')) == FillWriter(w, Contents(s)) + Content(body)
  {
    Safety.FillCovered(s, s', w.done);
    FillCut(w, id, c, Contents(s'));
  }

  lemma SavedIsStored(host: Host, s: Store, id: Id, c: seq<nat>, w: Writer, body: Flow, rest: Flow, p: Parsed)
    requires Received(host.env, s, EMPTY, body, p) && p.absorbed == Content(body)
    requires FillWriter(EMPTY, Contents(s)) == []
    requires p.writer == Gather(EMPTY, body)
    requires host.env.hash(Content(body)) == id && Injective(host.env.hash)
    requires Covered(s, w.done)
    ensures match Saved(host, id, c, w, p)
            case Ok(q) =>
              && q.absorbed == Content(body)
              && Extends(s, q.store) && Sound(host.env, q.store)
              && Covered(q.store, q.writer.done)
              && FillWriter(q.writer, Contents(q.store)) == FillWriter(w, Contents(s)) + Content(body)
            case Err(e) => e == NoPointerForm(Some(id)) && Refused(host, Block(id, c, body, rest), id)
  {
    hide Close, Gather, FillWriter, Covered, Sound, Publish;
    if p.writer.done != [] && !host.accepts(p.store, Close(p.writer), true) {
      CloseCovered(p.store, p.writer);
      assert Spelled(body) == Dir(Close(p.writer));
      assert Occurs(Block(id, c, body, rest), id, body);
    } else {
      StoredSound(host, s, id, body, p);
      Referenced(host.env, s, Publish(p.store, id, StoredForm(p.writer)), w, id, c, body);
    }
  }

  lemma CloseCovered(s: Store, w: Writer)
    requires Covered(s, w.done)
    ensures Covered(s, Close(w))
  {
  }

  lemma StoredSound(host: Host, s: Store, id: Id, body: Flow, p: Parsed)
    requires Received(host.env, s, EMPTY, body, p) && FillWriter(EMPTY, Contents(s)) == []
    requires host.env.hash(Content(body)) == id && Injective(host.env.hash)
    ensures var s' := Publish(p.store, id, StoredForm(p.writer));
      Extends(s, s') && Sound(host.env, s') && Whole(s', id) && Expansion(s', id) == Content(body)
  {
    hide StoredForm, Close, FillWriter, Covered, Sound;
    assert [] + Content(body) == Content(body);
    if id in p.store {
      SoundNames(host.env, p.store, id);
    } else {
      Safety.PublishKeeps(p.store, id, p.writer);
      Safety.SoundGrows(host.env, p.store, Publish(p.store, id, StoredForm(p.writer)), id);
    }
  }

  lemma SoundNames(env: Environment, s: Store, id: Id)
    requires Sound(env, s) && id in s
    ensures Whole(s, id) && env.hash(Expansion(s, id)) == id
  {
  }

  // ----------------------------------------------------------- the sender's stream

  lemma {:induction false} ChunkFlowGathers(w: Writer, data: seq<bytes>, rest: Flow)
    ensures Gather(w, ChunkFlow(data, rest)) == Gather(Write(w, Join(data)), rest)
    decreases |data|
  {
    if data == [] {
      assert w.open + [] == w.open;
    } else {
      ChunkFlowGathers(Write(w, data[0]), data[1..], rest);
      Safety.Assoc(w.open, data[0], Join(data[1..]));
    }
  }

  /** A part, and the block after it. */
  lemma PartGathers(w: Writer, b: bytes, r: Flow, depth: nat, limit: nat)
    requires w.open == []
    ensures var all := Gather(w, Frame(Bytes(b, r), depth, limit)); var wrote := Write(w, b);
      && wrote == Writer(w.done, b)
      && (r == Nil ==> all == wrote)
      && (r.Block? ==> all == Gather(Cut(wrote, r.id, r.chain), Frame(r.rest, depth, limit)))
  {
    hide Chunks, Flat;
    ChunkFlowGathers(w, Chunks(b), Frame(r, depth, limit));
    assert [] + b == b;
  }

  /** Chunked, framed and gathered again, a directory is itself. */
  lemma {:induction false} FrameGathers(s: Store, es: Directory, f: Flow, depth: nat, limit: nat, w: Writer)
    requires Realizes(s, es, f) && Alternates(es) && w.open == []
    ensures Close(Gather(w, Frame(f, depth, limit))) == w.done + es
    decreases |es|
  {
    hide Frame, Gather;
    var b, r := f.data, f.rest;
    PartGathers(w, b, r, depth, limit);
    if |es| == 1 {
      assert r == Nil && es == [Part(b)];
    } else {
      var w' := Cut(Write(w, b), r.id, r.chain);
      FrameGathers(s, es[2..], r.rest, depth, limit, w');
      assert es[1..][1..] == es[2..];
      assert es == [Part(b), Ref(r.id, r.chain)] + es[2..];
      assert w'.done + es[2..] == w.done + es;
    }
  }

  lemma {:induction false} FlatHasNoBlocks(f: Flow, g: Flow)
    ensures Nesting(Concat(Flat(f), g)) == Nesting(g)
    ensures forall open :: Proper(g, open) ==> Proper(Concat(Flat(f), g), open)
    ensures forall env :: Named(env, g) ==> Named(env, Concat(Flat(f), g))
  {
    match f
    case Nil =>
    case Bytes(b, r) =>
      FlatHasNoBlocks(r, g);
      ChunksHaveNoBlocks(Chunks(b), Concat(Flat(r), g));
      ChunkFlowConcat(Chunks(b), Flat(r), g);
    case Block(_, _, body, r) =>
      FlatHasNoBlocks(r, g);
      FlatHasNoBlocks(body, Concat(Flat(r), g));
      ConcatAssoc(Flat(body), Flat(r), g);
  }

  lemma {:induction false} ChunkFlowConcat(data: seq<bytes>, f: Flow, g: Flow)
    ensures Concat(ChunkFlow(data, f), g) == ChunkFlow(data, Concat(f, g))
  {
    if data != [] { ChunkFlowConcat(data[1..], f, g); }
  }

  lemma {:induction false} ConcatAssoc(f: Flow, g: Flow, h: Flow)
    ensures Concat(Concat(f, g), h) == Concat(f, Concat(g, h))
  {
    match f
    case Nil =>
    case Bytes(_, r) => ConcatAssoc(r, g, h);
    case Block(_, _, _, r) => ConcatAssoc(r, g, h);
  }

  lemma {:induction false} ChunksHaveNoBlocks(data: seq<bytes>, g: Flow)
    ensures Nesting(ChunkFlow(data, g)) == Nesting(g)
    ensures forall open :: Proper(g, open) ==> Proper(ChunkFlow(data, g), open)
    ensures forall env :: Named(env, g) ==> Named(env, ChunkFlow(data, g))
  {
    if data != [] { ChunksHaveNoBlocks(data[1..], g); }
  }

  lemma {:induction false} ConcatNil(f: Flow)
    ensures Concat(f, Nil) == f
  {
    match f
    case Nil =>
    case Bytes(_, r) => ConcatNil(r);
    case Block(_, _, _, r) => ConcatNil(r);
  }

  lemma FlatIsPlain(f: Flow, env: Environment, open: seq<Id>)
    ensures Nesting(Flat(f)) == 0 && Proper(Flat(f), open) && Named(env, Flat(f))
  {
    FlatHasNoBlocks(f, Nil);
    ConcatNil(Flat(f));
    assert Proper(Nil, open) && Named(env, Nil);
  }

  /** Framing nests no deeper than the framing depth, nor than the object. */
  lemma {:induction false} FrameNests(f: Flow, depth: nat, limit: nat)
    ensures Nesting(Frame(f, depth, limit)) <= Nesting(f)
    ensures Nesting(Frame(f, depth, limit)) <= 1 + (if depth < limit then limit - depth else 0)
  {
    match f
    case Nil =>
    case Bytes(b, r) =>
      FrameNests(r, depth, limit);
      ChunksHaveNoBlocks(Chunks(b), Frame(r, depth, limit));
    case Block(_, _, body, r) =>
      FrameNests(r, depth, limit);
      FrameNests(body, depth + 1, limit);
      FlatHasNoBlocks(body, Nil);
      ConcatNil(Flat(body));
  }

  /** A stored block never occurs inside itself. */
  lemma {:induction false} UnfoldingIsProper(s: Store, es: Directory, f: Flow, open: seq<Id>)
    requires Realizes(s, es, f)
    requires forall x <- open :: exists g :: Unfolds(s, x, g) && Size(f) <= Size(g)
    ensures Proper(f, open)
    decreases f
  {
    match f
    case Nil =>
    case Bytes(_, r) => UnfoldingIsProper(s, es[1..], r, open);
    case Block(id, _, body, r) =>
      UnfoldingIsProper(s, es[1..], r, open);
      if id in open {
        var g :| Unfolds(s, id, g) && Size(f) <= Size(g);
        RealizesUnique(s, EntriesOf(s[id]), g, body);
      }
      assert Unfolds(s, id, body);
      UnfoldingIsProper(s, EntriesOf(s[id]), body, open + [id]);
  }

  lemma {:induction false} FrameIsProper(f: Flow, depth: nat, limit: nat, open: seq<Id>)
    requires Proper(f, open)
    ensures Proper(Frame(f, depth, limit), open)
    decreases f
  {
    match f
    case Nil =>
    case Bytes(b, r) =>
      FrameIsProper(r, depth, limit, open);
      ChunksHaveNoBlocks(Chunks(b), Frame(r, depth, limit));
    case Block(id, _, body, r) =>
      FrameIsProper(r, depth, limit, open);
      FrameIsProper(body, depth + 1, limit, open + [id]);
      FlatHasNoBlocks(body, Nil);
      ConcatNil(Flat(body));
      assert Proper(Nil, open + [id]);
  }

  /** In a sound store every framed block is what its id names. */
  lemma {:induction false} FrameIsNamed(env: Environment, s: Store, es: Directory, f: Flow, depth: nat, limit: nat)
    requires Sound(env, s) && Realizes(s, es, f)
    ensures Named(env, Frame(f, depth, limit))
    decreases f
  {
    hide Sound;
    match f
    case Nil =>
    case Bytes(b, r) =>
      FrameIsNamed(env, s, es[1..], r, depth, limit);
      ChunksHaveNoBlocks(Chunks(b), Frame(r, depth, limit));
    case Block(id, _, body, r) =>
      FrameIsNamed(env, s, es[1..], r, depth, limit);
      FrameIsNamed(env, s, EntriesOf(s[id]), body, depth + 1, limit);
      FlatIsPlain(body, env, []);
      ExpansionIs(s, id, body);
      SoundNames(env, s, id);
      FrameContent(body, depth + 1, limit);
      FlatContent(body);
  }

  /** Where a nested block is framed, what it spells is the sender's own stored form. */
  lemma FramedSpellsStored(s: Store, id: Id, body: Flow, depth: nat, limit: nat)
    requires Unfolds(s, id, body)
    requires s[id].Dir? ==> Alternates(s[id].entries) && |s[id].entries| > 1
    ensures Spelled(Frame(body, depth, limit)) == s[id]
  {
    var es := EntriesOf(s[id]);
    FrameGathers(s, es, body, depth, limit, EMPTY);
    var w := Gather(EMPTY, Frame(body, depth, limit));
    assert [] + es == es;
    assert Close(w) == es;
    if w.done == [] {
      assert es == [Part(w.open)];
    } else {
      assert |es| > 1;
    }
  }

  /** Multiblock directories as the library writes them. */
  predicate WellKept(s: Store) {
    forall id <- s :: s[id].Dir? ==> Alternates(s[id].entries) && |s[id].entries| > 1
  }

  lemma {:induction false} FlatGathers(f: Flow, g: Flow, w: Writer)
    ensures Gather(w, Concat(Flat(f), g)) == Gather(Write(w, Content(f)), g)
    decreases f
  {
    match f
    case Nil => assert w.open + [] == w.open;
    case Bytes(b, r) =>
      ChunkFlowConcat(Chunks(b), Flat(r), g);
      ChunkFlowGathers(w, Chunks(b), Concat(Flat(r), g));
      FlatGathers(r, g, Write(w, b));
      Safety.Assoc(w.open, b, Content(r));
    case Block(_, _, body, r) =>
      ConcatAssoc(Flat(body), Flat(r), g);
      FlatGathers(body, Concat(Flat(r), g), w);
      FlatGathers(r, g, Write(w, Content(body)));
      Safety.Assoc(w.open, Content(body), Content(r));
  }

  /** An unframed block spells one flat file. */
  lemma FlatSpellsFile(f: Flow)
    ensures Spelled(Flat(f)) == File(Content(f))
  {
    FlatGathers(f, Nil, EMPTY);
    ConcatNil(Flat(f));
    assert [] + Content(f) == Content(f);
  }

  lemma {:induction false} ChunksOccur(data: seq<bytes>, rest: Flow, id: Id, b: Flow)
    ensures Occurs(ChunkFlow(data, rest), id, b) == Occurs(rest, id, b)
  {
    if data != [] { ChunksOccur(data[1..], rest, id, b); }
  }

  lemma {:induction false} FlatOccurs(f: Flow, g: Flow, id: Id, b: Flow)
    ensures Occurs(Concat(Flat(f), g), id, b) == Occurs(g, id, b)
  {
    match f
    case Nil =>
    case Bytes(d, r) =>
      ChunkFlowConcat(Chunks(d), Flat(r), g);
      ChunksOccur(Chunks(d), Concat(Flat(r), g), id, b);
      FlatOccurs(r, g, id, b);
    case Block(_, _, body, r) =>
      ConcatAssoc(Flat(body), Flat(r), g);
      FlatOccurs(body, Concat(Flat(r), g), id, b);
      FlatOccurs(r, g, id, b);
  }

  /**
    A framed block spells the sender's stored form, or one file of its expansion where the
    framing stops; it stops nowhere when the object nests no deeper than it frames.
    */
  ghost predicate InKind(sent: Store, id: Id, stored: Stored, whole: bool) {
    && id in sent
    && (stored == sent[id] || stored == File(Expansion(sent, id)))
    && (whole ==> stored == sent[id])
  }

  lemma {:induction false} FramedForms(sent: Store, es: Directory, f: Flow, depth: nat, limit: nat, id: Id, b: Flow)
    requires Realizes(sent, es, f) && WellKept(sent)
    requires Occurs(Frame(f, depth, limit), id, b)
    ensures InKind(sent, id, Spelled(b), depth + Nesting(f) <= limit + 1)
    decreases f
  {
    hide Spelled, Alternates;
    match f
    case Nil =>
    case Bytes(d, r) =>
      ChunksOccur(Chunks(d), Frame(r, depth, limit), id, b);
      FramedForms(sent, es[1..], r, depth, limit, id, b);
    case Block(x, c, body, r) =>
      var framed := if depth < limit then Frame(body, depth + 1, limit) else Flat(body);
      if x == id && framed == b {
        ExpansionIs(sent, id, body);
        if depth < limit {
          FramedSpellsStored(sent, id, body, depth + 1, limit);
        } else {
          FlatSpellsFile(body);
          if Nesting(body) == 0 { PlainIsFile(sent, id, body); }
        }
      } else if Occurs(framed, id, b) {
        FlatOccurs(body, Nil, id, b);
        ConcatNil(Flat(body));
        FramedForms(sent, EntriesOf(sent[x]), body, depth + 1, limit, id, b);
      } else {
        FramedForms(sent, es[1..], r, depth, limit, id, b);
      }
  }

  lemma BlocksNest(s: Store, es: Directory, f: Flow)
    requires Realizes(s, es, f) && Alternates(es) && |es| > 1
    ensures Nesting(f) > 0
  {
    var rest := f.rest;
    assert es[1..][0] == es[1];
    assert rest.Block?;
  }

  lemma PlainIsFile(s: Store, id: Id, body: Flow)
    requires Unfolds(s, id, body) && Nesting(body) == 0 && WellKept(s)
    ensures s[id] == File(Content(body))
  {
    match s[id]
    case File(b) =>
      assert [Part(b)][1..] == [];
      RealizesUnique(s, [Part(b)], body, Bytes(b, Nil));
      assert Content(Nil) == [] && b + [] == b;
    case Dir(es) => BlocksNest(s, es, body);
  }

  /** What the sender streams for an object of its store. */
  ghost predicate Streams(env: Environment, s: Store, es: Directory, f: Flow, items: seq<Item>) {
    && Realizes(s, es, f) && Alternates(es)
    && ReadDirectory(env, s, es, false, 1, {}) == Ok(items)
  }

  /** No pointer form on the way is refused. */
  ghost predicate Takes(host: Host, es: Directory, f: Flow) {
    (forall id :: !Refused(host, f, id)) && (|es| > 1 ==> Accepts(host, es, false))
  }

  /** The object arrived: the sender's own entries, over blocks that expand to the sender's. */
  ghost predicate Arrived(host: Host, sent: Store, es: Directory, held: Store, st: State) {
    && st.status == Finished
    && Close(st.top) == es
    && Extends(held, st.store) && Sound(host.env, st.store)
    && Covered(st.store, es)
    && Fill(es, Contents(st.store)) == Fill(es, Contents(sent))
  }

  /** The pointer form of a block, or of the object, was refused. */
  ghost predicate Refusal(host: Host, es: Directory, f: Flow, failure: Failure) {
    match failure
    case NoPointerForm(Some(id)) => Refused(host, f, id)
    case NoPointerForm(None) => |es| > 1 && !Accepts(host, es, false)
    case _ => false
  }

  /** The object arrived, or a pointer form was refused: nothing else can go wrong. */
  ghost predicate ArrivedUnlessRefused(host: Host, sent: Store, es: Directory, f: Flow, held: Store, st: State) {
    Arrived(host, sent, es, held, st) || (st.status.Failed? && Refusal(host, es, f, st.status.failure))
  }

  lemma TakesArrives(host: Host, sent: Store, es: Directory, f: Flow, held: Store, st: State)
    requires ArrivedUnlessRefused(host, sent, es, f, held, st) && Takes(host, es, f)
    ensures Arrived(host, sent, es, held, st)
  {
    hide Arrived, Refused, Accepts;
  }

  /** Every block that was not held is now, as the sender has it or as one file of its expansion. */
  ghost predicate KeptInKind(sent: Store, held: Store, after: Store, whole: bool) {
    forall id | id in after && id !in held :: InKind(sent, id, after[id], whole)
  }

  /** The state after a whole object, before the separator; what was asked for aside. */
  ghost predicate ObjectRead(host: Host, sent: Store, es: Directory, f: Flow, limit: nat, held: Store,
                             r: Result<Parsed, Failure>, st: State) {
    match r
    case Err(e) => st.status == Failed(e) && Refusal(host, es, Frame(f, 1, limit), e)
    case Ok(p) =>
      && st == Advance(Init(held, []), p).(asked := st.asked)
      && Received(host.env, held, EMPTY, Frame(f, 1, limit), p)
      && Close(p.writer) == es
      && (WellKept(sent) ==> KeptInKind(sent, held, p.store, Nesting(f) <= limit))
  }

  lemma ObjectIsParsed(env: Environment, host: Host, sent: Store, es: Directory, f: Flow, items: seq<Item>, held: Store)
    returns (r: Result<Parsed, Failure>)
    requires env.hash == host.env.hash && Injective(env.hash)
    requires Sound(env, sent) && Sound(host.env, held)
    requires Streams(env, sent, es, f, items) && Nesting(Frame(f, 1, env.blockDepth)) <= MAX_BLOCK_NESTING
    ensures ObjectRead(host, sent, es, f, env.blockDepth, held, r, RunItems(host, Init(held, []), items))
  {
    hide Sound, Injective, Covered, FillWriter, Advance, KeptInKind, Spelled, WellKept, Alternates, Refused, Nesting, Parse;
    var framed := Frame(f, 1, env.blockDepth);
    var st := Init(held, []);
    ApartNone(f);
    Safety.SoundIsIntact(env, sent, es, f);
    ReadsDirectory(env, sent, es, f, false, 1, {});
    UnfoldingIsProper(sent, es, f, []);
    FrameIsProper(f, 1, env.blockDepth, []);
    Descends(host, st, framed);
    FrameIsNamed(env, sent, es, f, 1, env.blockDepth);
    SameNames(env, host.env, framed);
    EmptyFills(held);
    ParseReceives(host, held, [], 0, EMPTY, framed);
    r := Parse(host, held, [], 0, EMPTY, framed);
    if r.Ok? {
      ParseGathers(host, held, [], 0, EMPTY, framed);
      FrameGathers(sent, es, f, 1, env.blockDepth, EMPTY);
      assert [] + es == es;
      if WellKept(sent) { ParseKeepsKind(host, sent, es, f, env.blockDepth, held); }
    }
  }

  lemma ParseKeepsKind(host: Host, sent: Store, es: Directory, f: Flow, limit: nat, held: Store)
    requires Realizes(sent, es, f) && WellKept(sent)
    requires Parse(host, held, [], 0, EMPTY, Frame(f, 1, limit)).Ok?
    ensures KeptInKind(sent, held, Parse(host, held, [], 0, EMPTY, Frame(f, 1, limit)).value.store, Nesting(f) <= limit)
  {
    hide InKind, Spelled, Parse, Alternates, Nesting, WellKept;
    var framed := Frame(f, 1, limit);
    var p := Parse(host, held, [], 0, EMPTY, framed).value;
    ParseStores(host, held, [], 0, EMPTY, framed);
    forall id | id in p.store && id !in held
      ensures InKind(sent, id, p.store[id], Nesting(f) <= limit)
    {
      var body :| Occurs(framed, id, body) && p.store[id] == Spelled(body);
      FramedForms(sent, es, f, 1, limit, id, body);
    }
  }

  lemma {:induction false} SameNames(a: Environment, b: Environment, f: Flow)
    requires a.hash == b.hash && Named(a, f)
    ensures Named(b, f)
  {
    match f
    case Nil =>
    case Bytes(_, r) => SameNames(a, b, r);
    case Block(_, _, body, r) => SameNames(a, b, body); SameNames(a, b, r);
  }

  /**
    The round trip: an object of a sound store, streamed with its blocks framed to any depth
    the receiver reads, arrives at any sound store as the same entries with the same bytes;
    only a pointer form the receiver cannot write stops it.
    */
  lemma RoundTrip(env: Environment, host: Host, sent: Store, es: Directory, f: Flow, items: seq<Item>, held: Store)
    requires env.hash == host.env.hash && Injective(env.hash)
    requires Sound(env, sent) && Sound(host.env, held)
    requires Streams(env, sent, es, f, items) && Nesting(Frame(f, 1, env.blockDepth)) <= MAX_BLOCK_NESTING
    ensures var framed := Frame(f, 1, env.blockDepth);
      var st := Take(host, RunItems(host, Init(held, []), items), SEPARATOR);
      && ArrivedUnlessRefused(host, sent, es, framed, held, st)
      && (Takes(host, es, framed) ==> Arrived(host, sent, es, held, st))
      && (WellKept(sent) && st.status == Finished ==> KeptInKind(sent, held, st.store, Nesting(f) <= env.blockDepth))
  {
    hide Sound, Injective, Alternates, ReadDirectory, Nesting, RunItems, Take, Received, Arrived, KeptInKind, WellKept,
        Refusal, Takes;
    var r := ObjectIsParsed(env, host, sent, es, f, items, held);
    ObjectEnds(env, host, sent, es, f, held, r, RunItems(host, Init(held, []), items));
  }

  /** The separator after the object. */
  lemma ObjectEnds(env: Environment, host: Host, sent: Store, es: Directory, f: Flow, held: Store,
                   r: Result<Parsed, Failure>, before: State)
    requires Realizes(sent, es, f) && ObjectRead(host, sent, es, f, env.blockDepth, held, r, before)
    ensures var framed := Frame(f, 1, env.blockDepth); var st := Take(host, before, SEPARATOR);
      && ArrivedUnlessRefused(host, sent, es, framed, held, st)
      && (Takes(host, es, framed) ==> Arrived(host, sent, es, held, st))
      && (WellKept(sent) && st.status == Finished ==> KeptInKind(sent, held, st.store, Nesting(f) <= env.blockDepth))
  {
    hide Sound, Nesting, Take, Received, KeptInKind, WellKept, Refused, Takes, Advance, Accepts;
    if r.Ok? { ParsedArrives(env, host, sent, es, f, held, r.value, before); } else { StoppedStays(host, before); }
    var st := Take(host, before, SEPARATOR);
    if Takes(host, es, Frame(f, 1, env.blockDepth)) {
      TakesArrives(host, sent, es, Frame(f, 1, env.blockDepth), held, st);
    }
  }

  lemma StoppedStays(host: Host, st: State)
    requires st.status != Running
    ensures Take(host, st, SEPARATOR) == st
  {
  }

  lemma ParsedArrives(env: Environment, host: Host, sent: Store, es: Directory, f: Flow, held: Store, p: Parsed, st: State)
    requires Realizes(sent, es, f)
    requires Received(host.env, held, EMPTY, Frame(f, 1, env.blockDepth), p) && Close(p.writer) == es
    requires st == Advance(Init(held, []), p).(asked := st.asked)
    ensures var after := Take(host, st, SEPARATOR);
      ArrivedUnlessRefused(host, sent, es, Frame(f, 1, env.blockDepth), held, after) && after.store == p.store
  {
    hide Sound, Refused;
    var after := Take(host, st, SEPARATOR);
    FrameContent(f, 1, env.blockDepth);
    FlowFills(sent, es, f);
    EmptyFills(held);
    FillClose(p.writer, Contents(p.store));
    CloseCovered(p.store, p.writer);
    assert [] + Content(f) == Content(f);
    assert |es| > 1 <==> p.writer.done != [];
    assert after == FinishObject(host, st.(levels := 0));
  }
}
