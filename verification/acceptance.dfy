/** When a receiver can write the pointer form of what it is sent. */
module Acceptance {
  import opened Bytes
  import opened Varint
  import opened Documents
  import opened Layouts
  import opened LengthsTrees
  import opened Stores
  import opened Reader
  import opened Receiver
  import opened Builder
  import opened Collapse
  import opened Driver
  import opened RoundTrips

  /** The entries are the directory of a document over blocks that are there. */
  ghost predicate LaysOut(s: Store, es: Directory, d: Doc) {
    es == DirectoryOf(d) && Holds(d, Contents(s)) && AllWhole(s, HoleIds(d))
  }

  /** A directory as the builder makes them: every length varint in its shortest form. */
  ghost predicate Canonical(s: Store, es: Directory) {
    exists d :: LaysOut(s, es, d)
  }

  /** Every multiblock directory that is stored is one. */
  ghost predicate AllCanonical(s: Store) {
    forall id <- s | s[id].Dir? :: Canonical(s, s[id].entries)
  }

  /** A store that can be sent from, framed to any depth, to a receiver that writes pointer forms. */
  ghost predicate Tidy(s: Store) {
    WellKept(s) && AllCanonical(s)
  }

  // ------------------------------------------- canonical directories are collapsible

  /** The same document, to be filled with the pointers the library writes. */
  function Repointed(env: Environment, omitTypes: bool, d: Doc): Doc {
    match d
    case End => End
    case Raw(b, r) => Raw(b, Repointed(env, omitTypes, r))
    case Hole(t, id, h, _, r) => Hole(t, id, h, Written(env, omitTypes, id), Repointed(env, omitTypes, r))
    case Sub(t, i, r) => Sub(t, Repointed(env, omitTypes, i), Repointed(env, omitTypes, r))
  }

  lemma {:induction false} RepointedText(env: Environment, omitTypes: bool, d: Doc, content: Id -> bytes)
    ensures var d' := Repointed(env, omitTypes, d);
      && Text(d') == Text(d) && HoleIds(d') == HoleIds(d)
      && Holds(d', content) == Holds(d, content)
      && PointersWritten(env, omitTypes, d')
  {
    hide Encode, Written;
    match d
    case End =>
    case Raw(_, r) => RepointedText(env, omitTypes, r, content);
    case Hole(_, _, _, _, r) => RepointedText(env, omitTypes, r, content);
    case Sub(_, i, r) =>
      RepointedText(env, omitTypes, i, content);
      RepointedText(env, omitTypes, r, content);
  }

  lemma {:induction false} RepointedLays(env: Environment, omitTypes: bool, d: Doc, chain: seq<nat>, pos: nat, w: Writer,
                                         content: Id -> bytes)
    ensures Lay(Repointed(env, omitTypes, d), chain, pos, w) == Lay(d, chain, pos, w)
    decreases d
  {
    hide Encode, Written, Write, Cut;
    match d
    case End =>
    case Raw(b, r) => RepointedLays(env, omitTypes, r, chain, pos + |b|, Write(w, b), content);
    case Hole(t, id, h, _, r) =>
      var w' := Cut(Write(w, [t] + Encode(|h|)), id, chain + [pos + 1]);
      RepointedLays(env, omitTypes, r, chain, pos + RecordSize(|h|), w', content);
    case Sub(t, i, r) =>
      RepointedText(env, omitTypes, i, content);
      var w' := Write(w, [t] + Encode(|Text(i)|));
      RepointedLays(env, omitTypes, i, chain + [pos + 1], Inside(i, pos), w', content);
      RepointedLays(env, omitTypes, r, chain, pos + RecordSize(|Text(i)|), Lay(i, chain + [pos + 1], Inside(i, pos), w'),
                    content);
  }

  /** Canonical is what the driver needs, whichever form of pointer it is to write. */
  lemma CanonicalCollapses(env: Environment, s: Store, es: Directory, omitTypes: bool) returns (d: Doc)
    requires Canonical(s, es)
    ensures Collapsible(env, s, es, omitTypes, d)
  {
    var e :| LaysOut(s, es, e);
    d := Repointed(env, omitTypes, e);
    RepointedText(env, omitTypes, e, Contents(s));
    RepointedLays(env, omitTypes, e, [], 0, EMPTY, Contents(s));
  }

  /** The canonical directories are those the pointer form of which is proved right. */
  lemma CanonicalExactly(env: Environment, s: Store, es: Directory, omitTypes: bool)
    ensures Canonical(s, es) <==> exists d :: Collapsible(env, s, es, omitTypes, d)
  {
    hide Collapsible, LaysOut;
    if Canonical(s, es) { var d := CanonicalCollapses(env, s, es, omitTypes); }
    forall d | Collapsible(env, s, es, omitTypes, d) ensures LaysOut(s, es, d) {
      CollapsibleLaysOut(env, s, es, omitTypes, d);
    }
  }

  lemma CollapsibleLaysOut(env: Environment, s: Store, es: Directory, omitTypes: bool, d: Doc)
    requires Collapsible(env, s, es, omitTypes, d)
    ensures LaysOut(s, es, d)
  {
  }

  /** `generate_wbp_file` does not fail on a canonical directory. */
  method WritePointerForm(env: Environment, s: Store, es: Directory, inherited: Option<seq<bytes>>)
    returns (r: Result<bytes, DriverError>)
    ensures Canonical(s, es) ==>
      exists d :: Collapsible(env, s, es, inherited.Some?, d) && r == Ok(Text(Flip(d)))
    ensures r.Ok? ==> forall spot <- Refs(es) :: ValidChain(spot.chain)
  {
    hide Collapsible;
    ghost var d := End;
    if Canonical(s, es) { d := CanonicalCollapses(env, s, es, inherited.Some?); }
    r := GenerateWbpFile(env, s, es, inherited, d);
  }

  /**
    A receiver that writes pointer forms, by `generate_wbp_file`, or one with
    `skip_wbp_generation` set, which writes none and refuses nothing.
    */
  ghost predicate WritesPointerForms(host: Host) {
    forall s: Store, es, omitTypes: bool | Canonical(s, es) :: host.accepts(s, es, omitTypes)
  }

  // ------------------------------------------------------ canonical wherever it goes

  lemma {:induction false} HoldsAgree(d: Doc, a: Id -> bytes, b: Id -> bytes)
    requires Holds(d, a) && forall id <- HoleIds(d) :: a(id) == b(id)
    ensures Holds(d, b)
  {
    match d
    case End =>
    case Raw(_, r) => HoldsAgree(r, a, b);
    case Hole(_, _, _, _, r) => HoldsAgree(r, a, b);
    case Sub(_, i, r) => HoldsAgree(i, a, b); HoldsAgree(r, a, b);
  }

  /** Every block of a document is referenced from its directory. */
  lemma HolesAreReferenced(d: Doc, s: Store)
    requires Covered(s, DirectoryOf(d))
    ensures AllWhole(s, HoleIds(d))
  {
    DirectoryRefs(d);
    SpotIds(d, [], 0);
    forall id | id in HoleIds(d) ensures Whole(s, id) {
      RefsCovered(s, DirectoryOf(d), id);
    }
  }

  lemma {:induction false} RefsCovered(s: Store, es: Directory, id: Id)
    requires Covered(s, es) && id in IdsOf(Refs(es))
    ensures Whole(s, id)
  {
    if es != [] {
      assert es == [es[0]] + es[1..];
      if es[0].Ref? {
        assert Refs(es) == [Spot(es[0].id, es[0].chain)] + Refs(es[1..]);
        IdsAppend([Spot(es[0].id, es[0].chain)], Refs(es[1..]));
        if id in IdsOf(Refs(es[1..])) { RefsCovered(s, es[1..], id); }
      } else {
        assert Refs(es) == [] + Refs(es[1..]) == Refs(es[1..]);
        RefsCovered(s, es[1..], id);
      }
    }
  }

  lemma SoundAgree(env: Environment, a: Store, b: Store, id: Id)
    requires Sound(env, a) && Sound(env, b) && Injective(env.hash) && Whole(a, id) && Whole(b, id)
    ensures Expansion(a, id) == Expansion(b, id)
  {
    hide Expansion;
    WholeIsStored(a, id);
    WholeIsStored(b, id);
    SoundNames(env, a, id);
    SoundNames(env, b, id);
  }

  /** What a document lays out at one node, it lays out at any that has the blocks. */
  lemma LaysOutThere(env: Environment, sent: Store, s: Store, es: Directory, d: Doc)
    requires Sound(env, sent) && Sound(env, s) && Injective(env.hash)
    requires LaysOut(sent, es, d) && Covered(s, es)
    ensures LaysOut(s, es, d)
  {
    hide Sound, Injective, Whole, Expansion, DirectoryOf;
    HolesAreReferenced(d, s);
    forall id | id in HoleIds(d) ensures Contents(sent)(id) == Contents(s)(id) { SoundAgree(env, sent, s, id); }
    HoldsAgree(d, Contents(sent), Contents(s));
  }

  lemma CanonicalThere(env: Environment, sent: Store, s: Store, es: Directory)
    requires Sound(env, sent) && Sound(env, s) && Injective(env.hash)
    requires Canonical(sent, es) && Covered(s, es)
    ensures Canonical(s, es)
  {
    hide LaysOut;
    var d :| LaysOut(sent, es, d);
    LaysOutThere(env, sent, s, es, d);
  }

  /** Every block framed with blocks in it is canonical at the sender. */
  ghost predicate FramesCanonical(sent: Store, f: Flow) {
    forall id, body | Occurs(f, id, body) && Spelled(body).Dir? :: Canonical(sent, Spelled(body).entries)
  }

  lemma AcceptsCanonical(host: Host, sent: Store, es: Directory, omitTypes: bool)
    requires Sound(host.env, sent) && Injective(host.env.hash) && WritesPointerForms(host) && Canonical(sent, es)
    ensures Accepts(host, es, omitTypes)
  {
    hide Sound, Covered, Canonical;
    forall s: Store | Sound(host.env, s) && Covered(s, es) ensures host.accepts(s, es, omitTypes) {
      CanonicalThere(host.env, sent, s, es);
    }
  }

  lemma SoundByHash(a: Environment, b: Environment, s: Store)
    requires a.hash == b.hash && Sound(a, s)
    ensures Sound(b, s)
  {
  }

  /** A receiver that writes pointer forms takes any object that is canonical at its sender. */
  lemma TakesCanonical(env: Environment, host: Host, sent: Store, es: Directory, f: Flow)
    requires env.hash == host.env.hash && Injective(env.hash) && Sound(env, sent) && WritesPointerForms(host)
    requires FramesCanonical(sent, f) && (|es| > 1 ==> Canonical(sent, es))
    ensures Takes(host, es, f)
  {
    hide Sound, Accepts, Canonical, WritesPointerForms, Injective, Spelled;
    SoundByHash(env, host.env, sent);
    if |es| > 1 { AcceptsCanonical(host, sent, es, false); }
    forall id, body | Occurs(f, id, body) && Spelled(body).Dir? ensures Accepts(host, Spelled(body).entries, true) {
      AcceptsCanonical(host, sent, Spelled(body).entries, true);
    }
  }

  // ------------------------------------------------------- what a sender can check

  /** All it has stored is as the library keeps it. */
  lemma StoreFramesCanonical(sent: Store, es: Directory, f: Flow, limit: nat)
    requires Realizes(sent, es, f) && Tidy(sent)
    ensures FramesCanonical(sent, Frame(f, 1, limit))
  {
    hide Canonical, Spelled, WellKept, Nesting;
    forall id, body | Occurs(Frame(f, 1, limit), id, body) && Spelled(body).Dir?
      ensures Canonical(sent, Spelled(body).entries)
    {
      FramedForms(sent, es, f, 1, limit, id, body);
    }
  }

  /** Or it frames no block inside another, which is the default. */
  lemma ShallowFramesCanonical(sent: Store, f: Flow, limit: nat)
    requires limit <= 1
    ensures FramesCanonical(sent, Frame(f, 1, limit))
  {
    hide Canonical, Spelled;
    forall id, body | Occurs(Frame(f, 1, limit), id, body) ensures Spelled(body).File? {
      ShallowSpells(f, limit, id, body);
    }
  }

  lemma {:induction false} ShallowSpells(f: Flow, limit: nat, id: Id, body: Flow)
    requires limit <= 1 && Occurs(Frame(f, 1, limit), id, body)
    ensures Spelled(body).File?
    decreases f
  {
    hide Spelled;
    match f
    case Nil =>
    case Bytes(b, r) =>
      ChunksOccur(Chunks(b), Frame(r, 1, limit), id, body);
      ShallowSpells(r, limit, id, body);
    case Block(x, c, inside, r) =>
      if x == id && Flat(inside) == body {
        FlatSpellsFile(inside);
      } else {
        FlatOccurs(inside, Nil, id, body);
        ConcatNil(Flat(inside));
        ShallowSpells(r, limit, id, body);
      }
  }

  /** Relaying: a tidy store that receives from a tidy one is tidy still. */
  lemma StaysTidy(env: Environment, sent: Store, held: Store, after: Store, whole: bool)
    requires Sound(env, sent) && Sound(env, after) && Injective(env.hash) && Extends(held, after)
    requires Tidy(sent) && Tidy(held) && KeptInKind(sent, held, after, whole)
    ensures Tidy(after)
  {
    hide Sound, Injective, Canonical, KeptInKind, Alternates;
    forall id | id in after && after[id].Dir?
      ensures Canonical(after, after[id].entries) && Alternates(after[id].entries) && |after[id].entries| > 1
    {
      StoredIsCovered(env, after, id);
      if id in held {
        CanonicalGrows(held, after, after[id].entries);
      } else {
        KeptAsSent(sent, held, after, whole, id);
        CanonicalThere(env, sent, after, after[id].entries);
      }
    }
  }

  lemma KeptAsSent(sent: Store, held: Store, after: Store, whole: bool, id: Id)
    requires KeptInKind(sent, held, after, whole) && id in after && id !in held && after[id].Dir?
    ensures id in sent && sent[id] == after[id]
  {
    assert InKind(sent, id, after[id], whole);
  }

  lemma StoredIsCovered(env: Environment, s: Store, id: Id)
    requires Sound(env, s) && id in s && s[id].Dir?
    ensures Covered(s, s[id].entries)
  {
    var f :| Unfolds(s, id, f);
    RealizesCovers(s, s[id].entries, f);
  }

  lemma CanonicalGrows(s: Store, s': Store, es: Directory)
    requires Extends(s, s') && Canonical(s, es)
    ensures Canonical(s', es)
  {
    hide Whole, Expansion, DirectoryOf, Extends;
    var d :| LaysOut(s, es, d);
    forall id | id in HoleIds(d) ensures Whole(s', id) && Contents(s')(id) == Contents(s)(id) { ExpansionGrows(s, s', id); }
    HoldsAgree(d, Contents(s), Contents(s'));
    assert LaysOut(s', es, d);
  }
}
