/** From a message at one node to the same message at another. */
module Journeys {
  import opened Bytes
  import opened Documents
  import opened Layouts
  import opened Messages
  import opened Stores
  import opened Reader
  import opened Receiver
  import opened Builder
  import opened Build
  import opened Collapse
  import opened RoundTrips
  import opened Acceptance
  import Transfers

  /** A message's directory, built where its blocks are. */
  lemma MessageLaysOut(env: Environment, s: Store, m: Message, blocks: seq<Id>, inherited: seq<bytes>)
    requires AllWhole(s, HoleIds(Expanded(env, s, m, blocks, inherited)))
    ensures var e := Expanded(env, s, m, blocks, inherited); LaysOut(s, DirectoryOf(e), e)
  {
    hide AllWhole, DirectoryOf;
    var ctx := ContextOf(env, blocks, inherited);
    DocHolds(m, ctx, Contents(s));
    FlipTwice(DocOf(m, ctx, Contents(s)));
  }

  /**
    A message's directory, once it has arrived, is collapsible where it arrived, and what
    collapsing it writes is the message's own serialization.
    */
  lemma ArrivedCollapses(env: Environment, host: Host, sent: Store, held: Store, st: State, m: Message, blocks: seq<Id>,
                         inherited: seq<bytes>, omitTypes: bool)
    requires env.hash == host.env.hash && env.hashType == host.env.hashType && Injective(env.hash)
    requires Sound(env, sent) && AllWhole(sent, HoleIds(Expanded(env, sent, m, blocks, inherited)))
    requires LibraryPointers(m, ContextOf(env, blocks, inherited), omitTypes)
    requires Arrived(host, sent, DirectoryOf(Expanded(env, sent, m, blocks, inherited)), held, st)
    ensures var e := Expanded(env, sent, m, blocks, inherited);
      && Collapsible(host.env, st.store, Close(st.top), omitTypes, e)
      && Text(Flip(e)) == Serialize(m)
  {
    hide Whole, Expansion, Text, Flip, DocOf, Lay, Sound, Injective, Expanded, LibraryPointers, DirectoryOf, Serialize, AllWhole;
    var e := Expanded(env, sent, m, blocks, inherited);
    MessageLaysOut(env, sent, m, blocks, inherited);
    CollapseUndoesExpand(env, sent, m, blocks, inherited, omitTypes);
    SoundByHash(env, host.env, sent);
    LaysOutThere(host.env, sent, st.store, DirectoryOf(e), e);
    SameWriting(env, host.env, omitTypes, e);
  }

  lemma {:induction false} SameWriting(a: Environment, b: Environment, omitTypes: bool, d: Doc)
    requires a.hashType == b.hashType && PointersWritten(a, omitTypes, d)
    ensures PointersWritten(b, omitTypes, d)
  {
    match d
    case End =>
    case Raw(_, r) => SameWriting(a, b, omitTypes, r);
    case Hole(_, _, _, _, r) => SameWriting(a, b, omitTypes, r);
    case Sub(_, i, r) => SameWriting(a, b, omitTypes, i); SameWriting(a, b, omitTypes, r);
  }

  /**
    Built at one node, sent through the skip filter with requests arriving whenever they do,
    saved with its pointer forms at another, and collapsed there: the message that comes out
    is the one that went in, and the receiver can send it on. The sender has to keep its
    store tidy; not even that when it frames one level of blocks, as it does by default.
    */
  lemma MessageTravels(env: Environment, host: Host, sent: Store, held: Store, m: Message, blocks: seq<Id>,
                       inherited: seq<bytes>, omitTypes: bool, f: Flow, items: seq<Item>, ws: seq<Transfers.World>)
    requires env.hash == host.env.hash && env.hashType == host.env.hashType && Injective(env.hash)
    requires Sound(env, sent) && Sound(host.env, held) && WritesPointerForms(host)
    requires AllWhole(sent, HoleIds(Expanded(env, sent, m, blocks, inherited)))
    requires LibraryPointers(m, ContextOf(env, blocks, inherited), omitTypes)
    requires Streams(env, sent, DirectoryOf(Expanded(env, sent, m, blocks, inherited)), f, items)
    requires Nesting(Frame(f, 1, env.blockDepth)) <= MAX_BLOCK_NESTING
    requires env.blockDepth > 1 ==> Tidy(sent)
    requires Transfers.History(host, items, held, ws) && Transfers.Complete(ws[|ws| - 1])
    ensures var e := Expanded(env, sent, m, blocks, inherited);
      var st := Take(host, ws[|ws| - 1].receiver, SEPARATOR);
      && Arrived(host, sent, DirectoryOf(e), held, st)
      && Collapsible(host.env, st.store, Close(st.top), omitTypes, e)
      && Text(Flip(e)) == Serialize(m)
      && (Tidy(sent) && Tidy(held) ==> Tidy(st.store))
  {
    hide Sound, Transfers.Moves, Collapsible, Alternates, ReadDirectory, Take, Expanded, LibraryPointers, Tidy,
        FramesCanonical, Nesting, Injective,
        WritesPointerForms, Arrived, ArrivedUnlessRefused, LaysOut, DirectoryOf, Frame, WellKept, KeptInKind, Takes, AllWhole,
        Transfers.Complete, Text, Flip, Serialize;
    var es := DirectoryOf(Expanded(env, sent, m, blocks, inherited));
    MessageLaysOut(env, sent, m, blocks, inherited);
    assert Canonical(sent, es);
    if env.blockDepth <= 1 {
      ShallowFramesCanonical(sent, f, env.blockDepth);
    } else {
      StoreFramesCanonical(sent, es, f, env.blockDepth);
    }
    TakesCanonical(env, host, sent, es, Frame(f, 1, env.blockDepth));
    Transfers.EndToEnd(env, host, sent, es, f, items, held, ws);
    var st := Take(host, ws[|ws| - 1].receiver, SEPARATOR);
    ArrivedCollapses(env, host, sent, held, st, m, blocks, inherited, omitTypes);
    if Tidy(sent) && Tidy(held) {
      ArrivedStays(env, host, sent, es, held, st, Nesting(f) <= env.blockDepth);
    }
  }

  lemma ArrivedStays(env: Environment, host: Host, sent: Store, es: Directory, held: Store, st: State, whole: bool)
    requires env.hash == host.env.hash && Injective(env.hash) && Sound(env, sent)
    requires Arrived(host, sent, es, held, st) && Tidy(sent) && Tidy(held)
    requires WellKept(sent) && st.status == Finished ==> KeptInKind(sent, held, st.store, whole)
    ensures Tidy(st.store)
  {
    hide Sound, AllCanonical, KeptInKind, WellKept, Injective, Covered;
    SoundByHash(env, host.env, sent);
    StaysTidy(host.env, sent, held, st.store, whole);
  }
}
