/**
  Multiblock directories: the parts of an expanded object, and the blocks between
  them, each with its pointer chain.
  */
module Layouts {
  import opened Bytes
  import opened Varint
  import opened Documents

  /** One entry of `_.json`: a part, with the content of its file, or a block reference. */
  datatype Entry = Part(content: bytes) | Ref(id: Id, chain: seq<nat>)

  type Directory = seq<Entry>

  /** A directory being written: its finished entries and the part still open. */
  datatype Writer = Writer(done: Directory, open: bytes)

  function Write(w: Writer, b: bytes): Writer {
    w.(open := w.open + b)
  }

  function Cut(w: Writer, id: Id, chain: seq<nat>): Writer {
    Writer(w.done + [Part(w.open), Ref(id, chain)], [])
  }

  function Close(w: Writer): Directory {
    w.done + [Part(w.open)]
  }

  const EMPTY := Writer([], [])

  /**
    The directory of a document: its text cut at each hole, with the hole's chain.
    `chain` leads to where the document starts, `pos` is the position there.
    */
  function Lay(d: Doc, chain: seq<nat>, pos: nat, w: Writer): Writer {
    match d
    case End => w
    case Raw(b, r) => Lay(r, chain, pos + |b|, Write(w, b))
    case Hole(t, id, h, _, r) =>
      Lay(r, chain, pos + RecordSize(|h|), Cut(Write(w, [t] + Encode(|h|)), id, chain + [pos + 1]))
    case Sub(t, i, r) =>
      var inside := Lay(i, chain + [pos + 1], Inside(i, pos), Write(w, [t] + Encode(|Text(i)|)));
      Lay(r, chain, pos + RecordSize(|Text(i)|), inside)
  }

  /** The directory a document makes. */
  function DirectoryOf(d: Doc): Directory {
    Close(Lay(d, [], 0, EMPTY))
  }

  // ----------------------------------------------------------------- expansion

  /** The stream of a directory, given what each block expands to. */
  function Fill(es: Directory, content: Id -> bytes): bytes {
    if es == [] then []
    else (if es[0].Part? then es[0].content else content(es[0].id)) + Fill(es[1..], content)
  }

  lemma {:induction false} FillAppend(a: Directory, b: Directory, content: Id -> bytes)
    ensures Fill(a + b, content) == Fill(a, content) + Fill(b, content)
  {
    if a == [] {
      assert a + b == b;
    } else {
      assert (a + b)[1..] == a[1..] + b;
      FillAppend(a[1..], b, content);
    }
  }

  function FillWriter(w: Writer, content: Id -> bytes): bytes {
    Fill(w.done, content) + w.open
  }

  lemma FillWrite(w: Writer, b: bytes, content: Id -> bytes)
    ensures FillWriter(Write(w, b), content) == FillWriter(w, content) + b
  {
  }

  lemma FillCut(w: Writer, id: Id, chain: seq<nat>, content: Id -> bytes)
    ensures FillWriter(Cut(w, id, chain), content) == FillWriter(w, content) + content(id)
  {
    var part, ref := [Part(w.open)], [Ref(id, chain)];
    FillAppend(w.done, part + ref, content);
    FillAppend(part, ref, content);
    assert part[1..] == [] && ref[1..] == [];
    assert Fill(part, content) == w.open && Fill(ref, content) == content(id);
    assert part + ref == [Part(w.open), Ref(id, chain)];
  }

  lemma FillClose(w: Writer, content: Id -> bytes)
    ensures Fill(Close(w), content) == FillWriter(w, content)
  {
    FillAppend(w.done, [Part(w.open)], content);
    assert [Part(w.open)][1..] == [];
  }

  /** Every hole is filled with the content of its block. */
  predicate Holds(d: Doc, content: Id -> bytes) {
    match d
    case End => true
    case Raw(_, r) => Holds(r, content)
    case Hole(_, id, h, _, r) => h == content(id) && Holds(r, content)
    case Sub(_, i, r) => Holds(i, content) && Holds(r, content)
  }

  lemma {:induction false} FreezeHolds(d: Doc, pos: nat, key: nat, content: Id -> bytes)
    requires key in TreeOf(d, pos) && Holds(Flip(d), content)
    ensures Holds(Flip(Freeze(d, pos, key)), content) && Holds(Flip(Pick(d, pos, key)), content)
    decreases d
  {
    match d
    case Raw(b, r) => FreezeHolds(r, pos + |b|, key, content);
    case Hole(_, _, h, _, r) =>
      if key != pos + 1 { FreezeHolds(r, pos + RecordSize(|h|), key, content); }
    case Sub(_, i, r) =>
      if !(key == pos + 1 && Bearing(i)) { FreezeHolds(r, pos + RecordSize(|Text(i)|), key, content); }
  }

  lemma {:induction false} FreezeKeepsHolding(d: Doc, pos: nat, key: nat, content: Id -> bytes)
    requires key in TreeOf(d, pos) && Holds(d, content)
    ensures Holds(Freeze(d, pos, key), content) && Holds(Pick(d, pos, key), content)
    decreases d
  {
    hide Encode;
    match d
    case Raw(b, r) => FreezeKeepsHolding(r, pos + |b|, key, content);
    case Hole(_, _, h, _, r) =>
      if key != pos + 1 { FreezeKeepsHolding(r, pos + RecordSize(|h|), key, content); }
    case Sub(_, i, r) =>
      if !(key == pos + 1 && Bearing(i)) { FreezeKeepsHolding(r, pos + RecordSize(|Text(i)|), key, content); }
  }

  lemma {:induction false} LayFills(d: Doc, chain: seq<nat>, pos: nat, w: Writer, content: Id -> bytes)
    requires Holds(d, content)
    ensures FillWriter(Lay(d, chain, pos, w), content) == FillWriter(w, content) + Text(d)
  {
    hide Encode, FillWriter;
    var before := FillWriter(w, content);
    match d
    case End =>
    case Raw(b, r) =>
      FillWrite(w, b, content);
      LayFills(r, chain, pos + |b|, Write(w, b), content);
      Regroup(before, [], b, Text(r));
    case Hole(t, id, h, _, r) =>
      var head := [t] + Encode(|h|);
      var w' := Cut(Write(w, head), id, chain + [pos + 1]);
      FillWrite(w, head, content);
      FillCut(Write(w, head), id, chain + [pos + 1], content);
      LayFills(r, chain, pos + RecordSize(|h|), w', content);
      Regroup(before, head, h, Text(r));
    case Sub(t, i, r) =>
      var head := [t] + Encode(|Text(i)|);
      var w' := Lay(i, chain + [pos + 1], Inside(i, pos), Write(w, head));
      FillWrite(w, head, content);
      LayFills(i, chain + [pos + 1], Inside(i, pos), Write(w, head), content);
      LayFills(r, chain, pos + RecordSize(|Text(i)|), w', content);
      Regroup(before, head, Text(i), Text(r));
  }

  lemma Regroup(before: bytes, head: bytes, body: bytes, after: bytes)
    ensures ((before + head) + body) + after == before + ((head + body) + after)
    ensures head == [] ==> (before + body) + after == before + (body + after)
  {
  }

  /** The directory of a document expands to the document's text. */
  lemma DirectoryExpands(d: Doc, content: Id -> bytes)
    requires Holds(d, content)
    ensures Fill(DirectoryOf(d), content) == Text(d)
  {
    hide Lay, Text, Fill, Holds;
    EmptyFill(content);
    LayFills(d, [], 0, EMPTY, content);
    FillClose(Lay(d, [], 0, EMPTY), content);
    assert [] + Text(d) == Text(d);
  }

  /** Plain bytes are written as they are, wherever they stand. */
  lemma {:induction false} LayPlain(d: Doc, chain: seq<nat>, pos: nat, w: Writer)
    requires !Bearing(d)
    ensures Lay(d, chain, pos, w) == Write(w, Text(d))
  {
    hide Encode;
    match d
    case End =>
    case Raw(b, r) =>
      LayPlain(r, chain, pos + |b|, Write(w, b));
      Regroup(w.open, [], b, Text(r));
    case Sub(t, i, r) =>
      var w' := Write(w, [t] + Encode(|Text(i)|));
      LayPlain(i, chain + [pos + 1], Inside(i, pos), w');
      LayPlain(r, chain, pos + RecordSize(|Text(i)|), Write(w', Text(i)));
      Regroup(w.open, [t] + Encode(|Text(i)|), Text(i), Text(r));
  }

  // -------------------------------------------------------- parts and references

  /** A block occurrence: which block, and its chain. */
  datatype Spot = Spot(id: Id, chain: seq<nat>)

  function Parts(es: Directory): seq<bytes> {
    if es == [] then [] else (if es[0].Part? then [es[0].content] else []) + Parts(es[1..])
  }

  function Refs(es: Directory): seq<Spot> {
    if es == [] then [] else (if es[0].Ref? then [Spot(es[0].id, es[0].chain)] else []) + Refs(es[1..])
  }

  lemma FirstEntry(es: Directory)
    requires es != []
    ensures Parts(es) == (if es[0].Part? then [es[0].content] else []) + Parts(es[1..])
    ensures Refs(es) == (if es[0].Ref? then [Spot(es[0].id, es[0].chain)] else []) + Refs(es[1..])
  {
  }

  lemma {:induction false} PartsAppend(a: Directory, b: Directory)
    ensures Parts(a + b) == Parts(a) + Parts(b)
    ensures Refs(a + b) == Refs(a) + Refs(b)
  {
    if a == [] {
      assert a + b == b;
    } else {
      hide Parts, Refs;
      assert (a + b)[1..] == a[1..] + b;
      FirstEntry(a);
      FirstEntry(a + b);
      PartsAppend(a[1..], b);
    }
  }

  lemma CutParts(w: Writer, id: Id, chain: seq<nat>)
    ensures Parts(Cut(w, id, chain).done) == Parts(w.done) + [w.open]
    ensures Refs(Cut(w, id, chain).done) == Refs(w.done) + [Spot(id, chain)]
  {
    var part, ref := [Part(w.open)], [Ref(id, chain)];
    PartsAppend(w.done, part + ref);
    PartsAppend(part, ref);
    assert part[1..] == [] && ref[1..] == [];
    assert Parts(part) == [w.open] && Parts(ref) == [];
    assert part + ref == [Part(w.open), Ref(id, chain)];
  }

  /** Parts and blocks take turns, beginning and ending with a part. */
  predicate Alternates(es: Directory) {
    && |es| > 0
    && es[0].Part?
    && (|es| > 1 ==> es[1].Ref? && Alternates(es[2..]))
  }

  /** Writing the two lists out in turns, as `zip_longest` pairs them. */
  function Zip(parts: seq<bytes>, refs: seq<Spot>): Directory {
    (if parts == [] then [] else [Part(parts[0])]) +
    (if refs == [] then [] else [Ref(refs[0].id, refs[0].chain)]) +
    (if parts == [] && refs == [] then []
     else Zip(if parts == [] then [] else parts[1..], if refs == [] then [] else refs[1..]))
  }

  lemma TurnOfEntries(es: Directory)
    requires Alternates(es) && |es| > 1
    ensures es[0].Part? && Parts(es) == [es[0].content] + Parts(es[2..])
    ensures es[1].Ref? && Refs(es) == [Spot(es[1].id, es[1].chain)] + Refs(es[2..])
  {
    assert es[1..][1..] == es[2..] && es[1..][0] == es[1];
  }

  lemma {:induction false} ZipInverts(es: Directory)
    requires Alternates(es)
    ensures Zip(Parts(es), Refs(es)) == es
    ensures |Parts(es)| == |Refs(es)| + 1
  {
    if |es| == 1 {
      assert es[1..] == [];
      assert Zip([], []) == [];
    } else {
      var more := es[2..];
      ZipInverts(more);
      TurnOfEntries(es);
      hide Parts, Refs, Alternates;
      assert Parts(es)[1..] == Parts(more) && Refs(es)[1..] == Refs(more);
      assert es == [es[0]] + [es[1]] + more;
    }
  }

  /** Finished entries take turns and end with a block. */
  predicate Paired(es: Directory) {
    es == [] || (|es| > 1 && es[0].Part? && es[1].Ref? && Paired(es[2..]))
  }

  lemma {:induction false} PairedAppend(es: Directory, p: bytes, id: Id, chain: seq<nat>)
    requires Paired(es)
    ensures Paired(es + [Part(p), Ref(id, chain)])
    ensures Alternates(es + [Part(p)])
  {
    if es != [] {
      PairedAppend(es[2..], p, id, chain);
      assert (es + [Part(p), Ref(id, chain)])[2..] == es[2..] + [Part(p), Ref(id, chain)];
      assert (es + [Part(p)])[2..] == es[2..] + [Part(p)];
    } else {
      assert (es + [Part(p), Ref(id, chain)])[2..] == [];
    }
  }

  lemma {:induction false} LayPaired(d: Doc, chain: seq<nat>, pos: nat, w: Writer)
    requires Paired(w.done)
    ensures Paired(Lay(d, chain, pos, w).done)
  {
    match d
    case End =>
    case Raw(b, r) => LayPaired(r, chain, pos + |b|, Write(w, b));
    case Hole(t, id, h, _, r) =>
      var w' := Write(w, [t] + Encode(|h|));
      PairedAppend(w'.done, w'.open, id, chain + [pos + 1]);
      LayPaired(r, chain, pos + RecordSize(|h|), Cut(w', id, chain + [pos + 1]));
    case Sub(t, i, r) =>
      var w' := Write(w, [t] + Encode(|Text(i)|));
      LayPaired(i, chain + [pos + 1], Inside(i, pos), w');
      LayPaired(r, chain, pos + RecordSize(|Text(i)|), Lay(i, chain + [pos + 1], Inside(i, pos), w'));
  }

  /** A document's directory is a part, a block, a part, ..., a part. */
  lemma DirectoryAlternates(d: Doc)
    ensures Alternates(DirectoryOf(d))
  {
    LayPaired(d, [], 0, EMPTY);
    var w := Lay(d, [], 0, EMPTY);
    PairedAppend(w.done, w.open, [], []);
  }

  // ------------------------------------------------------------------ occurrences

  /** The block occurrences of a document, in stream order. */
  function Spots(d: Doc, prefix: seq<nat>, pos: nat): seq<Spot> {
    match d
    case End => []
    case Raw(b, r) => Spots(r, prefix, pos + |b|)
    case Hole(_, id, h, _, r) => [Spot(id, prefix + [pos + 1])] + Spots(r, prefix, pos + RecordSize(|h|))
    case Sub(_, i, r) => Spots(i, prefix + [pos + 1], Inside(i, pos)) + Spots(r, prefix, pos + RecordSize(|Text(i)|))
  }

  lemma {:induction false} LayRefs(d: Doc, chain: seq<nat>, pos: nat, w: Writer)
    ensures Refs(Lay(d, chain, pos, w).done) == Refs(w.done) + Spots(d, chain, pos)
  {
    hide Encode, Refs, Text, Cut;
    match d
    case End =>
    case Raw(b, r) => LayRefs(r, chain, pos + |b|, Write(w, b));
    case Hole(t, id, h, _, r) =>
      var w' := Write(w, [t] + Encode(|h|));
      CutParts(w', id, chain + [pos + 1]);
      LayRefs(r, chain, pos + RecordSize(|h|), Cut(w', id, chain + [pos + 1]));
    case Sub(t, i, r) =>
      var w' := Write(w, [t] + Encode(|Text(i)|));
      LayRefs(i, chain + [pos + 1], Inside(i, pos), w');
      LayRefs(r, chain, pos + RecordSize(|Text(i)|), Lay(i, chain + [pos + 1], Inside(i, pos), w'));
  }

  lemma DirectoryRefs(d: Doc)
    ensures Refs(DirectoryOf(d)) == Spots(d, [], 0)
  {
    var w := Lay(d, [], 0, EMPTY);
    LayRefs(d, [], 0, EMPTY);
    PartsAppend(w.done, [Part(w.open)]);
    assert [Part(w.open)][1..] == [];
    assert Refs([Part(w.open)]) == [];
  }

  /** The occurrences are exactly the chains that lead to a hole. */
  lemma {:induction false} SpotsSound(d: Doc, prefix: seq<nat>, pos: nat, s: Spot)
    requires s in Spots(d, prefix, pos)
    ensures prefix <= s.chain && IsSpot(d, pos, s.chain[|prefix|..], s.id)
  {
    match d
    case Raw(b, r) => SpotsSound(r, prefix, pos + |b|, s);
    case Hole(_, id, h, _, r) =>
      if s != Spot(id, prefix + [pos + 1]) { SpotsSound(r, prefix, pos + RecordSize(|h|), s); }
    case Sub(_, i, r) =>
      if s in Spots(i, prefix + [pos + 1], Inside(i, pos)) {
        SpotsSound(i, prefix + [pos + 1], Inside(i, pos), s);
        var c := s.chain[|prefix|..];
        assert c[1..] == s.chain[|prefix + [pos + 1]|..];
        assert c[0] == (prefix + [pos + 1])[|prefix|];
        SpotBounds(i, Inside(i, pos), c[1..], s.id);
      } else {
        SpotsSound(r, prefix, pos + RecordSize(|Text(i)|), s);
      }
  }

  lemma {:induction false} SpotsComplete(d: Doc, prefix: seq<nat>, pos: nat, chain: seq<nat>, id: Id)
    requires IsSpot(d, pos, chain, id)
    ensures Spot(id, prefix + chain) in Spots(d, prefix, pos)
  {
    match d
    case Raw(b, r) => SpotsComplete(r, prefix, pos + |b|, chain, id);
    case Hole(_, hid, h, _, r) =>
      if !(chain == [pos + 1] && id == hid) { SpotsComplete(r, prefix, pos + RecordSize(|h|), chain, id); }
    case Sub(_, i, r) =>
      if |chain| > 1 && chain[0] == pos + 1 && IsSpot(i, Inside(i, pos), chain[1..], id) {
        SpotsComplete(i, prefix + [pos + 1], Inside(i, pos), chain[1..], id);
        assert prefix + [pos + 1] + chain[1..] == prefix + chain;
      } else {
        SpotsComplete(r, prefix, pos + RecordSize(|Text(i)|), chain, id);
      }
  }

  // ------------------------------------------------------- what a chain says

  /**
    Read in `whole`, the varints at the positions of `chain` state regions nested one in
    the next, inside `lo..hi`; the last is the region of `size` bytes at `at`.
    */
  predicate Leads(whole: bytes, chain: seq<nat>, lo: nat, hi: nat, at: nat, size: nat)
    decreases |chain|
  {
    && |chain| > 0
    && lo <= chain[0] < hi <= |whole|
    && match Decode(whole[chain[0]..])
       case None => false
       case Some(r) =>
         var start := chain[0] + r.width;
         && start + r.value <= hi
         && if |chain| == 1
            then at == start && size == r.value
            else Leads(whole, chain[1..], start, start + r.value, at, size)
  }

  lemma LeadsWiden(whole: bytes, chain: seq<nat>, lo: nat, hi: nat, lo': nat, hi': nat, at: nat, size: nat)
    requires Leads(whole, chain, lo, hi, at, size)
    requires lo' <= lo && hi <= hi' <= |whole|
    ensures Leads(whole, chain, lo', hi', at, size)
  {
  }

  lemma VarintAt(whole: bytes, pos: nat, n: nat, more: bytes)
    requires At(whole, pos, Encode(n) + more)
    ensures pos < |whole| && Decode(whole[pos..]) == Some(Read(n, Width(n)))
  {
    AtSplit(whole, pos, Encode(n), more);
    assert whole[pos..] == Encode(n) + whole[pos + Width(n)..];
    DecodeEncode(n, whole[pos + Width(n)..]);
  }

  lemma RecordAt(whole: bytes, pos: nat, tag: byte, payload: bytes)
    requires At(whole, pos, Record(tag, payload))
    ensures pos + 1 < |whole| && Decode(whole[pos + 1..]) == Some(Read(|payload|, Width(|payload|)))
    ensures At(whole, pos + 1 + Width(|payload|), payload)
  {
    assert Record(tag, payload) == [tag] + (Encode(|payload|) + payload);
    AtSplit(whole, pos, [tag], Encode(|payload|) + payload);
    VarintAt(whole, pos + 1, |payload|, payload);
    AtSplit(whole, pos + 1, Encode(|payload|), payload);
  }

  ghost predicate RefLeads(e: Entry, chain: seq<nat>, whole: bytes, lo: nat, hi: nat, at: nat, content: Id -> bytes) {
    e.Ref? ==>
      && |chain| <= |e.chain| && chain == e.chain[..|chain|]
      && Leads(whole, e.chain[|chain|..], lo, hi, at, |content(e.id)|)
  }

  lemma RefWiden(e: Entry, chain: seq<nat>, whole: bytes, lo: nat, hi: nat, lo': nat, hi': nat, at: nat,
                 content: Id -> bytes)
    requires RefLeads(e, chain, whole, lo, hi, at, content)
    requires lo' <= lo && hi <= hi' <= |whole|
    ensures RefLeads(e, chain, whole, lo', hi', at, content)
  {
    if e.Ref? {
      LeadsWiden(whole, e.chain[|chain|..], lo, hi, lo', hi', at, |content(e.id)|);
    }
  }

  /**
    What was written between two writers, the bytes `from..to` of the stream: its block
    references lead there, each to right where its block begins.
    */
  ghost predicate Leading(whole: bytes, from: nat, w: Writer, to: nat, w': Writer, chain: seq<nat>, content: Id -> bytes) {
    && from <= to <= |whole| && w.done <= w'.done
    && forall j | |w.done| <= j < |w'.done| ::
      RefLeads(w'.done[j], chain, whole, from, to, |Fill(w'.done[..j], content)|, content)
  }

  lemma LeadingTwice(whole: bytes, p: nat, a: Writer, q: nat, b: Writer, r: nat, c: Writer, chain: seq<nat>,
                     content: Id -> bytes)
    requires Leading(whole, p, a, q, b, chain, content) && Leading(whole, q, b, r, c, chain, content)
    ensures Leading(whole, p, a, r, c, chain, content)
  {
    hide RefLeads, Fill;
    forall j | |a.done| <= j < |c.done|
      ensures RefLeads(c.done[j], chain, whole, p, r, |Fill(c.done[..j], content)|, content)
    {
      if j < |b.done| {
        PrefixSame(b.done, c.done, j);
        RefWiden(c.done[j], chain, whole, p, q, p, r, |Fill(c.done[..j], content)|, content);
      } else {
        RefWiden(c.done[j], chain, whole, q, r, p, r, |Fill(c.done[..j], content)|, content);
      }
    }
  }

  lemma PrefixSame(a: Directory, b: Directory, j: nat)
    requires a <= b && j < |a|
    ensures a[j] == b[j] && a[..j] == b[..j]
  {
  }

  /** Bytes written lead nowhere. */
  lemma NothingLeads(whole: bytes, from: nat, w: Writer, to: nat, w': Writer, chain: seq<nat>, content: Id -> bytes)
    requires from <= to <= |whole| && w'.done == w.done
    ensures Leading(whole, from, w, to, w', chain, content)
  {
  }

  /** A length varint, and the region it states. */
  ghost predicate States(whole: bytes, at: nat, start: nat, length: nat) {
    at < start && start + length <= |whole| && Decode(whole[at..]) == Some(Read(length, start - at))
  }

  /** Below a length varint, chains go on inside its region. */
  lemma LeadingBelow(whole: bytes, at: nat, start: nat, w: Writer, to: nat, w': Writer, chain: seq<nat>,
                     content: Id -> bytes)
    requires Leading(whole, start, w, to, w', chain + [at], content) && States(whole, at, start, to - start)
    ensures Leading(whole, at, w, to, w', chain, content)
  {
    hide Fill;
    forall j | |w.done| <= j < |w'.done|
      ensures RefLeads(w'.done[j], chain, whole, at, to, |Fill(w'.done[..j], content)|, content)
    {
      var e := w'.done[j];
      if e.Ref? {
        var c := e.chain[|chain|..];
        assert RefLeads(e, chain + [at], whole, start, to, |Fill(w'.done[..j], content)|, content);
        assert c[1..] == e.chain[|chain + [at]|..];
        assert c[0] == (chain + [at])[|chain|];
        assert e.chain[..|chain|] == chain;
      }
    }
  }

  /** A block cut in right after its own length varint. */
  lemma CutLeads(whole: bytes, at: nat, start: nat, w: Writer, length: nat, id: Id, chain: seq<nat>, content: Id -> bytes)
    requires States(whole, at, start, length) && |FillWriter(w, content)| == start && |content(id)| == length
    ensures Leading(whole, at, w, start + length, Cut(w, id, chain + [at]), chain, content)
  {
    hide FillWriter;
    var done := Cut(w, id, chain + [at]).done;
    forall j | |w.done| <= j < |done|
      ensures RefLeads(done[j], chain, whole, at, start + length, |Fill(done[..j], content)|, content)
    {
      if j == |w.done| + 1 {
        assert done[..j] == Close(w);
        FillClose(w, content);
        assert (chain + [at])[|chain|..] == [at];
      }
    }
  }

  /** The tag and the length of a record, at hand. */
  lemma RecordStates(whole: bytes, pos: nat, tag: byte, payload: bytes, more: bytes)
    requires At(whole, pos, Record(tag, payload) + more)
    ensures States(whole, pos + 1, pos + 1 + Width(|payload|), |payload|)
    ensures At(whole, pos + 1 + Width(|payload|), payload) && At(whole, pos + RecordSize(|payload|), more)
  {
    AtSplit(whole, pos, Record(tag, payload), more);
    RecordAt(whole, pos, tag, payload);
  }

  lemma {:induction false} LayLeads(d: Doc, chain: seq<nat>, pos: nat, w: Writer, whole: bytes, content: Id -> bytes)
    requires At(whole, pos, Text(d)) && Holds(d, content)
    requires |FillWriter(w, content)| == pos
    ensures Leading(whole, pos, w, pos + |Text(d)|, Lay(d, chain, pos, w), chain, content)
    decreases d, chain, pos, w, whole, 1
  {
    hide Encode, FillWriter, Leading, States, Record;
    match d
    case End => NothingLeads(whole, pos, w, pos, w, chain, content);
    case Raw(b, r) =>
      AtSplit(whole, pos, b, Text(r));
      var w' := Write(w, b);
      NothingLeads(whole, pos, w, pos + |b|, w', chain, content);
      FillWrite(w, b, content);
      LayLeads(r, chain, pos + |b|, w', whole, content);
      LeadingTwice(whole, pos, w, pos + |b|, w', pos + |Text(d)|, Lay(d, chain, pos, w), chain, content);
    case Hole(t, id, h, _, r) =>
      RecordLength(t, h);
      RecordStates(whole, pos, t, h, Text(r));
      var next, w' := pos + RecordSize(|h|), Cut(Write(w, [t] + Encode(|h|)), id, chain + [pos + 1]);
      HoleLeads(whole, pos, w, t, id, h, chain, content);
      LayLeads(r, chain, next, w', whole, content);
      LeadingTwice(whole, pos, w, next, w', pos + |Text(d)|, Lay(d, chain, pos, w), chain, content);
    case Sub(t, i, r) =>
      RecordLength(t, Text(i));
      RecordStates(whole, pos, t, Text(i), Text(r));
      var next := pos + RecordSize(|Text(i)|);
      var w' := SubLeads(whole, pos, w, t, i, r, chain, content);
      LayLeads(r, chain, next, w', whole, content);
      LeadingTwice(whole, pos, w, next, w', pos + |Text(d)|, Lay(d, chain, pos, w), chain, content);
  }

  lemma RecordLength(t: byte, payload: bytes)
    ensures |Record(t, payload)| == RecordSize(|payload|) > 0
  {
  }

  lemma HoleLeads(whole: bytes, pos: nat, w: Writer, t: byte, id: Id, h: bytes, chain: seq<nat>, content: Id -> bytes)
    requires States(whole, pos + 1, pos + 1 + Width(|h|), |h|) && |FillWriter(w, content)| == pos && h == content(id)
    ensures var w' := Cut(Write(w, [t] + Encode(|h|)), id, chain + [pos + 1]);
      && Leading(whole, pos, w, pos + RecordSize(|h|), w', chain, content)
      && |FillWriter(w', content)| == pos + RecordSize(|h|)
  {
    hide Encode, FillWriter, Leading, Decode;
    var head := [t] + Encode(|h|);
    var w0 := Write(w, head);
    var w' := Cut(w0, id, chain + [pos + 1]);
    FillWrite(w, head, content);
    FillCut(w0, id, chain + [pos + 1], content);
    NothingLeads(whole, pos, w, pos + 1, w0, chain, content);
    CutLeads(whole, pos + 1, pos + 1 + Width(|h|), w0, |h|, id, chain, content);
    LeadingTwice(whole, pos, w, pos + 1, w0, pos + RecordSize(|h|), w', chain, content);
  }

  lemma {:induction false} SubLeads(whole: bytes, pos: nat, w: Writer, t: byte, i: Doc, r: Doc, chain: seq<nat>,
                                    content: Id -> bytes)
    returns (w': Writer)
    requires States(whole, pos + 1, Inside(i, pos), |Text(i)|) && At(whole, Inside(i, pos), Text(i)) && Holds(i, content)
    requires |FillWriter(w, content)| == pos
    ensures w' == Lay(i, chain + [pos + 1], Inside(i, pos), Write(w, [t] + Encode(|Text(i)|)))
    ensures Leading(whole, pos, w, pos + RecordSize(|Text(i)|), w', chain, content)
    ensures |FillWriter(w', content)| == pos + RecordSize(|Text(i)|)
    decreases Sub(t, i, r), chain, pos, w, whole, 0
  {
    hide Encode, FillWriter, Leading, Decode, Lay;
    var head, next := [t] + Encode(|Text(i)|), pos + RecordSize(|Text(i)|);
    var w0 := Write(w, head);
    w' := Lay(i, chain + [pos + 1], Inside(i, pos), w0);
    FillWrite(w, head, content);
    NothingLeads(whole, pos, w, pos + 1, w0, chain, content);
    LayLeads(i, chain + [pos + 1], Inside(i, pos), w0, whole, content);
    LeadingBelow(whole, pos + 1, Inside(i, pos), w0, next, w', chain, content);
    LeadingTwice(whole, pos, w, pos + 1, w0, next, w', chain, content);
    LayFills(i, chain + [pos + 1], Inside(i, pos), w0, content);
  }

  /**
    In the expanded stream, the chain of every block reference lists length varints whose
    regions nest, and the last of them states the block's length right before its bytes.
    */
  lemma ChainsLead(d: Doc, content: Id -> bytes, j: nat)
    requires Holds(d, content)
    requires j < |DirectoryOf(d)| && DirectoryOf(d)[j].Ref?
    ensures var es := DirectoryOf(d); var whole := Fill(es, content);
      && IsSpot(d, 0, es[j].chain, es[j].id)
      && Leads(whole, es[j].chain, 0, |whole|, |Fill(es[..j], content)|, |content(es[j].id)|)
  {
    hide Lay, Encode, Fill, Leads, Text, Spots;
    var es := DirectoryOf(d);
    var w := Lay(d, [], 0, EMPTY);
    DirectoryExpands(d, content);
    EmptyFill(content);
    LayLeads(d, [], 0, EMPTY, Text(d), content);
    assert es[..j] == w.done[..j] && es[j] == w.done[j];
    assert RefLeads(w.done[j], [], Text(d), 0, |Text(d)|, |Fill(w.done[..j], content)|, content);
    assert es[j].chain[0..] == es[j].chain;
    DirectoryRefs(d);
    RefListed(es, j);
    SpotsSound(d, [], 0, Spot(es[j].id, es[j].chain));
  }

  lemma EmptyFill(content: Id -> bytes)
    ensures FillWriter(EMPTY, content) == []
  {
  }

  lemma {:induction false} RefListed(es: Directory, j: nat)
    requires j < |es| && es[j].Ref?
    ensures Spot(es[j].id, es[j].chain) in Refs(es)
  {
    if j > 0 { RefListed(es[1..], j - 1); }
  }
}
