/**
  Protobuf messages as the builder walks them: the list of set fields, each a scalar, a
  plain bytes or string field, a bytes field that parses as a block pointer, or a
  sub-message. A repeated message field is one field per element.
  */
module Messages {
  import opened Bytes
  import opened Varint
  import opened Documents
  import opened Layouts
  import opened Pointers
  import opened WireFormat

  /** Tags are one byte: field numbers 1 to 15. */
  datatype Message =
    | NoFields
    | Scalar(raw: bytes, more: Message)
    | Blob(tag: byte, payload: bytes, more: Message)
    | Link(tag: byte, pointer: Pointer, more: Message)
    | Nested(tag: byte, inner: Message, more: Message)

  function Serialize(m: Message): bytes {
    match m
    case NoFields => []
    case Scalar(b, r) => b + Serialize(r)
    case Blob(t, b, r) => Record(t, b) + Serialize(r)
    case Link(t, p, r) => Record(t, PointerBytes(p)) + Serialize(r)
    case Nested(t, i, r) => Record(t, Serialize(i)) + Serialize(r)
  }

  /** Tags are of length-delimited fields, and a scalar is one field of another kind. */
  predicate WellTyped(m: Message, most: nat) {
    match m
    case NoFields => true
    case Scalar(b, r) =>
      && (match FieldsOf(b, most) case None => false case Some(fs) => |fs| == 1 && !fs[0].value.Payload?)
      && WellTyped(r, most)
    case Blob(t, _, r) => t < 128 && t % 8 == 2 && WellTyped(r, most)
    case Link(t, _, r) => t < 128 && t % 8 == 2 && WellTyped(r, most)
    case Nested(t, i, r) => t < 128 && t % 8 == 2 && WellTyped(i, most) && WellTyped(r, most)
  }

  /** The fields say what the message says, in order: numbers, bytes, pointers and messages. */
  predicate Says(fs: seq<Field>, m: Message, most: nat)
    decreases m
  {
    match m
    case NoFields => fs == []
    case Scalar(b, r) => fs != [] && FieldsOf(b, most) == Some([fs[0]]) && Says(fs[1..], r, most)
    case Blob(t, b, r) => fs != [] && fs[0].number == t / 8 && fs[0].value == Payload(b) && Says(fs[1..], r, most)
    case Link(t, p, r) =>
      && fs != [] && fs[0].number == t / 8 && fs[0].value.Payload?
      && ParsePointer(fs[0].value.content, most) == Some(p) && Says(fs[1..], r, most)
    case Nested(t, i, r) =>
      && fs != [] && fs[0].number == t / 8 && fs[0].value.Payload?
      && (match FieldsOf(fs[0].value.content, most) case None => false case Some(inner) => Says(inner, i, most))
      && Says(fs[1..], r, most)
  }

  /** The serialization, read in the wire format, says what the message says. */
  lemma {:induction false} SerializesFields(m: Message, most: nat)
    requires WellTyped(m, most) && Width(|Serialize(m)|) <= most
    ensures FieldsOf(Serialize(m), most).Some? && Says(FieldsOf(Serialize(m), most).value, m, most)
    decreases m, 0
  {
    hide Encode, FirstField, FieldsOf, Width, PointerBytes, ParsePointer, Record, Says;
    match m
    case NoFields => NothingSaid(most);
    case Scalar(b, r) =>
      WidthMonotone(|Serialize(r)|, |Serialize(m)|);
      SerializesFields(r, most);
      ScalarSaid(b, r, most);
    case Blob(t, b, r) => PayloadSaid(m, t, b, r, most);
    case Link(t, p, r) =>
      LengthWithin(t, PointerBytes(p), Serialize(r), most);
      PointerParses(p, most);
      PayloadSaid(m, t, PointerBytes(p), r, most);
    case Nested(t, i, r) =>
      LengthWithin(t, Serialize(i), Serialize(r), most);
      SerializesFields(i, most);
      PayloadSaid(m, t, Serialize(i), r, most);
  }

  lemma NothingSaid(most: nat)
    ensures FieldsOf([], most) == Some([]) && Says([], NoFields, most)
  {
  }

  lemma LengthWithin(t: byte, payload: bytes, rest: bytes, most: nat)
    requires Width(|Record(t, payload) + rest|) <= most
    ensures Width(|payload|) <= most && Width(|rest|) <= most
  {
    hide Encode, Width;
    WidthMonotone(|payload|, |Record(t, payload) + rest|);
    WidthMonotone(|rest|, |Record(t, payload) + rest|);
  }

  lemma ScalarSaid(b: bytes, r: Message, most: nat)
    requires match FieldsOf(b, most) case None => false case Some(fs) => |fs| == 1 && !fs[0].value.Payload?
    requires FieldsOf(Serialize(r), most).Some? && Says(FieldsOf(Serialize(r), most).value, r, most)
    ensures var m := Scalar(b, r); FieldsOf(Serialize(m), most).Some? && Says(FieldsOf(Serialize(m), most).value, m, most)
  {
    hide FirstField, Serialize;
    var fs, rest := FieldsOf(b, most).value, FieldsOf(Serialize(r), most).value;
    var whole := b + Serialize(r);
    assert FieldsOf(b[fs[0].width..], most) == Some([]);
    assert b[fs[0].width..] == [];
    FieldCut(b, Serialize(r), most);
    assert whole[fs[0].width..] == Serialize(r);
    assert Serialize(Scalar(b, r)) == whole by { SerializeScalar(b, r); }
    assert FieldsOf(whole, most) == Some([fs[0]] + rest);
    assert ([fs[0]] + rest)[1..] == rest && fs == [fs[0]];
  }

  lemma SerializeScalar(b: bytes, r: Message)
    ensures Serialize(Scalar(b, r)) == b + Serialize(r)
  {
  }

  lemma {:induction false} PayloadSaid(m: Message, t: byte, payload: bytes, r: Message, most: nat)
    requires t < 128 && t % 8 == 2 && Serialize(m) == Record(t, payload) + Serialize(r) && WellTyped(r, most)
    requires Width(|Serialize(m)|) <= most
    requires match m
             case Blob(t', b, r') => t == t' && payload == b && r == r'
             case Link(t', p, r') => t == t' && r == r' && ParsePointer(payload, most) == Some(p)
             case Nested(t', i, r') =>
               && t == t' && r == r' && FieldsOf(payload, most).Some? && Says(FieldsOf(payload, most).value, i, most)
             case _ => false
    ensures FieldsOf(Serialize(m), most).Some? && Says(FieldsOf(Serialize(m), most).value, m, most)
    decreases r, 1
  {
    hide Encode, FirstField, FieldsOf, Width, Serialize, ParsePointer, WellTyped;
    LengthWithin(t, payload, Serialize(r), most);
    SerializesFields(r, most);
    RecordIsField(t, payload, Serialize(r), most);
    var f := Field(t / 8, Payload(payload), 1, |Record(t, payload)|);
    var fs := FieldsOf(Serialize(r), most).value;
    assert ([f] + fs)[1..] == fs;
  }

  /** What a walk is told: the blocks to look for and the hash types around the object. */
  datatype Context = Context(hashType: bytes, inherited: seq<bytes>, blocks: set<Id>)

  /** `is_block` and `get_hash` together: the block this field points at, if it is one. */
  function Selected(ctx: Context, p: Pointer): Option<Id> {
    match BlockId(p, ctx.inherited, ctx.hashType)
    case None => None
    case Some(id) => if id in ctx.blocks then Some(id) else None
  }

  /** A pointer selects exactly the listed block it names. */
  lemma SelectedExactly(ctx: Context, p: Pointer, id: Id)
    ensures Selected(ctx, p) == Some(id) <==> id in ctx.blocks && Names(p, ctx.inherited, ctx.hashType, id)
  {
    BlockIdExactly(p, ctx.inherited, ctx.hashType, id);
  }

  /** The listed blocks that the message's pointers name, at any depth, in order. */
  ghost function Targets(m: Message, ctx: Context): seq<Id> {
    match m
    case NoFields => []
    case Scalar(_, r) => Targets(r, ctx)
    case Blob(_, _, r) => Targets(r, ctx)
    case Link(_, p, r) =>
      (if exists id :: id in ctx.blocks && Names(p, ctx.inherited, ctx.hashType, id)
       then var id :| id in ctx.blocks && Names(p, ctx.inherited, ctx.hashType, id); [id] else [])
      + Targets(r, ctx)
    case Nested(_, i, r) => Targets(i, ctx) + Targets(r, ctx)
  }

  /** The message as a document: pointers at hand, block contents to come. */
  function DocOf(m: Message, ctx: Context, content: Id -> bytes): Doc {
    match m
    case NoFields => End
    case Scalar(b, r) => Raw(b, DocOf(r, ctx, content))
    case Blob(t, b, r) => Raw(Record(t, b), DocOf(r, ctx, content))
    case Link(t, p, r) =>
      (match Selected(ctx, p)
       case None => Raw(Record(t, PointerBytes(p)), DocOf(r, ctx, content))
       case Some(id) => Hole(t, id, PointerBytes(p), content(id), DocOf(r, ctx, content)))
    case Nested(t, i, r) => Sub(t, DocOf(i, ctx, content), DocOf(r, ctx, content))
  }

  lemma {:induction false} DocText(m: Message, ctx: Context, content: Id -> bytes)
    ensures Text(DocOf(m, ctx, content)) == Serialize(m)
  {
    match m
    case NoFields =>
    case Scalar(_, r) => DocText(r, ctx, content);
    case Blob(_, _, r) => DocText(r, ctx, content);
    case Link(_, _, r) => DocText(r, ctx, content);
    case Nested(_, i, r) => DocText(i, ctx, content); DocText(r, ctx, content);
  }

  lemma {:induction false} DocHolds(m: Message, ctx: Context, content: Id -> bytes)
    ensures Holds(Flip(DocOf(m, ctx, content)), content)
    ensures HoleIds(DocOf(m, ctx, content)) <= ctx.blocks
  {
    match m
    case NoFields =>
    case Scalar(_, r) => DocHolds(r, ctx, content);
    case Blob(_, _, r) => DocHolds(r, ctx, content);
    case Link(_, _, r) => DocHolds(r, ctx, content);
    case Nested(_, i, r) => DocHolds(i, ctx, content); DocHolds(r, ctx, content);
  }

  function Ids(spots: seq<Spot>): (r: seq<Id>)
    ensures |r| == |spots|
    ensures forall i | 0 <= i < |spots| :: r[i] == spots[i].id
  {
    seq(|spots|, i requires 0 <= i < |spots| => spots[i].id)
  }

  ghost predicate Found(d: Doc, prefix: seq<nat>, pos: nat, targets: seq<Id>) {
    Ids(Spots(d, prefix, pos)) == targets && forall id :: id in HoleIds(d) <==> id in targets
  }

  /** The blocks found in a message, in order, are the listed ones its pointers name. */
  lemma {:induction false} FoundInOrder(m: Message, ctx: Context, content: Id -> bytes, prefix: seq<nat>, pos: nat)
    ensures Found(DocOf(m, ctx, content), prefix, pos, Targets(m, ctx))
    decreases m
  {
    hide *;
    match m
    case NoFields => NothingFound(ctx, content, prefix, pos);
    case Scalar(b, r) =>
      FoundInOrder(r, ctx, content, prefix, pos + |b|);
      PlainFound(m, r, b, ctx, content, prefix, pos);
    case Blob(t, b, r) =>
      FoundInOrder(r, ctx, content, prefix, pos + |Record(t, b)|);
      PlainFound(m, r, Record(t, b), ctx, content, prefix, pos);
    case Link(t, p, r) =>
      FoundInOrder(r, ctx, content, prefix, pos + |Record(t, PointerBytes(p))|);
      LinkFound(t, p, r, ctx, content, prefix, pos);
    case Nested(t, i, r) =>
      var d := DocOf(i, ctx, content);
      FoundInOrder(i, ctx, content, prefix + [pos + 1], Inside(d, pos));
      FoundInOrder(r, ctx, content, prefix, pos + RecordSize(|Text(d)|));
      NestedFound(t, i, r, ctx, content, prefix, pos);
  }

  lemma PlainFound(m: Message, r: Message, b: bytes, ctx: Context, content: Id -> bytes, prefix: seq<nat>, pos: nat)
    requires m == Scalar(b, r) || (m.Blob? && m.more == r && b == Record(m.tag, m.payload))
    requires Found(DocOf(r, ctx, content), prefix, pos + |b|, Targets(r, ctx))
    ensures Found(DocOf(m, ctx, content), prefix, pos, Targets(m, ctx))
  {
    hide Encode, Found, Record;
    RawFound(b, DocOf(r, ctx, content), prefix, pos, Targets(r, ctx));
  }

  lemma LinkFound(t: byte, p: Pointer, r: Message, ctx: Context, content: Id -> bytes, prefix: seq<nat>, pos: nat)
    requires Found(DocOf(r, ctx, content), prefix, pos + |Record(t, PointerBytes(p))|, Targets(r, ctx))
    ensures Found(DocOf(Link(t, p, r), ctx, content), prefix, pos, Targets(Link(t, p, r), ctx))
  {
    hide Encode, Found, Record, Targets, PointerBytes, Selected;
    RecordLength(t, PointerBytes(p));
    LinkTargets(ctx, t, p, r);
    match Selected(ctx, p)
    case None => RawFound(Record(t, PointerBytes(p)), DocOf(r, ctx, content), prefix, pos, Targets(r, ctx));
    case Some(id) => HoleFound(t, id, PointerBytes(p), content(id), DocOf(r, ctx, content), prefix, pos, Targets(r, ctx));
  }

  lemma NestedFound(t: byte, i: Message, r: Message, ctx: Context, content: Id -> bytes, prefix: seq<nat>, pos: nat)
    requires var d := DocOf(i, ctx, content);
      && Found(d, prefix + [pos + 1], Inside(d, pos), Targets(i, ctx))
      && Found(DocOf(r, ctx, content), prefix, pos + RecordSize(|Text(d)|), Targets(r, ctx))
    ensures Found(DocOf(Nested(t, i, r), ctx, content), prefix, pos, Targets(Nested(t, i, r), ctx))
  {
    hide Encode, Found, Text;
    SubFound(t, DocOf(i, ctx, content), DocOf(r, ctx, content), prefix, pos, Targets(i, ctx), Targets(r, ctx));
  }

  lemma LinkTargets(ctx: Context, t: byte, p: Pointer, r: Message)
    ensures Targets(Link(t, p, r), ctx) ==
            (match Selected(ctx, p) case None => Targets(r, ctx) case Some(id) => [id] + Targets(r, ctx))
  {
    hide Names, Selected;
    forall id ensures Selected(ctx, p) == Some(id) <==> id in ctx.blocks && Names(p, ctx.inherited, ctx.hashType, id) {
      SelectedExactly(ctx, p, id);
    }
    assert [] + Targets(r, ctx) == Targets(r, ctx);
  }

  lemma NothingFound(ctx: Context, content: Id -> bytes, prefix: seq<nat>, pos: nat)
    ensures Found(DocOf(NoFields, ctx, content), prefix, pos, Targets(NoFields, ctx))
  {
  }

  lemma RawFound(b: bytes, r: Doc, prefix: seq<nat>, pos: nat, targets: seq<Id>)
    requires Found(r, prefix, pos + |b|, targets)
    ensures Found(Raw(b, r), prefix, pos, targets)
  {
  }

  lemma HoleFound(t: byte, id: Id, h: bytes, th: bytes, r: Doc, prefix: seq<nat>, pos: nat, targets: seq<Id>)
    requires Found(r, prefix, pos + RecordSize(|h|), targets)
    ensures Found(Hole(t, id, h, th, r), prefix, pos, [id] + targets)
  {
    hide Encode;
    IdsTogether([Spot(id, prefix + [pos + 1])], Spots(r, prefix, pos + RecordSize(|h|)));
    assert Ids([Spot(id, prefix + [pos + 1])]) == [id];
  }

  lemma SubFound(t: byte, i: Doc, r: Doc, prefix: seq<nat>, pos: nat, inner: seq<Id>, targets: seq<Id>)
    requires Found(i, prefix + [pos + 1], Inside(i, pos), inner) && Found(r, prefix, pos + RecordSize(|Text(i)|), targets)
    ensures Found(Sub(t, i, r), prefix, pos, inner + targets)
  {
    hide Encode, Text;
    IdsTogether(Spots(i, prefix + [pos + 1], Inside(i, pos)), Spots(r, prefix, pos + RecordSize(|Text(i)|)));
  }

  /** The other filling has the same blocks in the same order. */
  lemma {:induction false} FlipFound(d: Doc, prefix: seq<nat>, pos: nat, prefix': seq<nat>, pos': nat)
    ensures Ids(Spots(Flip(d), prefix', pos')) == Ids(Spots(d, prefix, pos))
    decreases d
  {
    hide Encode, Text;
    match d
    case End =>
    case Raw(b, r) => FlipFound(r, prefix, pos + |b|, prefix', pos' + |b|);
    case Hole(_, id, h, th, r) =>
      var next, next' := pos + RecordSize(|h|), pos' + RecordSize(|th|);
      FlipFound(r, prefix, next, prefix', next');
      IdsTogether([Spot(id, prefix + [pos + 1])], Spots(r, prefix, next));
      IdsTogether([Spot(id, prefix' + [pos' + 1])], Spots(Flip(r), prefix', next'));
    case Sub(_, i, r) =>
      var i', next, next' := Flip(i), pos + RecordSize(|Text(i)|), pos' + RecordSize(|Text(Flip(i))|);
      FlipFound(i, prefix + [pos + 1], Inside(i, pos), prefix' + [pos' + 1], Inside(i', pos'));
      FlipFound(r, prefix, next, prefix', next');
      IdsTogether(Spots(i, prefix + [pos + 1], Inside(i, pos)), Spots(r, prefix, next));
      IdsTogether(Spots(i', prefix' + [pos' + 1], Inside(i', pos')), Spots(Flip(r), prefix', next'));
  }

  lemma IdsTogether(a: seq<Spot>, b: seq<Spot>)
    ensures Ids(a + b) == Ids(a) + Ids(b)
  {
  }

  /**
    The message that would have been, had the blocks been stored inline: every selected
    pointer is a plain bytes field holding its block's content.
    */
  function Inlined(m: Message, ctx: Context, content: Id -> bytes): Message {
    match m
    case NoFields => NoFields
    case Scalar(b, r) => Scalar(b, Inlined(r, ctx, content))
    case Blob(t, b, r) => Blob(t, b, Inlined(r, ctx, content))
    case Link(t, p, r) =>
      (match Selected(ctx, p)
       case None => Link(t, p, Inlined(r, ctx, content))
       case Some(id) => Blob(t, content(id), Inlined(r, ctx, content)))
    case Nested(t, i, r) => Nested(t, Inlined(i, ctx, content), Inlined(r, ctx, content))
  }

  /** Exchanging the fillings is serializing the inlined message. */
  lemma {:induction false} FlipIsInlined(m: Message, ctx: Context, content: Id -> bytes)
    ensures Text(Flip(DocOf(m, ctx, content))) == Serialize(Inlined(m, ctx, content))
  {
    match m
    case NoFields =>
    case Scalar(_, r) => FlipIsInlined(r, ctx, content);
    case Blob(_, _, r) => FlipIsInlined(r, ctx, content);
    case Link(_, _, r) => FlipIsInlined(r, ctx, content);
    case Nested(_, i, r) => FlipIsInlined(i, ctx, content); FlipIsInlined(r, ctx, content);
  }

  // ------------------------------------------------- pointers written differently

  /** The same message, pointers written in whatever way, each in its own context. */
  predicate SameButForPointers(m: Message, ctx: Context, n: Message, ctx': Context) {
    match m
    case NoFields => n.NoFields?
    case Scalar(b, r) => n.Scalar? && n.raw == b && SameButForPointers(r, ctx, n.more, ctx')
    case Blob(t, b, r) => n.Blob? && n.tag == t && n.payload == b && SameButForPointers(r, ctx, n.more, ctx')
    case Link(t, p, r) =>
      && n.Link? && n.tag == t
      && Selected(ctx, p) == Selected(ctx', n.pointer)
      && (Selected(ctx, p) == None ==> p == n.pointer)
      && SameButForPointers(r, ctx, n.more, ctx')
    case Nested(t, i, r) =>
      && n.Nested? && n.tag == t
      && SameButForPointers(i, ctx, n.inner, ctx') && SameButForPointers(r, ctx, n.more, ctx')
  }

  /** A document with its other fillings forgotten. */
  function Erase(d: Doc): Doc {
    match d
    case End => End
    case Raw(b, r) => Raw(b, Erase(r))
    case Hole(t, id, h, _, r) => Hole(t, id, h, [], Erase(r))
    case Sub(t, i, r) => Sub(t, Erase(i), Erase(r))
  }

  lemma {:induction false} EraseText(d: Doc)
    ensures Text(Erase(d)) == Text(d) && HoleIds(Erase(d)) == HoleIds(d)
  {
    match d
    case End =>
    case Raw(_, r) => EraseText(r);
    case Hole(_, _, _, _, r) => EraseText(r);
    case Sub(_, i, r) => EraseText(i); EraseText(r);
  }

  lemma {:induction false} EraseLay(d: Doc, chain: seq<nat>, pos: nat, w: Writer)
    ensures Lay(Erase(d), chain, pos, w) == Lay(d, chain, pos, w)
  {
    match d
    case End =>
    case Raw(b, r) => EraseLay(r, chain, pos + |b|, Write(w, b));
    case Hole(t, id, h, _, r) =>
      EraseLay(r, chain, pos + RecordSize(|h|), Cut(Write(w, [t] + Encode(|h|)), id, chain + [pos + 1]));
    case Sub(t, i, r) =>
      EraseText(i);
      var w' := Write(w, [t] + Encode(|Text(i)|));
      EraseLay(i, chain + [pos + 1], Inside(i, pos), w');
      EraseLay(r, chain, pos + RecordSize(|Text(i)|), Lay(i, chain + [pos + 1], Inside(i, pos), w'));
  }

  lemma {:induction false} SameErased(m: Message, ctx: Context, n: Message, ctx': Context, content: Id -> bytes)
    requires SameButForPointers(m, ctx, n, ctx')
    ensures Erase(Flip(DocOf(m, ctx, content))) == Erase(Flip(DocOf(n, ctx', content)))
    decreases m
  {
    match m
    case NoFields =>
    case Scalar(_, r) => SameErased(r, ctx, n.more, ctx', content);
    case Blob(_, _, r) => SameErased(r, ctx, n.more, ctx', content);
    case Link(_, _, r) => SameErased(r, ctx, n.more, ctx', content);
    case Nested(_, i, r) =>
      SameErased(i, ctx, n.inner, ctx', content);
      SameErased(r, ctx, n.more, ctx', content);
  }

  /** The expanded object does not show how its pointers were written. */
  lemma ExpansionForgetsPointers(m: Message, ctx: Context, n: Message, ctx': Context, content: Id -> bytes)
    requires SameButForPointers(m, ctx, n, ctx')
    ensures var e, e' := Flip(DocOf(m, ctx, content)), Flip(DocOf(n, ctx', content));
      Text(e) == Text(e') && DirectoryOf(e) == DirectoryOf(e') && HoleIds(e) == HoleIds(e')
  {
    var e, e' := Flip(DocOf(m, ctx, content)), Flip(DocOf(n, ctx', content));
    SameErased(m, ctx, n, ctx', content);
    EraseText(e);
    EraseText(e');
    EraseLay(e, [], 0, EMPTY);
    EraseLay(e', [], 0, EMPTY);
  }

  /** `m` with the types its selected pointers inherit written out. */
  function SpellOutSelected(m: Message, ctx: Context): Message {
    match m
    case NoFields => NoFields
    case Scalar(b, r) => Scalar(b, SpellOutSelected(r, ctx))
    case Blob(t, b, r) => Blob(t, b, SpellOutSelected(r, ctx))
    case Link(t, p, r) =>
      Link(t, if Selected(ctx, p).Some? then SpelledOut(p, ctx.inherited) else p, SpellOutSelected(r, ctx))
    case Nested(t, i, r) => Nested(t, SpellOutSelected(i, ctx), SpellOutSelected(r, ctx))
  }

  /** What is no block's pointer in one context is none in the other. */
  predicate StaysUnselected(m: Message, ctx: Context, ctx': Context) {
    match m
    case NoFields => true
    case Scalar(_, r) => StaysUnselected(r, ctx, ctx')
    case Blob(_, _, r) => StaysUnselected(r, ctx, ctx')
    case Link(_, p, r) => (Selected(ctx, p) == None ==> Selected(ctx', p) == None) && StaysUnselected(r, ctx, ctx')
    case Nested(_, i, r) => StaysUnselected(i, ctx, ctx') && StaysUnselected(r, ctx, ctx')
  }

  /** Spelled out, a message's pointers select the same blocks wherever it is put. */
  lemma {:induction false} SpelledOutIsSame(m: Message, ctx: Context, ctx': Context)
    requires ctx'.blocks == ctx.blocks && ctx'.hashType == ctx.hashType && StaysUnselected(m, ctx, ctx')
    ensures SameButForPointers(m, ctx, SpellOutSelected(m, ctx), ctx')
  {
    match m
    case NoFields =>
    case Scalar(_, r) => SpelledOutIsSame(r, ctx, ctx');
    case Blob(_, _, r) => SpelledOutIsSame(r, ctx, ctx');
    case Link(_, p, r) =>
      SpelledOutIsSame(r, ctx, ctx');
      if Selected(ctx, p).Some? { SpellingIsInvisible(p, ctx.inherited, ctx'.inherited, ctx.hashType); }
    case Nested(_, i, r) => SpelledOutIsSame(i, ctx, ctx'); SpelledOutIsSame(r, ctx, ctx');
  }

  /** `m` with its selected pointers replaced by the ones the library writes. */
  function RewriteSelected(m: Message, ctx: Context, omitTypes: bool): Message {
    match m
    case NoFields => NoFields
    case Scalar(b, r) => Scalar(b, RewriteSelected(r, ctx, omitTypes))
    case Blob(t, b, r) => Blob(t, b, RewriteSelected(r, ctx, omitTypes))
    case Link(t, p, r) =>
      (match Selected(ctx, p)
       case None => Link(t, p, RewriteSelected(r, ctx, omitTypes))
       case Some(id) => Link(t, BlockPointer(id, omitTypes, ctx.hashType), RewriteSelected(r, ctx, omitTypes)))
    case Nested(t, i, r) => Nested(t, RewriteSelected(i, ctx, omitTypes), RewriteSelected(r, ctx, omitTypes))
  }

  /**
    So do the library's own pointers, with their types omitted where the context supplies
    the registry's own first.
    */
  lemma {:induction false} RewrittenIsSame(m: Message, ctx: Context, ctx': Context, omitTypes: bool)
    requires ctx'.blocks == ctx.blocks && ctx'.hashType == ctx.hashType && StaysUnselected(m, ctx, ctx')
    requires ctx.hashType != [] && (omitTypes ==> |ctx'.inherited| > 0 && ctx'.inherited[0] == ctx.hashType)
    ensures SameButForPointers(m, ctx, RewriteSelected(m, ctx, omitTypes), ctx')
  {
    match m
    case NoFields =>
    case Scalar(_, r) => RewrittenIsSame(r, ctx, ctx', omitTypes);
    case Blob(_, _, r) => RewrittenIsSame(r, ctx, ctx', omitTypes);
    case Link(_, p, r) =>
      RewrittenIsSame(r, ctx, ctx', omitTypes);
      if Selected(ctx, p).Some? { WrittenPointerNames(Selected(ctx, p).value, ctx.hashType, ctx'.inherited); }
    case Nested(_, i, r) => RewrittenIsSame(i, ctx, ctx', omitTypes); RewrittenIsSame(r, ctx, ctx', omitTypes);
  }
}
