/**
  Directories as sequences of symbols, a byte or a whole block each, so that editing a
  varint is replacing a stretch of symbols. A symbol weighs what it takes up in the
  expanded stream.
  */
module Symbols {
  import opened Bytes
  import opened Varint
  import opened Documents
  import opened Layouts

  datatype Sym = B(b: byte) | K(id: Id)

  function Sy(b: bytes): (r: seq<Sym>)
    ensures |r| == |b|
    ensures forall i | 0 <= i < |b| :: r[i] == B(b[i])
  {
    seq(|b|, i requires 0 <= i < |b| => B(b[i]))
  }

  lemma SyAppend(a: bytes, b: bytes)
    ensures Sy(a + b) == Sy(a) + Sy(b)
  {
  }

  function Flatten(es: Directory): seq<Sym> {
    if es == [] then []
    else (if es[0].Part? then Sy(es[0].content) else [K(es[0].id)]) + Flatten(es[1..])
  }

  lemma {:induction false} FlattenAppend(a: Directory, b: Directory)
    ensures Flatten(a + b) == Flatten(a) + Flatten(b)
  {
    if a == [] {
      assert a + b == b;
    } else {
      assert (a + b)[1..] == a[1..] + b;
      FlattenAppend(a[1..], b);
    }
  }

  function Weight(syms: seq<Sym>, content: Id -> bytes): nat {
    if syms == [] then 0
    else (if syms[0].B? then 1 else |content(syms[0].id)|) + Weight(syms[1..], content)
  }

  lemma {:induction false} WeightAppend(a: seq<Sym>, b: seq<Sym>, content: Id -> bytes)
    ensures Weight(a + b, content) == Weight(a, content) + Weight(b, content)
  {
    if a == [] {
      assert a + b == b;
    } else {
      assert (a + b)[1..] == a[1..] + b;
      WeightAppend(a[1..], b, content);
    }
  }

  lemma {:induction false} WeightBytes(b: bytes, content: Id -> bytes)
    ensures Weight(Sy(b), content) == |b|
  {
    if b != [] {
      assert Sy(b)[1..] == Sy(b[1..]);
      WeightBytes(b[1..], content);
    }
  }

  lemma {:induction false} WeightFlatten(es: Directory, content: Id -> bytes)
    ensures Weight(Flatten(es), content) == |Fill(es, content)|
  {
    if es != [] {
      var head := if es[0].Part? then Sy(es[0].content) else [K(es[0].id)];
      WeightFlatten(es[1..], content);
      WeightAppend(head, Flatten(es[1..]), content);
      if es[0].Part? { WeightBytes(es[0].content, content); } else { assert head[1..] == []; }
    }
  }

  // ---------------------------------------------------------- symbols of documents

  /** A document with each hole a single symbol, lengths as they are here. */
  function DocSyms(d: Doc): seq<Sym> {
    match d
    case End => []
    case Raw(b, r) => Sy(b) + DocSyms(r)
    case Hole(t, id, h, _, r) => Sy([t]) + Sy(Encode(|h|)) + [K(id)] + DocSyms(r)
    case Sub(t, i, r) => Sy([t]) + Sy(Encode(|Text(i)|)) + DocSyms(i) + DocSyms(r)
  }

  lemma {:induction false} WeightDoc(d: Doc, content: Id -> bytes)
    requires Holds(d, content)
    ensures Weight(DocSyms(d), content) == |Text(d)|
  {
    hide Encode;
    match d
    case End =>
    case Raw(b, r) =>
      WeightDoc(r, content);
      WeightBytes(b, content);
      WeightAppend(Sy(b), DocSyms(r), content);
    case Hole(t, id, h, _, r) =>
      WeightDoc(r, content);
      WeightHead(t, |h|, content);
      WeightBlock(id, content);
      WeightAppend(Sy([t]) + Sy(Encode(|h|)) + [K(id)], DocSyms(r), content);
      WeightAppend(Sy([t]) + Sy(Encode(|h|)), [K(id)], content);
    case Sub(t, i, r) =>
      WeightDoc(i, content);
      WeightDoc(r, content);
      WeightHead(t, |Text(i)|, content);
      WeightAppend(Sy([t]) + Sy(Encode(|Text(i)|)) + DocSyms(i), DocSyms(r), content);
      WeightAppend(Sy([t]) + Sy(Encode(|Text(i)|)), DocSyms(i), content);
  }

  lemma WeightHead(t: byte, n: nat, content: Id -> bytes)
    ensures Weight(Sy([t]) + Sy(Encode(n)), content) == 1 + Width(n)
    ensures Weight(Sy([t]), content) == 1
  {
    hide Encode;
    WeightBytes([t], content);
    WeightBytes(Encode(n), content);
    WeightAppend(Sy([t]), Sy(Encode(n)), content);
  }

  lemma WeightBlock(id: Id, content: Id -> bytes)
    ensures Weight([K(id)], content) == |content(id)|
  {
    assert [K(id)][1..] == [];
  }

  function FlattenWriter(w: Writer): seq<Sym> {
    Flatten(w.done) + Sy(w.open)
  }

  lemma FlattenWrite(w: Writer, b: bytes)
    ensures FlattenWriter(Write(w, b)) == FlattenWriter(w) + Sy(b)
  {
    SyAppend(w.open, b);
  }

  lemma FlattenCut(w: Writer, id: Id, chain: seq<nat>)
    ensures FlattenWriter(Cut(w, id, chain)) == FlattenWriter(w) + [K(id)]
  {
    var part, ref := [Part(w.open)], [Ref(id, chain)];
    FlattenAppend(w.done, part + ref);
    FlattenAppend(part, ref);
    assert part[1..] == [] && ref[1..] == [];
    assert Flatten(part) == Sy(w.open) && Flatten(ref) == [K(id)];
    assert part + ref == [Part(w.open), Ref(id, chain)];
    assert Sy([]) == [];
  }

  lemma Regrouped<T>(before: seq<T>, a: seq<T>, b: seq<T>, c: seq<T>, after: seq<T>)
    ensures (((before + a) + b) + c) + after == before + (((a + b) + c) + after)
    ensures (before + a) + after == before + (a + after)
    ensures before + (a + b) == (before + a) + b
  {
  }

  lemma {:induction false} LayFlattens(d: Doc, chain: seq<nat>, pos: nat, w: Writer)
    ensures FlattenWriter(Lay(d, chain, pos, w)) == FlattenWriter(w) + DocSyms(d)
  {
    hide Encode, FlattenWriter;
    var before := FlattenWriter(w);
    match d
    case End =>
    case Raw(b, r) =>
      FlattenWrite(w, b);
      LayFlattens(r, chain, pos + |b|, Write(w, b));
      Regrouped(before, Sy(b), [], [], DocSyms(r));
    case Hole(t, id, h, _, r) =>
      var w0 := Write(w, [t] + Encode(|h|));
      FlattenWrite(w, [t] + Encode(|h|));
      SyAppend([t], Encode(|h|));
      FlattenCut(w0, id, chain + [pos + 1]);
      LayFlattens(r, chain, pos + RecordSize(|h|), Cut(w0, id, chain + [pos + 1]));
      Regrouped(before, Sy([t]), Sy(Encode(|h|)), [K(id)], DocSyms(r));
    case Sub(t, i, r) =>
      var w0 := Write(w, [t] + Encode(|Text(i)|));
      FlattenWrite(w, [t] + Encode(|Text(i)|));
      SyAppend([t], Encode(|Text(i)|));
      LayFlattens(i, chain + [pos + 1], Inside(i, pos), w0);
      LayFlattens(r, chain, pos + RecordSize(|Text(i)|), Lay(i, chain + [pos + 1], Inside(i, pos), w0));
      Regrouped(before, Sy([t]), Sy(Encode(|Text(i)|)), DocSyms(i), DocSyms(r));
  }

  lemma DirectoryFlattens(d: Doc)
    ensures Flatten(DirectoryOf(d)) == DocSyms(d)
  {
    hide Lay, DocSyms, Flatten, FlattenWriter;
    LayFlattens(d, [], 0, EMPTY);
    FlattenClose(EMPTY);
    FlattenClose(Lay(d, [], 0, EMPTY));
    FlattenNothing();
    assert [] + DocSyms(d) == DocSyms(d);
  }

  lemma FlattenClose(w: Writer)
    ensures Flatten(Close(w)) == FlattenWriter(w)
  {
    FlattenAppend(w.done, [Part(w.open)]);
    assert [Part(w.open)][1..] == [];
    assert Sy(w.open) + [] == Sy(w.open);
  }

  lemma FlattenNothing()
    ensures FlattenWriter(EMPTY) == []
  {
  }

  // -------------------------------------------------------------------- editing

  /** The symbols from the end of the varint that begins them. */
  function PastVarint(syms: seq<Sym>): seq<Sym> {
    if syms == [] then []
    else if syms[0].B? && syms[0].b >= 128 then PastVarint(syms[1..])
    else syms[1..]
  }

  /** The varint at position `p` of the expanded stream replaced by `v`. */
  function Edit(syms: seq<Sym>, p: nat, v: nat, content: Id -> bytes): seq<Sym>
    decreases syms
  {
    if syms == [] then []
    else match syms[0]
      case B(_) =>
        if p == 0 then Sy(Encode(v)) + PastVarint(syms) else [syms[0]] + Edit(syms[1..], p - 1, v, content)
      case K(id) =>
        if p < |content(id)| then syms else [syms[0]] + Edit(syms[1..], p - |content(id)|, v, content)
  }

  lemma {:induction false} PastEncoded(n: nat, post: seq<Sym>)
    ensures PastVarint(Sy(Encode(n)) + post) == post
  {
    var syms := Sy(Encode(n)) + post;
    assert syms[0] == B(Encode(n)[0]);
    if n < 128 {
      assert syms[1..] == post;
    } else {
      assert syms[1..] == Sy(Encode(n / 128)) + post;
      PastEncoded(n / 128, post);
    }
  }

  /** `syms` has a varint at position `p`. */
  ghost predicate VarintIn(syms: seq<Sym>, p: nat, pre: seq<Sym>, n: nat, post: seq<Sym>, content: Id -> bytes) {
    syms == pre + Sy(Encode(n)) + post && Weight(pre, content) == p
  }

  lemma {:induction false} EditReplaces(syms: seq<Sym>, p: nat, v: nat, pre: seq<Sym>, n: nat, post: seq<Sym>,
                                        content: Id -> bytes)
    requires VarintIn(syms, p, pre, n, post, content)
    ensures Edit(syms, p, v, content) == pre + Sy(Encode(v)) + post
    decreases pre
  {
    hide Encode;
    if pre == [] {
      assert syms == Sy(Encode(n)) + post;
      assert syms[0] == Sy(Encode(n))[0];
      PastEncoded(n, post);
    } else {
      var old_, new_ := Sy(Encode(n)), Sy(Encode(v));
      assert syms[1..] == pre[1..] + old_ + post;
      assert syms[0] == pre[0];
      EditReplaces(syms[1..], p - (if pre[0].B? then 1 else |content(pre[0].id)|), v, pre[1..], n, post, content);
      Around([pre[0]], pre[1..], new_, post);
      assert pre == [pre[0]] + pre[1..];
      assert [pre[0]] + (pre[1..] + new_ + post) == pre + new_ + post;
    }
  }

  /** The edits in a list, the last of the list first. */
  function EditAll(syms: seq<Sym>, list: seq<(nat, nat)>, content: Id -> bytes): seq<Sym> {
    if list == [] then syms else Edit(EditAll(syms, list[1..], content), list[0].0, list[0].1, content)
  }

  /** Every edit of the list, when its turn comes, meets a varint. */
  ghost predicate Editable(syms: seq<Sym>, list: seq<(nat, nat)>, content: Id -> bytes) {
    list != [] ==>
      && Editable(syms, list[1..], content)
      && exists pre, n, post :: VarintIn(EditAll(syms, list[1..], content), list[0].0, pre, n, post, content)
  }

  lemma {:induction false} EditAllAppend(syms: seq<Sym>, a: seq<(nat, nat)>, b: seq<(nat, nat)>, content: Id -> bytes)
    ensures EditAll(syms, a + b, content) == EditAll(EditAll(syms, b, content), a, content)
    ensures Editable(syms, b, content) && Editable(EditAll(syms, b, content), a, content) ==> Editable(syms, a + b, content)
  {
    if a == [] {
      assert a + b == b;
    } else {
      assert (a + b)[1..] == a[1..] + b;
      EditAllAppend(syms, a[1..], b, content);
    }
  }

  lemma {:induction false} EditableTail(syms: seq<Sym>, list: seq<(nat, nat)>, i: nat, content: Id -> bytes)
    requires Editable(syms, list, content) && i <= |list|
    ensures Editable(syms, list[i..], content)
  {
    if i > 0 {
      EditableTail(syms, list[1..], i - 1, content);
      assert list[1..][i - 1..] == list[i..];
    } else {
      assert list[0..] == list;
    }
  }

  /** The lengths every varint above a hole must state instead, in preorder. */
  function NewLengths(d: Doc, pos: nat): seq<(nat, nat)> {
    match d
    case End => []
    case Raw(b, r) => NewLengths(r, pos + |b|)
    case Hole(_, _, h, th, r) => [(pos + 1, |th|)] + NewLengths(r, pos + RecordSize(|h|))
    case Sub(_, i, r) =>
      (if Bearing(i) then [(pos + 1, |Text(Flip(i))|)] + NewLengths(i, Inside(i, pos)) else [])
      + NewLengths(r, pos + RecordSize(|Text(i)|))
  }

  ghost predicate Exchanged(syms: seq<Sym>, list: seq<(nat, nat)>, result: seq<Sym>, content: Id -> bytes) {
    Editable(syms, list, content) && EditAll(syms, list, content) == result
  }

  lemma ExchangedAppend(x: seq<Sym>, a: seq<(nat, nat)>, y: seq<Sym>, b: seq<(nat, nat)>, z: seq<Sym>, content: Id -> bytes)
    requires Exchanged(x, b, y, content) && Exchanged(y, a, z, content)
    ensures Exchanged(x, a + b, z, content)
  {
    EditAllAppend(x, a, b, content);
  }

  lemma ExchangeOne(pre: seq<Sym>, here: nat, there: nat, post: seq<Sym>, content: Id -> bytes)
    ensures Exchanged(pre + Sy(Encode(here)) + post, [(Weight(pre, content), there)], pre + Sy(Encode(there)) + post, content)
  {
    hide Encode;
    var syms, list := pre + Sy(Encode(here)) + post, [(Weight(pre, content), there)];
    assert list[1..] == [];
    assert EditAll(syms, list[1..], content) == syms;
    assert VarintIn(EditAll(syms, list[1..], content), list[0].0, pre, here, post, content);
    EditReplaces(syms, Weight(pre, content), there, pre, here, post, content);
    assert Editable(syms, list[1..], content);
    assert EditAll(syms, list, content) == Edit(syms, Weight(pre, content), there, content);
    assert Editable(syms, list, content);
  }

  /**
    Edits from the right to the left, each at its position in the original stream, are the
    exchange of all lengths at once, whatever stands before and after.
    */
  lemma {:induction false} EditsExchange(d: Doc, pre: seq<Sym>, post: seq<Sym>, content: Id -> bytes)
    requires Holds(d, content)
    ensures Exchanged(pre + DocSyms(d) + post, NewLengths(d, Weight(pre, content)), pre + DocSyms(Flip(d)) + post, content)
    decreases d
  {
    hide Encode, Exchanged, Weight, Sy;
    match d
    case End => ExchangeNone(pre + [] + post, content);
    case Raw(b, r) =>
      WeightBytes(b, content);
      WeightAppend(pre, Sy(b), content);
      EditsExchange(r, pre + Sy(b), post, content);
      Around(pre, Sy(b), DocSyms(r), post);
      Around(pre, Sy(b), DocSyms(Flip(r)), post);
    case Hole(t, id, h, th, r) => EditsExchangeHole(t, id, h, th, r, pre, post, content);
    case Sub(t, i, r) => EditsExchangeSub(t, i, r, pre, post, content);
  }

  lemma Around<T>(a: seq<T>, b: seq<T>, c: seq<T>, d: seq<T>)
    ensures a + (b + c) + d == (a + b) + c + d
  {
  }

  lemma ExchangeNone(x: seq<Sym>, content: Id -> bytes)
    ensures Exchanged(x, [], x, content)
  {
  }

  lemma Assoc<T>(a: seq<T>, t: seq<T>, h: seq<T>, k: seq<T>, r: seq<T>, p: seq<T>)
    ensures a + (t + h + k + r) + p == (((a + t) + h) + k) + r + p
    ensures a + (t + h + k + r) + p == (a + t) + h + (k + r + p)
    ensures a + (t + h + k + r) + p == ((a + t) + h) + k + (r + p)
    ensures a + (t + h + k + r) + p == (a + t) + h + (k + (r + p))
  {
    assert (k + r) + p == k + (r + p);
  }

  lemma {:induction false} EditsExchangeHole(t: byte, id: Id, h: bytes, th: bytes, r: Doc, pre: seq<Sym>,
                                             post: seq<Sym>, content: Id -> bytes)
    requires Holds(Hole(t, id, h, th, r), content)
    ensures var d := Hole(t, id, h, th, r);
      Exchanged(pre + DocSyms(d) + post, NewLengths(d, Weight(pre, content)), pre + DocSyms(Flip(d)) + post, content)
    decreases Hole(t, id, h, th, r), 0
  {
    hide Encode, Exchanged, Weight, Sy;
    var here, there, k := Sy(Encode(|h|)), Sy(Encode(|th|)), [K(id)];
    var left := pre + Sy([t]);
    var pre' := (left + here) + k;
    WeightHead(t, |h|, content);
    WeightBlock(id, content);
    WeightAppend(pre, Sy([t]), content);
    WeightAppend(pre, Sy([t]) + here, content);
    assert pre + (Sy([t]) + here) == left + here;
    WeightAppend(left + here, k, content);
    EditsExchange(r, pre', post, content);
    var post' := k + DocSyms(Flip(r)) + post;
    Assoc(pre, Sy([t]), here, k, DocSyms(r), post);
    Assoc(pre, Sy([t]), here, k, DocSyms(Flip(r)), post);
    Assoc(pre, Sy([t]), there, k, DocSyms(Flip(r)), post);
    ExchangeOne(left, |h|, |th|, post', content);
    ExchangedAppend(pre' + DocSyms(r) + post, [(Weight(left, content), |th|)], left + here + post',
                    NewLengths(r, Weight(pre', content)), left + there + post', content);
  }

  lemma {:induction false} EditsExchangeSub(t: byte, i: Doc, r: Doc, pre: seq<Sym>, post: seq<Sym>, content: Id -> bytes)
    requires Holds(Sub(t, i, r), content)
    ensures var d := Sub(t, i, r);
      Exchanged(pre + DocSyms(d) + post, NewLengths(d, Weight(pre, content)), pre + DocSyms(Flip(d)) + post, content)
    decreases Sub(t, i, r), 0
  {
    hide Encode, Exchanged, Weight, Sy, Text, Bearing;
    var i', r', pos := Flip(i), Flip(r), Weight(pre, content);
    var here, there := Sy(Encode(|Text(i)|)), Sy(Encode(|Text(i')|));
    var left := pre + Sy([t]);
    var inside := left + here;
    var pre' := inside + DocSyms(i);
    WeightHead(t, |Text(i)|, content);
    WeightDoc(i, content);
    WeightAppend(pre, Sy([t]), content);
    WeightAppend(pre, Sy([t]) + here, content);
    assert pre + (Sy([t]) + here) == inside;
    WeightAppend(inside, DocSyms(i), content);
    EditsExchange(r, pre', post, content);
    Assoc(pre, Sy([t]), here, DocSyms(i), DocSyms(r), post);
    Assoc(pre, Sy([t]), here, DocSyms(i), DocSyms(r'), post);
    if Bearing(i) {
      EditsExchange(i, inside, DocSyms(r') + post, content);
      Assoc(pre, Sy([t]), here, DocSyms(i'), DocSyms(r'), post);
      Assoc(pre, Sy([t]), there, DocSyms(i'), DocSyms(r'), post);
      ExchangeOne(left, |Text(i)|, |Text(i')|, DocSyms(i') + (DocSyms(r') + post), content);
      ExchangeThree(pre' + DocSyms(r) + post, [(pos + 1, |Text(i')|)], NewLengths(i, Inside(i, pos)),
                    NewLengths(r, Weight(pre', content)), inside + DocSyms(i) + (DocSyms(r') + post),
                    inside + DocSyms(i') + (DocSyms(r') + post),
                    left + there + (DocSyms(i') + (DocSyms(r') + post)), content);
    } else {
      NoHoles(i);
      assert NewLengths(Sub(t, i, r), pos) == NewLengths(r, Weight(pre', content));
    }
  }

  lemma ExchangeThree(x: seq<Sym>, a: seq<(nat, nat)>, b: seq<(nat, nat)>, c: seq<(nat, nat)>,
                      y: seq<Sym>, z: seq<Sym>, u: seq<Sym>, content: Id -> bytes)
    requires Exchanged(x, c, y, content) && Exchanged(y, b, z, content) && Exchanged(z, a, u, content)
    ensures Exchanged(x, (a + b) + c, u, content)
  {
    hide Exchanged;
    ExchangedAppend(x, b, y, c, z, content);
    ExchangedAppend(x, a, z, b + c, u, content);
    assert a + (b + c) == (a + b) + c;
  }
}
