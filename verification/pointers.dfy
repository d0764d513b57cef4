/**
  Block pointers: hashes with the type of the algorithm each was made with, spelled
  out or inherited from the pointers around.
  */
module Pointers {
  import opened Bytes
  import opened Varint
  import opened Documents
  import opened WireFormat

  /** `Buffer.Block.Hash`; an empty type means the type is omitted. */
  datatype Hash = Hash(kind: bytes, value: bytes)

  type Pointer = seq<Hash>

  // -------------------------------------------------------------- resolution

  /** The type of hash `i`: its own, or else the one inherited for that index. */
  function TypeAt(p: Pointer, inherited: seq<bytes>, i: nat): Option<bytes>
    requires i < |p|
  {
    if p[i].kind != [] then Some(p[i].kind)
    else if i < |inherited| && inherited[i] != [] then Some(inherited[i])
    else None
  }

  predicate Resolvable(p: Pointer, inherited: seq<bytes>) {
    forall i | 0 <= i < |p| :: TypeAt(p, inherited, i).Some?
  }

  function Types(p: Pointer, inherited: seq<bytes>): (r: seq<bytes>)
    requires Resolvable(p, inherited)
    ensures |r| == |p|
  {
    seq(|p|, i requires 0 <= i < |p| => TypeAt(p, inherited, i).value)
  }

  /** `resolve_hash_types`: None is the HashTypeError. */
  method ResolveHashTypes(p: Pointer, inherited: seq<bytes>) returns (r: Option<seq<bytes>>)
    ensures r.Some? <==> forall i | 0 <= i < |p| :: p[i].kind != [] || (i < |inherited| && inherited[i] != [])
    ensures r.Some? ==> |r.value| == |p|
    ensures r.Some? ==>
      forall i | 0 <= i < |p| :: r.value[i] == (if p[i].kind != [] then p[i].kind else inherited[i])
    ensures r.Some? <==> Resolvable(p, inherited)
    ensures r.Some? ==> r.value == Types(p, inherited)
  {
    var resolved: seq<bytes> := [];
    var index := 0;
    while index < |p|
      invariant 0 <= index <= |p| && |resolved| == index
      invariant forall i | 0 <= i < index :: TypeAt(p, inherited, i) == Some(resolved[i])
    {
      if p[index].kind != [] {
        resolved := resolved + [p[index].kind];
      } else if index < |inherited| && inherited[index] != [] {
        resolved := resolved + [inherited[index]];
      } else {
        assert TypeAt(p, inherited, index) == None;
        assert p[index].kind == [];
        return None;
      }
      index := index + 1;
    }
    forall i | 0 <= i < |p| ensures p[i].kind != [] || (i < |inherited| && inherited[i] != []) {
      assert TypeAt(p, inherited, i).Some?;
    }
    return Some(resolved);
  }

  /** `inherit_hash_types`: the context inside the block a resolved pointer names. */
  function InheritHashTypes(resolved: seq<bytes>, inherited: seq<bytes>): seq<bytes> {
    resolved + (if |resolved| <= |inherited| then inherited[|resolved|..] else [])
  }

  /** The context below a chain of enclosing pointers, outermost first. */
  function ContextBelow(around: seq<seq<bytes>>): seq<bytes> {
    if around == [] then []
    else InheritHashTypes(around[|around| - 1], ContextBelow(around[..|around| - 1]))
  }

  /** Index by index, the nearest enclosing pointer that reaches the index answers for it. */
  lemma {:induction false} NearestAnswers(around: seq<seq<bytes>>, near: nat, i: nat)
    requires near < |around| && i < |around[near]|
    requires forall k | near < k < |around| :: |around[k]| <= i
    ensures i < |ContextBelow(around)| && ContextBelow(around)[i] == around[near][i]
  {
    if near < |around| - 1 {
      NearestAnswers(around[..|around| - 1], near, i);
    }
  }

  /** An index no enclosing pointer reaches is not answered. */
  lemma {:induction false} NobodyAnswers(around: seq<seq<bytes>>, i: nat)
    requires forall k | 0 <= k < |around| :: |around[k]| <= i
    ensures |ContextBelow(around)| <= i
  {
    if around != [] {
      NobodyAnswers(around[..|around| - 1], i);
    }
  }

  // ------------------------------------------------------------------ identity

  /** The first hash under the registry's own algorithm. */
  function FirstOfType(p: Pointer, types: seq<bytes>, hashType: bytes): Option<Id>
    requires |types| == |p|
  {
    if p == [] then None
    else if types[0] == hashType then Some(p[0].value)
    else FirstOfType(p[1..], types[1..], hashType)
  }

  /** `block_id_from_pointer`: the registry id a pointer names in its context, if any. */
  function BlockId(p: Pointer, inherited: seq<bytes>, hashType: bytes): Option<Id> {
    if Resolvable(p, inherited) then FirstOfType(p, Types(p, inherited), hashType) else None
  }

  /** Hash `k` was made with algorithm `t`: it says so, or says nothing and inherits it by position. */
  predicate MadeWith(p: Pointer, inherited: seq<bytes>, k: nat, t: bytes)
    requires k < |p|
  {
    t != [] && (p[k].kind == t || (p[k].kind == [] && k < |inherited| && inherited[k] == t))
  }

  /** Every hash has a type, and the first one made with `t`, wherever it stands, has the value `v`. */
  ghost predicate Names(p: Pointer, inherited: seq<bytes>, t: bytes, v: Id) {
    && (forall i | 0 <= i < |p| :: p[i].kind != [] || (i < |inherited| && inherited[i] != []))
    && exists k :: 0 <= k < |p| && p[k].value == v && MadeWith(p, inherited, k, t)
         && forall j | 0 <= j < k :: !MadeWith(p, inherited, j, t)
  }

  lemma {:induction false} FirstIs(p: Pointer, types: seq<bytes>, t: bytes, k: nat)
    requires |types| == |p| && k <= |p| && (forall j | 0 <= j < k :: types[j] != t)
    ensures FirstOfType(p, types, t) == if k == |p| then None else if types[k] == t then Some(p[k].value)
                                        else FirstOfType(p[k..], types[k..], t)
    decreases k
  {
    if k > 0 {
      var p', types' := p[1..], types[1..];
      assert forall j | 0 <= j < k - 1 :: types'[j] == types[j + 1];
      FirstIs(p', types', t, k - 1);
      if k < |p| { assert p'[k - 1..] == p[k..] && types'[k - 1..] == types[k..]; }
    } else if p != [] {
      assert p[0..] == p && types[0..] == types;
    }
  }

  lemma {:induction false} FirstHit(types: seq<bytes>, t: bytes) returns (k: nat)
    ensures k <= |types| && (forall j | 0 <= j < k :: types[j] != t) && (k < |types| ==> types[k] == t)
  {
    k := 0;
    if types != [] && types[0] != t {
      var rest := FirstHit(types[1..], t);
      assert forall j | 0 < j <= rest :: types[j] == types[1..][j - 1];
      k := rest + 1;
    }
  }

  /** `block_id_from_pointer` returns exactly the id named. */
  lemma BlockIdExactly(p: Pointer, inherited: seq<bytes>, t: bytes, v: Id)
    ensures BlockId(p, inherited, t) == Some(v) <==> Names(p, inherited, t, v)
  {
    if Resolvable(p, inherited) {
      var types := Types(p, inherited);
      forall i | 0 <= i < |p|
        ensures p[i].kind != [] || (i < |inherited| && inherited[i] != [])
        ensures MadeWith(p, inherited, i, t) <==> types[i] == t
      {
        assert TypeAt(p, inherited, i).Some?;
      }
      var k := FirstHit(types, t);
      FirstIs(p, types, t, k);
      if k < |p| { assert MadeWith(p, inherited, k, t); }
    } else {
      var i :| 0 <= i < |p| && TypeAt(p, inherited, i) == None;
    }
  }

  /** The same pointer with every type written out. */
  function SpelledOut(p: Pointer, inherited: seq<bytes>): Pointer
    requires Resolvable(p, inherited)
  {
    seq(|p|, i requires 0 <= i < |p| => Hash(TypeAt(p, inherited, i).value, p[i].value))
  }

  lemma {:induction false} SameValues(p: Pointer, q: Pointer, types: seq<bytes>, hashType: bytes)
    requires |p| == |q| == |types|
    requires forall i | 0 <= i < |p| :: p[i].value == q[i].value
    ensures FirstOfType(p, types, hashType) == FirstOfType(q, types, hashType)
  {
    if p != [] {
      SameValues(p[1..], q[1..], types[1..], hashType);
    }
  }

  /** Spelling the inherited types out changes no identity, in any context. */
  lemma SpellingIsInvisible(p: Pointer, inherited: seq<bytes>, elsewhere: seq<bytes>, hashType: bytes)
    requires Resolvable(p, inherited)
    ensures BlockId(SpelledOut(p, inherited), elsewhere, hashType) == BlockId(p, inherited, hashType)
  {
    var q := SpelledOut(p, inherited);
    forall i | 0 <= i < |q|
      ensures TypeAt(q, elsewhere, i) == TypeAt(p, inherited, i)
    {
      assert TypeAt(p, inherited, i).Some?;
      if p[i].kind == [] { assert inherited[i] != []; }
    }
    assert Types(q, elsewhere) == Types(p, inherited);
    SameValues(p, q, Types(p, inherited), hashType);
  }

  // ------------------------------------------------------------------ encoding

  const HASHES_TAG: byte := 0x0a
  const TYPE_TAG: byte := 0x0a
  const VALUE_TAG: byte := 0x12

  function HashBytes(h: Hash): bytes {
    (if h.kind == [] then [] else Record(TYPE_TAG, h.kind)) + (if h.value == [] then [] else Record(VALUE_TAG, h.value))
  }

  /** The serialization of a pointer (`Buffer.Block`, its `hashes` only). */
  function PointerBytes(p: Pointer): bytes {
    if p == [] then [] else Record(HASHES_TAG, HashBytes(p[0])) + PointerBytes(p[1..])
  }

  /** `Buffer.Block.Hash` as the format has it: 1 is the type and 2 the value, the last of each counts. */
  function HashFrom(fs: seq<Field>, h: Hash): Hash {
    if fs == [] then h
    else
      HashFrom(fs[1..],
               if !fs[0].value.Payload? then h
               else if fs[0].number == 1 then h.(kind := fs[0].value.content)
               else if fs[0].number == 2 then h.(value := fs[0].value.content)
               else h)
  }

  /** `Buffer.Block`: 1 is a hash, any number of them; other fields are not looked at. */
  function PointerFrom(fs: seq<Field>, most: nat): Option<Pointer> {
    if fs == [] then Some([])
    else
      match PointerFrom(fs[1..], most)
      case None => None
      case Some(rest) =>
        if fs[0].number == 1 && fs[0].value.Payload? then
          match FieldsOf(fs[0].value.content, most)
          case None => None
          case Some(inner) => Some([HashFrom(inner, Hash([], []))] + rest)
        else Some(rest)
  }

  /** The pointer that some bytes are, if they are one, varints having at most `most` bytes. */
  function ParsePointer(b: bytes, most: nat): Option<Pointer> {
    match FieldsOf(b, most)
    case None => None
    case Some(fs) => PointerFrom(fs, most)
  }

  lemma HashParses(h: Hash, most: nat)
    requires Width(|HashBytes(h)|) <= most
    ensures FieldsOf(HashBytes(h), most).Some? && HashFrom(FieldsOf(HashBytes(h), most).value, Hash([], [])) == h
  {
    hide Encode, FirstField;
    var kind := if h.kind == [] then [] else Record(TYPE_TAG, h.kind);
    var value := if h.value == [] then [] else Record(VALUE_TAG, h.value);
    WidthMonotone(|h.kind|, |HashBytes(h)|);
    WidthMonotone(|h.value|, |HashBytes(h)|);
    assert value + [] == value;
    if h.value != [] { RecordIsField(VALUE_TAG, h.value, [], most); }
    if h.kind != [] { RecordIsField(TYPE_TAG, h.kind, value, most); } else { assert [] + value == value; }
    var first := if h.kind == [] then [] else [Field(1, Payload(h.kind), 1, |kind|)];
    var second := if h.value == [] then [] else [Field(2, Payload(h.value), 1, |value|)];
    assert FieldsOf([], most) == Some([]);
    if h.value != [] { assert second + [] == second; }
    assert FieldsOf(value, most) == Some(second);
    if h.kind == [] { assert first + second == second; }
    assert FieldsOf(kind + value, most) == Some(first + second);
    HashIsFrom(h, first, second);
  }

  lemma HashIsFrom(h: Hash, first: seq<Field>, second: seq<Field>)
    requires if h.kind == [] then first == []
             else |first| == 1 && first[0].number == 1 && first[0].value == Payload(h.kind)
    requires if h.value == [] then second == []
             else |second| == 1 && second[0].number == 2 && second[0].value == Payload(h.value)
    ensures HashFrom(first + second, Hash([], [])) == h
  {
    var h' := Hash(h.kind, []);
    if second != [] { assert second[1..] == []; }
    assert HashFrom(second, h') == h;
    if first != [] {
      assert (first + second)[1..] == second && (first + second)[0] == first[0];
    } else {
      assert first + second == second;
    }
  }

  /** The bytes of a pointer are that pointer. */
  lemma {:induction false} PointerParses(p: Pointer, most: nat)
    requires Width(|PointerBytes(p)|) <= most
    ensures ParsePointer(PointerBytes(p), most) == Some(p)
  {
    hide Encode, FirstField, HashBytes;
    if p != [] {
      var rest := PointerBytes(p[1..]);
      WidthMonotone(|rest|, |PointerBytes(p)|);
      WidthMonotone(|HashBytes(p[0])|, |PointerBytes(p)|);
      PointerParses(p[1..], most);
      HashParses(p[0], most);
      RecordIsField(HASHES_TAG, HashBytes(p[0]), rest, most);
      var f := Field(1, Payload(HashBytes(p[0])), 1, |Record(HASHES_TAG, HashBytes(p[0]))|);
      var fs := FieldsOf(rest, most).value;
      assert ([f] + fs)[1..] == fs;
      assert [p[0]] + p[1..] == p;
    }
  }

  /** `block_pointer`: the one encoding the library writes. */
  function BlockPointer(id: Id, omitTypes: bool, hashType: bytes): Pointer {
    [Hash(if omitTypes then [] else hashType, id)]
  }

  /**
    What the library writes names its block: spelled out anywhere, and in the omitted
    form exactly where the first inherited type is the registry's own.
    */
  lemma WrittenPointerNames(id: Id, hashType: bytes, inherited: seq<bytes>)
    requires hashType != []
    ensures BlockId(BlockPointer(id, false, hashType), inherited, hashType) == Some(id)
    ensures BlockId(BlockPointer(id, true, hashType), inherited, hashType) == Some(id)
      <==> |inherited| > 0 && inherited[0] == hashType
  {
    var p, q := BlockPointer(id, false, hashType), BlockPointer(id, true, hashType);
    assert TypeAt(p, inherited, 0) == Some(hashType);
    assert Resolvable(p, inherited) && Types(p, inherited) == [hashType];
    if |inherited| > 0 && inherited[0] != [] {
      assert TypeAt(q, inherited, 0) == Some(inherited[0]);
      assert Resolvable(q, inherited) && Types(q, inherited) == [inherited[0]];
      assert FirstOfType(q[1..], Types(q, inherited)[1..], hashType) == None;
    } else {
      assert TypeAt(q, inherited, 0) == None;
    }
  }
}
