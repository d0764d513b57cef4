/**
  `generate_wbp_file`: from a multiblock directory back to the message with block
  pointers, by rewriting the length varints of its parts in place.
  */
module Driver {
  import opened Bytes
  import opened Varint
  import opened Documents
  import opened Layouts
  import opened Stores
  import opened Symbols

  datatype DriverError =
    | InvalidBlock
    | CrossingChains
    | BadSeek(seeking: SeekError)
    | BadMeasure(measuring: MeasureError)
    | Invalid(position: nat)
    | PrunedTooLong(position: nat)
    | NoPointer(position: nat)
    | IndexError(position: nat)

  // ------------------------------------------------------------- varints in parts

  /** Position `p` is in part `j`, and a complete varint for `n` begins there. */
  ghost predicate StatesIn(s: Store, es: Directory, j: nat, p: nat, n: nat) {
    && j < |es| && InPart(s, es, j, p)
    && Encode(n) <= es[j].content[p - Offset(s, es, j)..]
  }

  ghost predicate StatesAt(s: Store, es: Directory, p: nat, n: nat) {
    exists j :: StatesIn(s, es, j, p, n)
  }

  lemma SamePart(s: Store, es: Directory, i: nat, j: nat, p: nat)
    requires i < |es| && j < |es| && InPart(s, es, i, p) && InPart(s, es, j, p)
    ensures i == j
  {
    hide Offset;
    OffsetStep(s, es, i);
    OffsetStep(s, es, j);
    if i < j { OffsetMonotone(s, es, i + 1, j); }
    if j < i { OffsetMonotone(s, es, j + 1, i); }
  }

  /** What stands at a position is one number. */
  lemma StatesOnce(s: Store, es: Directory, p: nat, m: nat, n: nat)
    requires StatesAt(s, es, p, m) && StatesAt(s, es, p, n)
    ensures m == n
  {
    hide Encode, Offset;
    var i: nat :| StatesIn(s, es, i, p, m);
    var j: nat :| StatesIn(s, es, j, p, n);
    SamePart(s, es, i, j, p);
    var b := es[i].content[p - Offset(s, es, i)..];
    assert b == Encode(m) + b[|Encode(m)|..] && b == Encode(n) + b[|Encode(n)|..];
    DecodeEncode(m, b[|Encode(m)|..]);
    DecodeEncode(n, b[|Encode(n)|..]);
  }

  /** Where parts and blocks take turns, a varint of the stream's symbols lies in one part. */
  lemma {:induction false} FindVarint(s: Store, es: Directory, pre: seq<Sym>, n: nat, post: seq<Sym>) returns (j: nat)
    requires Alternates(es) && Flatten(es) == pre + Sy(Encode(n)) + post
    ensures StatesIn(s, es, j, Weight(pre, Contents(s)), n)
    decreases |es|
  {
    hide Encode;
    var b := es[0].content;
    VarintBytes(es, pre, n, post);
    if |pre| < |b| {
      FirstPart(s, es, pre, n, post);
      j := 0;
    } else {
      var rest, pre' := es[2..], pre[|b| + 1..];
      var head := Sy(b) + [K(es[1].id)];
      SplitHead(es, pre, n, post);
      var j' := FindVarint(s, rest, pre', n, post);
      j := j' + 2;
      WeightAppend(head, pre', Contents(s));
      WeightAppend(Sy(b), [K(es[1].id)], Contents(s));
      WeightBytes(b, Contents(s));
      WeightBlock(es[1].id, Contents(s));
      ShiftOffset(s, es, j');
    }
  }

  /** The varint's symbols are bytes, and the first part ends at a block or at the end. */
  lemma VarintBytes(es: Directory, pre: seq<Sym>, n: nat, post: seq<Sym>)
    requires Alternates(es) && Flatten(es) == pre + Sy(Encode(n)) + post
    ensures forall k | |pre| <= k < |pre| + Width(n) :: Flatten(es)[k] == B(Encode(n)[k - |pre|])
    ensures |pre| < |es[0].content| ==> |pre| + Width(n) <= |es[0].content|
    ensures |pre| >= |es[0].content| ==> |es| > 1 && |pre| > |es[0].content|
  {
    hide Encode;
    var b, more := es[0].content, Flatten(es[1..]);
    forall k | |pre| <= k < |pre| + Width(n)
      ensures Flatten(es)[k] == B(Encode(n)[k - |pre|])
    {
      assert Flatten(es)[k] == Sy(Encode(n))[k - |pre|];
    }
    assert |es| == 1 ==> |Flatten(es)| == |b|;
    if |es| > 1 {
      assert Flatten(es)[|b|] == more[0] == K(es[1].id);
    }
  }

  lemma FirstPart(s: Store, es: Directory, pre: seq<Sym>, n: nat, post: seq<Sym>)
    requires Alternates(es) && Flatten(es) == pre + Sy(Encode(n)) + post
    requires |pre| + Width(n) <= |es[0].content|
    ensures StatesIn(s, es, 0, Weight(pre, Contents(s)), n)
  {
    hide Encode;
    var b := es[0].content;
    VarintBytes(es, pre, n, post);
    assert es[..0] == [];
    assert Offset(s, es, 0) == 0;
    assert pre == Sy(b[..|pre|]) by {
      forall k | 0 <= k < |pre| ensures pre[k] == B(b[k]) { assert Flatten(es)[k] == pre[k]; }
    }
    WeightBytes(b[..|pre|], Contents(s));
    forall k | 0 <= k < Width(n)
      ensures b[|pre|..][k] == Encode(n)[k]
    {
      assert Flatten(es)[|pre| + k] == Sy(b)[|pre| + k];
    }
  }

  lemma SplitHead(es: Directory, pre: seq<Sym>, n: nat, post: seq<Sym>)
    requires Alternates(es) && |es| > 1 && Flatten(es) == pre + Sy(Encode(n)) + post && |pre| > |es[0].content|
    ensures var head := Sy(es[0].content) + [K(es[1].id)];
      pre == head + pre[|head|..] && Flatten(es[2..]) == pre[|head|..] + Sy(Encode(n)) + post
  {
    hide Encode;
    var head, rest := Sy(es[0].content) + [K(es[1].id)], Flatten(es[2..]);
    assert es[1..][1..] == es[2..];
    assert Flatten(es) == head + rest;
    assert pre[..|head|] == Flatten(es)[..|head|] == head;
    assert rest == Flatten(es)[|head|..];
  }

  lemma ShiftOffset(s: Store, es: Directory, j: nat)
    requires |es| > 1 && es[0].Part? && es[1].Ref? && j < |es| - 2
    ensures Offset(s, es, j + 2) == |es[0].content| + |Expansion(s, es[1].id)| + Offset(s, es[2..], j)
    ensures es[j + 2] == es[2..][j]
  {
    var two := [es[0], es[1]];
    assert es[..j + 2] == two + es[2..][..j];
    FillAppend(two, es[2..][..j], Contents(s));
    assert two[1..] == [es[1]] && two[1..][1..] == [];
    assert Fill([es[1]], Contents(s)) == Contents(s)(es[1].id) + Fill([], Contents(s));
  }

  /** Reading a varint that lies in one part gives its value. */
  method ReadLength(s: Store, es: Directory, position: nat, ghost f: Flow) returns (r: Result<nat, DriverError>)
    ensures Realizes(s, es, f) ==> (r.Ok? <==> position < |Content(f)|)
    ensures Realizes(s, es, f) ==> forall n: nat :: StatesAt(s, es, position, n) ==> r == Ok(n)
  {
    hide Encode, Fill, Realizes;
    var v := GetVarintAtPosition(s, es, position, f);
    if Realizes(s, es, f) {
      forall n: nat | StatesAt(s, es, position, n)
        ensures v == Ok(n)
      {
        var j: nat :| StatesIn(s, es, j, position, n);
        var suffix := es[j].content[position - Offset(s, es, j)..];
        assert suffix == Encode(n) + suffix[Width(n)..];
        ReadersAgree(n, suffix[Width(n)..]);
      }
    }
    match v {
      case Err(e) => return Err(BadSeek(e));
      case Ok(n) => return Ok(n);
    }
  }

  // --------------------------------------------------------------- editing in place

  /** One byte of a varint passed. */
  lemma DecodeStep(s: bytes, i: nat)
    requires i <= |s|
    ensures i == |s| ==> Decode(s[i..]) == None
    ensures i < |s| && s[i] < 128 ==> Decode(s[i..]) == Some(Read(s[i], 1))
    ensures i < |s| && s[i] >= 128 ==> (Decode(s[i..]).Some? <==> Decode(s[i + 1..]).Some?)
    ensures i < |s| && s[i] >= 128 && Decode(s[i..]).Some? ==>
      Decode(s[i..]).value.width == Decode(s[i + 1..]).value.width + 1
  {
    if i < |s| { assert s[i..][1..] == s[i + 1..]; }
  }

  /** `__set_varint_value`: None where the varint runs off the part (an IndexError). */
  method SetVarintInPart(buffer: bytes, varintPos: nat, newValue: nat) returns (r: Option<bytes>)
    requires varintPos < |buffer|
    ensures match Decode(buffer[varintPos..])
      case None => r == None
      case Some(was) => r == Some(buffer[..varintPos] + Encode(newValue) + buffer[varintPos + was.width..])
  {
    hide Encode, Decode;
    var varintBytes: bytes := [];
    var value := newValue;
    while true
      invariant varintBytes + Encode(value) == Encode(newValue)
      decreases value
    {
      EncodeStep(varintBytes, value);
      var b := value % 128;
      var next := value / 128;
      if next == 0 {
        varintBytes := varintBytes + [b];
        break;
      }
      varintBytes := varintBytes + [b + 128];
      value := next;
    }
    var original := buffer[varintPos..];
    var length := 0;
    while length < |original| && original[length] >= 128
      invariant 0 <= length <= |original|
      invariant Decode(original).Some? <==> Decode(original[length..]).Some?
      invariant Decode(original).Some? ==> Decode(original).value.width == length + Decode(original[length..]).value.width
    {
      DecodeStep(original, length);
      length := length + 1;
    }
    DecodeStep(original, length);
    if length == |original| {
      return None;
    }
    length := length + 1;
    return Some(buffer[..varintPos] + varintBytes + buffer[varintPos + length..]);
  }

  /** The same entries, parts rewritten. */
  ghost predicate SameShape(es: Directory, es': Directory) {
    |es| == |es'| && forall j | 0 <= j < |es| :: es[j].Part? == es'[j].Part? && (es[j].Ref? ==> es[j] == es'[j])
  }

  lemma {:induction false} ShapeAlternates(es: Directory, es': Directory)
    requires SameShape(es, es') && Alternates(es)
    ensures Alternates(es')
  {
    if |es| > 1 { ShapeAlternates(es[2..], es'[2..]); }
  }

  /** Replacing one part replaces its symbols. */
  lemma ReplacePart(es: Directory, j: nat, b: bytes)
    requires j < |es| && es[j].Part?
    ensures Flatten(es) == Flatten(es[..j]) + Sy(es[j].content) + Flatten(es[j + 1..])
    ensures Flatten(es[j := Part(b)]) == Flatten(es[..j]) + Sy(b) + Flatten(es[j + 1..])
    ensures SameShape(es, es[j := Part(b)])
  {
    var es' := es[j := Part(b)];
    assert es == es[..j] + [es[j]] + es[j + 1..];
    assert es' == es[..j] + [Part(b)] + es[j + 1..];
    FlattenAppend(es[..j] + [es[j]], es[j + 1..]);
    FlattenAppend(es[..j], [es[j]]);
    FlattenAppend(es[..j] + [Part(b)], es[j + 1..]);
    FlattenAppend(es[..j], [Part(b)]);
    assert [es[j]][1..] == [] && [Part(b)][1..] == [];
    assert Flatten([es[j]]) == Sy(es[j].content) && Flatten([Part(b)]) == Sy(b);
  }

  /** A rewritten part is the edit of the whole at that position. */
  lemma PartEdit(s: Store, es: Directory, j: nat, p: nat, n: nat, v: nat)
    requires StatesIn(s, es, j, p, n)
    ensures var o := p - Offset(s, es, j); var b := es[j].content;
      && Decode(b[o..]) == Some(Read(n, Width(n)))
      && Flatten(es[j := Part(b[..o] + Encode(v) + b[o + Width(n)..])]) == Edit(Flatten(es), p, v, Contents(s))
  {
    hide Encode, Edit, Flatten, Sy, Weight, VarintIn, Decode;
    var o, b, content := p - Offset(s, es, j), es[j].content, Contents(s);
    var rest := b[o + Width(n)..];
    assert b[o..] == Encode(n) + rest;
    DecodeEncode(n, rest);
    assert b == b[..o] + Encode(n) + rest;
    PartSymbols(es, j, b[..o], n, rest);
    PartSymbols(es, j, b[..o], v, rest);
    assert es[j := Part(b)] == es;
    var pre, post := Flatten(es[..j]) + Sy(b[..o]), Sy(rest) + Flatten(es[j + 1..]);
    WeightFlatten(es[..j], content);
    WeightBytes(b[..o], content);
    WeightAppend(Flatten(es[..j]), Sy(b[..o]), content);
    assert VarintIn(Flatten(es), p, pre, n, post, content) by { StatedThere(Flatten(es), p, pre, n, post, content); }
    EditReplaces(Flatten(es), p, v, pre, n, post, content);
  }

  lemma StatedThere(syms: seq<Sym>, p: nat, pre: seq<Sym>, n: nat, post: seq<Sym>, content: Id -> bytes)
    requires syms == pre + Sy(Encode(n)) + post && Weight(pre, content) == p
    ensures VarintIn(syms, p, pre, n, post, content)
  {
  }

  /** The symbols around a varint in a part. */
  lemma PartSymbols(es: Directory, j: nat, a: bytes, n: nat, c: bytes)
    requires j < |es| && es[j].Part?
    ensures Flatten(es[j := Part(a + Encode(n) + c)]) ==
            (Flatten(es[..j]) + Sy(a)) + Sy(Encode(n)) + (Sy(c) + Flatten(es[j + 1..]))
  {
    hide Encode, Flatten, Sy;
    var before, after := Flatten(es[..j]), Flatten(es[j + 1..]);
    ReplacePart(es, j, a + Encode(n) + c);
    SyThree(a, Encode(n), c);
    Assoc(before, Sy(a), Sy(Encode(n)), Sy(c), [], after);
    assert [] + after == after;
  }

  lemma SyThree(a: bytes, b: bytes, c: bytes)
    ensures Sy(a + b + c) == Sy(a) + Sy(b) + Sy(c) + []
  {
    SyAppend(a + b, c);
    SyAppend(a, b);
  }

  /** A whole varint stands at the position, in part `j`. */
  ghost predicate Standing(s: Store, es: Directory, j: nat, p: nat) {
    j < |es| && InPart(s, es, j, p) && Decode(es[j].content[p - Offset(s, es, j)..]).Some?
  }

  /** The entries with that varint replaced, and nothing else. */
  ghost function Replaced(s: Store, es: Directory, j: nat, p: nat, v: nat): Directory
    requires Standing(s, es, j, p)
  {
    var b, o := es[j].content, p - Offset(s, es, j);
    es[j := Part(b[..o] + Encode(v) + b[o + Decode(b[o..]).value.width..])]
  }

  ghost predicate Replaces(s: Store, es: Directory, p: nat, v: nat, es': Directory) {
    exists j: nat :: Standing(s, es, j, p) && es' == Replaced(s, es, j, p, v)
  }

  lemma NothingBefore(s: Store, es: Directory)
    ensures Offset(s, es, 0) == 0
  {
    assert es[..0] == [];
  }

  /** Where a varint can stand. */
  lemma StandsInPart(s: Store, es: Directory, j: nat, p: nat)
    ensures Standing(s, es, j, p) ==> j < |es| && InPart(s, es, j, p)
  {
  }

  /** The one part the position is in: a varint stands there, or none does. */
  lemma StandsHere(s: Store, es: Directory, j: nat, p: nat, v: nat, r: Option<bytes>)
    requires j < |es| && InPart(s, es, j, p)
    requires var b, o := es[j].content, p - Offset(s, es, j);
      match Decode(b[o..])
      case None => r == None
      case Some(was) => r == Some(b[..o] + Encode(v) + b[o + was.width..])
    ensures r.Some? <==> exists i: nat :: Standing(s, es, i, p)
    ensures r.Some? ==> Replaces(s, es, p, v, es[j := Part(r.value)])
  {
    hide Encode;
    forall i: nat | Standing(s, es, i, p) ensures i == j { SamePart(s, es, i, j, p); }
    if r.Some? { assert Standing(s, es, j, p); }
  }

  /** `set_varint_value`: one part of the buffer is rewritten, nothing else is touched. */
  method SetVarintValue(s: Store, buffer: array<Entry>, varintPos: nat, newValue: nat) returns (failure: Option<DriverError>)
    modifies buffer
    ensures SameShape(old(buffer[..]), buffer[..])
    ensures failure.Some? ==> buffer[..] == old(buffer[..])
    ensures Covered(s, old(buffer[..])) ==> (failure == None <==> exists j: nat :: Standing(s, old(buffer[..]), j, varintPos))
    ensures Covered(s, old(buffer[..])) && failure == None ==>
      Replaces(s, old(buffer[..]), varintPos, newValue, buffer[..])
    ensures Covered(s, old(buffer[..])) ==> forall n: nat :: StatesAt(s, old(buffer[..]), varintPos, n) ==>
      failure == None && Flatten(buffer[..]) == Edit(Flatten(old(buffer[..])), varintPos, newValue, Contents(s))
  {
    hide Encode, Decode, Edit, Flatten, Standing, Replaces, Whole, Expansion, Offset;
    var offset: nat := 0;
    ghost var es := buffer[..];
    var index := 0;
    NothingBefore(s, es);
    while index < buffer.Length
      invariant 0 <= index <= buffer.Length && buffer[..] == es
      invariant Covered(s, es) ==> offset == Offset(s, es, index)
      invariant Covered(s, es) ==> forall j: nat, n: nat :: StatesIn(s, es, j, varintPos, n) ==> j >= index
      invariant Covered(s, es) ==> forall j: nat :: Standing(s, es, j, varintPos) ==> j >= index
    {
      OffsetStep(s, es, index);
      StandsInPart(s, es, index, varintPos);
      assert buffer[index] == es[index];
      match buffer[index] {
        case Part(b) =>
          if offset <= varintPos < offset + |b| {
            var rewritten := SetVarintInPart(b, varintPos - offset, newValue);
            if Covered(s, es) {
              StandsHere(s, es, index, varintPos, newValue, rewritten);
              forall n: nat | StatesAt(s, es, varintPos, n)
                ensures StatesIn(s, es, index, varintPos, n)
              {
                var j: nat :| StatesIn(s, es, j, varintPos, n);
                OnlyEntry(s, es, index, varintPos);
              }
              forall n: nat | StatesIn(s, es, index, varintPos, n)
                ensures rewritten == Some(b[..varintPos - offset] + Encode(newValue) + b[varintPos - offset + Width(n)..])
                ensures Flatten(es[index := Part(rewritten.value)]) == Edit(Flatten(es), varintPos, newValue, Contents(s))
              {
                PartEdit(s, es, index, varintPos, n, newValue);
              }
            }
            match rewritten {
              case None =>
                return Some(IndexError(varintPos));
              case Some(b') =>
                ReplacePart(es, index, b');
                buffer[index] := Part(b');
                assert buffer[..] == es[index := Part(b')];
                return None;
            }
          }
          offset := offset + |b|;
        case Ref(id, _) =>
          assert es[index] in es;
          var size := GetSizeOfPath(s, id);
          match size {
            case Err(e) =>
              return Some(BadMeasure(e));
            case Ok(n) =>
              offset := offset + n;
          }
      }
      index := index + 1;
    }
    forall j: nat ensures Covered(s, es) ==> !Standing(s, es, j, varintPos) { StandsInPart(s, es, j, varintPos); }
    return Some(IndexError(varintPos));
  }
}
