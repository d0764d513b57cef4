/**
  The wire format of a protobuf message (Protocol Buffers Encoding, "Message Structure"):
  field after field, each with a tag that says its number and how it is written.
  */
module WireFormat {
  import opened Bytes
  import opened Varint

  datatype Value = Number(n: nat) | Fixed(data: bytes) | Payload(content: bytes)

  /** A field, the width of its tag, and that of the whole. */
  datatype Field = Field(number: nat, value: Value, tag: nat, width: nat)

  /** A varint of at most `most` bytes. */
  function VarintOf(b: bytes, most: nat): (r: Option<Read>)
    ensures r.Some? ==> 0 < r.value.width <= |b|
  {
    match Decode(b)
    case None => None
    case Some(v) => if v.width <= most then Some(v) else None
  }

  function FixedField(b: bytes, number: nat, tag: nat, size: nat): Option<Field>
    requires tag <= |b|
  {
    if tag + size > |b| then None else Some(Field(number, Fixed(b[tag..tag + size]), tag, tag + size))
  }

  /** The first field of some bytes, if they begin with one. Groups are not fields here. */
  function FirstField(b: bytes, most: nat): (r: Option<Field>)
    ensures r.Some? ==> 0 < r.value.tag <= r.value.width <= |b|
    ensures r.Some? && r.value.value.Payload? ==>
      var f, n := r.value, |r.value.value.content|;
      f.tag < f.width - n && f.value.content == b[f.width - n..f.width]
  {
    match VarintOf(b, most)
    case None => None
    case Some(t) =>
      var rest, number := b[t.width..], t.value / 8;
      match t.value % 8
      case 0 =>
        (match VarintOf(rest, most)
         case None => None
         case Some(v) => Some(Field(number, Number(v.value), t.width, t.width + v.width)))
      case 1 => FixedField(b, number, t.width, 8)
      case 5 => FixedField(b, number, t.width, 4)
      case 2 =>
        (match VarintOf(rest, most)
         case None => None
         case Some(v) =>
           var start := t.width + v.width;
           if start + v.value > |b| then None
           else Some(Field(number, Payload(b[start..start + v.value]), t.width, start + v.value)))
      case _ => None
  }

  /** All fields, if the bytes are a message. */
  function FieldsOf(b: bytes, most: nat): (r: Option<seq<Field>>)
    decreases |b|
  {
    if b == [] then Some([])
    else
      match FirstField(b, most)
      case None => None
      case Some(f) =>
        match FieldsOf(b[f.width..], most)
        case None => None
        case Some(fs) => Some([f] + fs)
  }

  // ------------------------------------------------------------------- what follows

  lemma {:induction false} DecodeCut(b: bytes, more: bytes)
    ensures Decode(b).Some? ==> Decode(b + more) == Decode(b)
    ensures Decode(b + more).Some? && Decode(b + more).value.width <= |b| ==> Decode(b) == Decode(b + more)
  {
    if b == [] {
      assert b + more == more;
    } else {
      assert (b + more)[0] == b[0];
      if b[0] >= 128 {
        assert (b + more)[1..] == b[1..] + more;
        DecodeCut(b[1..], more);
      }
    }
  }

  /** A field is read the same whatever follows it. */
  lemma FieldCut(b: bytes, more: bytes, most: nat)
    ensures FirstField(b, most).Some? ==> FirstField(b + more, most) == FirstField(b, most)
    ensures FirstField(b + more, most).Some? && FirstField(b + more, most).value.width <= |b| ==>
      FirstField(b, most) == FirstField(b + more, most)
  {
    hide Decode;
    DecodeCut(b, more);
    var t := VarintOf(b + more, most);
    if t.Some? && t.value.width <= |b| {
      var n := t.value.width;
      assert (b + more)[n..] == b[n..] + more;
      DecodeCut(b[n..], more);
      forall i, j | 0 <= i <= j <= |b| ensures (b + more)[i..j] == b[i..j] {}
    }
  }

  /** A length-delimited record is a field. */
  lemma RecordIsField(t: byte, payload: bytes, rest: bytes, most: nat)
    requires t < 128 && t % 8 == 2 && Width(|payload|) <= most
    ensures var record := [t] + Encode(|payload|) + payload; var f := Field(t / 8, Payload(payload), 1, |record|);
      && FirstField(record + rest, most) == Some(f)
      && (FieldsOf(rest, most).Some? ==> FieldsOf(record + rest, most) == Some([f] + FieldsOf(rest, most).value))
  {
    hide Encode, Width;
    var n := Encode(|payload|);
    var record := [t] + n + payload;
    var b := record + rest;
    assert b[0] == t && b[1..] == n + (payload + rest);
    DecodeEncode(|payload|, payload + rest);
    WidthIs(|payload|);
    assert b[1 + |n|..1 + |n| + |payload|] == payload;
    assert b[|record|..] == rest;
    assert b != [];
  }

  lemma WidthIs(n: nat)
    ensures Width(n) == |Encode(n)| >= 1
  {
  }
}
