/** The splitter as it is written: a reader over chunks, a writer of parts, and the walk. */
module Splitter {
  import opened Bytes
  import opened Varint
  import opened Documents
  import opened Layouts
  import opened Stores
  import opened Reader
  import opened Receiver
  import opened RoundTrips
  import opened Splitting
  import Messages
  import Builder
  import Build
  import Collapse
  import Acceptance
  import Safety

  /** A file being written. */
  class Sink {
    var written: bytes

    constructor ()
      ensures written == []
    {
      written := [];
    }

    method Write(data: bytes)
      modifies this
      ensures written == old(written) + data
    {
      written := written + data;
    }
  }

  /** `_Reader`: a byte stream over chunks that knows its position; the hasher sees every chunk. */
  class ByteReader {
    var chunks: seq<bytes>
    var buffer: bytes
    var offset: nat
    var position: nat
    var absorbed: bytes
    ghost const whole: bytes

    ghost predicate Valid()
      reads this
    {
      && offset <= |buffer| && position <= |whole|
      && whole[position..] == buffer[offset..] + Join(chunks)
      && whole == absorbed + Join(chunks)
    }

    constructor (chunks: seq<bytes>)
      ensures Valid() && fresh(this)
      ensures whole == Join(chunks) && position == 0
    {
      this.chunks, buffer, offset, position, absorbed := chunks, [], 0, 0, [];
      whole := Join(chunks);
    }

    /** `_fill`: the next chunk that has anything in it. */
    method Fill() returns (more: bool)
      requires Valid()
      modifies this`chunks, this`buffer, this`offset, this`absorbed
      ensures Valid()
      ensures if more then offset < |buffer| else chunks == [] && offset == old(offset) && buffer == old(buffer)
    {
      while chunks != []
        invariant Valid() && offset == old(offset) && buffer == old(buffer)
        decreases |chunks|
      {
        var chunk := chunks[0];
        chunks := chunks[1..];
        if chunk == [] {
          continue;
        }
        assert absorbed + (chunk + Join(chunks)) == (absorbed + chunk) + Join(chunks);
        assert buffer[offset..] + (chunk + Join(chunks)) == (buffer[offset..] + chunk) + Join(chunks);
        absorbed := absorbed + chunk;
        buffer := buffer[offset..] + chunk;
        offset := 0;
        return true;
      }
      return false;
    }

    method AtEnd() returns (r: bool)
      requires Valid()
      modifies this`chunks, this`buffer, this`offset, this`absorbed
      ensures Valid()
      ensures r <==> position == |whole|
    {
      if offset < |buffer| {
        return false;
      }
      var more := Fill();
      return !more;
    }

    /** Up to `n` of the bytes at hand, when there are any. */
    method Take(n: nat) returns (r: Option<bytes>)
      requires Valid() && n > 0
      modifies this
      ensures Valid() && old(position) <= position
      ensures r.None? ==> position == old(position) == |whole|
      ensures r.Some? ==> 0 < |r.value| <= n && position == old(position) + |r.value| && r.value == whole[old(position)..position]
    {
      hide Join;
      if offset >= |buffer| {
        var more := Fill();
        if !more {
          EndOfChunks(whole, position, buffer, offset, chunks);
          return None;
        }
      }
      r := TakeBuffered(n);
    }

    method TakeBuffered(n: nat) returns (r: Option<bytes>)
      requires Valid() && n > 0 && offset < |buffer|
      modifies this`offset, this`position
      ensures Valid() && r.Some?
      ensures 0 < |r.value| <= n && position == old(position) + |r.value| && r.value == whole[old(position)..position]
    {
      hide Join;
      var end := if |buffer| - offset < n then |buffer| else offset + n;
      var take := buffer[offset..end];
      TakeSplits(whole, position, buffer, offset, end, Join(chunks));
      offset := end;
      position := position + |take|;
      return Some(take);
    }

    /** `read`: exactly `n` bytes. */
    method ReadBytes(n: nat) returns (r: Result<bytes, SplitError>)
      requires Valid()
      modifies this
      ensures Valid()
      ensures old(position) + n <= |whole| ==>
        position == old(position) + n && r == Ok(whole[old(position)..old(position) + n])
      ensures old(position) + n > |whole| ==> r == Err(EndsInsideField)
    {
      var out: bytes := [];
      while |out| < n
        invariant Valid() && |out| <= n
        invariant position == old(position) + |out| && out == whole[old(position)..position]
      {
        var take := Take(n - |out|);
        match take {
          case None => return Err(EndsInsideField);
          case Some(b) =>
            assert whole[old(position)..position] == out + b;
            out := out + b;
        }
      }
      return Ok(out);
    }

    /** `copy`: `n` bytes to a file, a chunk at a time. */
    method Copy(n: nat, sink: Sink) returns (failed: Option<SplitError>)
      requires Valid()
      modifies this, sink
      ensures Valid()
      ensures old(position) + n <= |whole| ==>
        failed == None && position == old(position) + n
        && sink.written == old(sink.written) + whole[old(position)..old(position) + n]
      ensures old(position) + n > |whole| ==> failed == Some(EndsInsideField)
    {
      var left: nat := n;
      assert sink.written == old(sink.written) + whole[old(position)..position];
      while left > 0
        invariant Valid() && old(position) + n == position + left && old(position) <= position
        invariant sink.written == old(sink.written) + whole[old(position)..position]
        decreases left
      {
        ghost var at := position;
        var take := Take(if left < CHUNK_SIZE then left else CHUNK_SIZE);
        match take {
          case None => return Some(EndsInsideField);
          case Some(b) =>
            assert whole[old(position)..position] == whole[old(position)..at] + b;
            left := left - |b|;
            sink.Write(b);
        }
      }
      return None;
    }

    /** `varint`: its bytes and its value. */
    method ReadVarint() returns (raw: bytes, r: Result<nat, SplitError>)
      requires Valid()
      modifies this
      ensures Valid()
      ensures match ShortVarint(whole[old(position)..], 0)
              case Err(e) => r == Err(e)
              case Ok(v) =>
                && r == Ok(v.value) && position == old(position) + v.width
                && raw == whole[old(position)..position]
    {
      hide ShortVarint;
      raw := [];
      var value: nat, scale: nat, shift := 0, 1, 0;
      ghost var all := ShortVarint(whole[position..], 0);
      while true
        invariant Valid() && shift % 7 == 0 && 0 <= shift <= 63
        invariant position == old(position) + |raw| && raw == whole[old(position)..position]
        invariant match ShortVarint(whole[position..], shift / 7)
                  case Err(e) => all == Err(e)
                  case Ok(v) => all == Ok(Varint.Read(value + scale * v.value, |raw| + v.width))
        decreases |whole| - position
      {
        ghost var at := position;
        ShortStep(whole, at, shift / 7, scale);
        var byteRead := ReadBytes(1);
        match byteRead {
          case Err(e) =>
            return raw, Err(e);
          case Ok(one) =>
            var b := one[0];
            raw := raw + one;
            assert raw == whole[old(position)..position];
            value := value + (b % 128) * scale;
            if b < 128 {
              return raw, Ok(value);
            }
            shift := shift + 7;
            if shift > 63 {
              return raw, Err(VarintTooLong);
            }
            scale := scale * 128;
        }
      }
    }
  }

  /** One more byte of a varint. */
  lemma ShortStep(whole: bytes, at: nat, k: nat, scale: nat)
    requires at <= |whole|
    ensures var here := ShortVarint(whole[at..], k);
      if at == |whole| then here == Err(EndsInsideField)
      else if whole[at] < 128 then here == Ok(Varint.Read(whole[at], 1)) && scale * whole[at] == (whole[at] % 128) * scale
      else if k >= 9 then here == Err(VarintTooLong)
      else
        match ShortVarint(whole[at + 1..], k + 1)
        case Err(e) => here == Err(e)
        case Ok(v) =>
          && here.Ok? && here.value.width == v.width + 1
          && scale * here.value.value == (whole[at] % 128) * scale + (scale * 128) * v.value
  {
    if at < |whole| && whole[at] >= 128 && k < 9 {
      assert whole[at..][1..] == whole[at + 1..];
      var rest := ShortVarint(whole[at + 1..], k + 1);
      if rest.Ok? { Shifted(scale, whole[at] % 128, rest.value.value); }
    }
  }

  lemma EndOfChunks(whole: bytes, position: nat, buffer: bytes, offset: nat, chunks: seq<bytes>)
    requires position <= |whole| && offset == |buffer| && chunks == [] && whole[position..] == buffer[offset..] + Join(chunks)
    ensures position == |whole|
  {
  }

  lemma TakeSplits(whole: bytes, position: nat, buffer: bytes, offset: nat, end: nat, rest: bytes)
    requires position <= |whole| && offset <= end <= |buffer|
    requires whole[position..] == buffer[offset..] + rest
    ensures position + (end - offset) <= |whole|
    ensures buffer[offset..end] == whole[position..position + (end - offset)]
    ensures whole[position + (end - offset)..] == buffer[end..] + rest
  {
    var n := end - offset;
    assert whole[position..][..n] == (buffer[offset..] + rest)[..n] == buffer[offset..end];
    assert whole[position..][n..] == (buffer[offset..] + rest)[n..] == buffer[end..] + rest;
  }

  /** `_Writer`: the entries written so far, and the part that is open. */
  class DirectoryWriter {
    var entries: Directory
    var blocks: nat
    var part: Sink

    ghost function State(): Writer
      reads this, part
    {
      Writer(entries, part.written)
    }

    constructor ()
      ensures State() == EMPTY && blocks == 0 && fresh(part)
    {
      entries, blocks := [], 0;
      part := new Sink();
    }

    method Write(data: bytes)
      modifies part
      ensures State() == Layouts.Write(old(State()), data)
    {
      part.Write(data);
    }

    /** The part is closed, the reference appended, and the next part opened. */
    method Block(id: Id, positions: seq<nat>)
      modifies this
      ensures State() == Cut(old(State()), id, positions) && fresh(part)
      ensures blocks == old(blocks) + 1
    {
      entries := entries + [Part(part.written), Ref(id, positions)];
      blocks := blocks + 1;
      part := new Sink();
    }

    method Finish() returns (es: Directory)
      ensures es == Close(State())
    {
      es := entries + [Part(part.written)];
    }
  }

  /** Whatever became of it, a walk only added files that are what their ids name. */
  ghost predicate Grown(rules: Rules, s: Store, s': Store) {
    Extends(s, s') && forall x | x in s' && x !in s :: s'[x].File? && rules.hash(s'[x].content) == x
  }

  lemma GrownIsSound(env: Environment, rules: Rules, s: Store, s': Store)
    requires Sound(env, s) && Grown(rules, s, s') && env.hash == rules.hash
    ensures Sound(env, s') && SameMeaning(s, s')
  {
    forall x | x in s' ensures Whole(s', x) && env.hash(Expansion(s', x)) == x {
      if x in s {
        ExpansionGrows(s, s', x);
      } else {
        var b := s'[x].content;
        assert [Part(b)][1..] == [];
        assert Unfolds(s', x, Bytes(b, Nil));
        ExpansionIs(s', x, Bytes(b, Nil));
        assert Content(Nil) == [] && b + [] == b;
      }
    }
    forall x | x in s && Whole(s, x) ensures Whole(s', x) && Expansion(s', x) == Expansion(s, x) {
      ExpansionGrows(s, s', x);
    }
  }

  /** `_store_payload`: the next bytes become a block, unless they are one already. */
  method StorePayload(rules: Rules, reader: ByteReader, length: nat, store: Store)
    returns (r: Result<Id, SplitError>, store': Store)
    requires reader.Valid()
    modifies reader
    ensures reader.Valid()
    ensures old(reader.position) + length > |reader.whole| ==> r == Err(EndsInsideField) && store' == store
    ensures old(reader.position) + length <= |reader.whole| ==>
      var payload := reader.whole[old(reader.position)..old(reader.position) + length];
      && r == Ok(rules.hash(payload)) && store' == Publish(store, rules.hash(payload), File(payload))
      && reader.position == old(reader.position) + length
  {
    store' := store;
    var file := new Sink();
    var failed := reader.Copy(length, file);
    if failed.Some? {
      return Err(failed.value), store;
    }
    var payload := reader.whole[old(reader.position)..old(reader.position) + length];
    assert [] + payload == payload;
    var id := rules.hash(file.written);
    if id !in store {
      store' := store[id := File(file.written)];
    }
    return Ok(id), store';
  }

  /** What a walk, or a step of one, has come to. */
  ghost predicate ComesTo(r: Result<Walked, SplitError>, failed: Option<SplitError>, position: nat, writer: Writer,
                          store: Store) {
    match r
    case Err(e) => failed == Some(e)
    case Ok(w) => failed == None && w == Walked(position, writer, store)
  }

  /** `_walk`. */
  method WalkFields(rules: Rules, reader: ByteReader, writer: DirectoryWriter, store: Store, name: Option<string>,
                    end: Option<nat>, chain: seq<nat>)
    returns (failed: Option<SplitError>, store': Store)
    requires reader.Valid()
    modifies reader, writer, writer.part
    ensures reader.Valid() && (writer.part == old(writer.part) || fresh(writer.part))
    ensures ComesTo(WalkMessage(rules, reader.whole, Walked(old(reader.position), old(writer.State()), store), name, end, chain),
                    failed, reader.position, writer.State(), store')
    ensures failed == None && end == None ==> reader.absorbed == reader.whole
    ensures Grown(rules, store, store')
    decreases |reader.whole| - reader.position, 1
  {
    hide WalkMessage, Field;
    store' := store;
    ghost var whole := reader.whole;
    ghost var all := WalkMessage(rules, whole, Walked(reader.position, writer.State(), store), name, end, chain);
    while true
      invariant reader.Valid() && old(reader.position) <= reader.position
      invariant writer.part == old(writer.part) || fresh(writer.part)
      invariant all == WalkMessage(rules, whole, Walked(reader.position, writer.State(), store'), name, end, chain)
      invariant Grown(rules, store, store')
      decreases |whole| - reader.position
    {
      ghost var w := Walked(reader.position, writer.State(), store');
      var goes;
      match end {
        case Some(e) =>
          goes := reader.position < e;
        case None =>
          var over := reader.AtEnd();
          goes := !over;
      }
      WalkUnfolds(rules, whole, w, name, end, chain);
      if !goes {
        if end.Some? && reader.position != end.value {
          return Some(RunsPastEnd), store';
        }
        return None, store';
      }
      failed, store' := WalkField(rules, reader, writer, store', name, chain);
      if failed.Some? {
        return failed, store';
      }
    }
  }

  lemma WalkUnfolds(rules: Rules, whole: bytes, w: Walked, name: Option<string>, end: Option<nat>, chain: seq<nat>)
    requires w.pos <= |whole|
    ensures WalkMessage(rules, whole, w, name, end, chain) ==
      if !Goes(whole, w.pos, end)
      then (if end.Some? && w.pos != end.value then Err(RunsPastEnd) else Ok(w))
      else
        var field := Field(rules, whole, w, name, chain);
        if field.Err? then Err(field.error) else WalkMessage(rules, whole, field.value, name, end, chain)
  {
  }

  /** One turn of the loop of `_walk`. */
  method WalkField(rules: Rules, reader: ByteReader, writer: DirectoryWriter, store: Store, name: Option<string>,
                   chain: seq<nat>)
    returns (failed: Option<SplitError>, store': Store)
    requires reader.Valid()
    modifies reader, writer, writer.part
    ensures reader.Valid() && (writer.part == old(writer.part) || fresh(writer.part))
    ensures ComesTo(Field(rules, reader.whole, Walked(old(reader.position), old(writer.State()), store), name, chain),
                    failed, reader.position, writer.State(), store')
    ensures Grown(rules, store, store')
    decreases |reader.whole| - reader.position, 0
  {
    hide ShortVarint, Delimited, Grown;
    GrownNothing(rules, store);
    ghost var whole, w := reader.whole, Walked(reader.position, writer.State(), store);
    var rawTag, tag := reader.ReadVarint();
    if tag.Err? {
      return Some(tag.error), store;
    }
    writer.Write(rawTag);
    assert Keep(whole, w, reader.position - w.pos) == Walked(reader.position, writer.State(), store);
    var number, wireType := tag.value / 8, tag.value % 8;
    if wireType == 2 {
      failed, store' := WalkDelimited(rules, reader, writer, store, name, number, chain);
    } else {
      failed := WalkScalar(reader, writer, wireType, store);
      store' := store;
    }
  }

  lemma GrownNothing(rules: Rules, s: Store)
    ensures Grown(rules, s, s)
  {
  }

  /** A field that is not length-delimited is copied. */
  method WalkScalar(reader: ByteReader, writer: DirectoryWriter, wireType: nat, ghost store: Store)
    returns (failed: Option<SplitError>)
    requires reader.Valid() && wireType != 2
    modifies reader, writer.part
    ensures reader.Valid() && writer.part == old(writer.part)
    ensures ComesTo(Scalar(reader.whole, Walked(old(reader.position), old(writer.State()), store), wireType),
                    failed, reader.position, writer.State(), store)
  {
    hide ShortVarint;
    if wireType == 0 {
      var raw, v := reader.ReadVarint();
      if v.Err? {
        return Some(v.error);
      }
      writer.Write(raw);
      return None;
    } else if wireType == 1 || wireType == 5 {
      var raw := reader.ReadBytes(if wireType == 1 then 8 else 4);
      match raw {
        case Err(e) => return Some(e);
        case Ok(b) =>
          writer.Write(b);
          return None;
      }
    } else {
      return Some(GroupsNotSupported(wireType));
    }
  }

  /** The length of a length-delimited field, and its payload. */
  method WalkDelimited(rules: Rules, reader: ByteReader, writer: DirectoryWriter, store: Store, name: Option<string>,
                       number: nat, chain: seq<nat>)
    returns (failed: Option<SplitError>, store': Store)
    requires reader.Valid()
    modifies reader, writer, writer.part
    ensures reader.Valid() && (writer.part == old(writer.part) || fresh(writer.part))
    ensures ComesTo(Delimited(rules, reader.whole, Walked(old(reader.position), old(writer.State()), store), name, number, chain),
                    failed, reader.position, writer.State(), store')
    ensures Grown(rules, store, store')
    decreases |reader.whole| - reader.position, 3
  {
    hide ShortVarint, Payload;
    store' := store;
    ghost var whole, w := reader.whole, Walked(reader.position, writer.State(), store);
    var lengthPosition := reader.position;
    var rawLength, length := reader.ReadVarint();
    if length.Err? {
      return Some(length.error), store;
    }
    writer.Write(rawLength);
    assert Keep(whole, w, reader.position - lengthPosition) == Walked(reader.position, writer.State(), store);
    failed, store' := WalkPayload(rules, reader, writer, store, name, number, length.value, chain + [lengthPosition]);
  }

  /** A length-delimited payload: walked, moved to a block, or copied. */
  method WalkPayload(rules: Rules, reader: ByteReader, writer: DirectoryWriter, store: Store, name: Option<string>,
                     number: nat, length: nat, chain: seq<nat>)
    returns (failed: Option<SplitError>, store': Store)
    requires reader.Valid()
    modifies reader, writer, writer.part
    ensures reader.Valid() && (writer.part == old(writer.part) || fresh(writer.part))
    ensures ComesTo(Payload(rules, reader.whole, Walked(old(reader.position), old(writer.State()), store), name, number, length, chain),
                    failed, reader.position, writer.State(), store')
    ensures Grown(rules, store, store')
    decreases |reader.whole| - reader.position, 2
  {
    hide WalkMessage;
    store' := store;
    match FieldKind(rules, name, number) {
      case Some(MessageKind(inner)) =>
        failed, store' := WalkFields(rules, reader, writer, store, Some(inner), Some(reader.position + length), chain);
        return;
      case Some(OtherKind) =>
        if rules.shouldSplit(name.value, number, length) {
          var id;
          id, store' := StorePayload(rules, reader, length, store);
          match id {
            case Err(e) => return Some(e), store';
            case Ok(blockId) =>
              writer.Block(blockId, chain);
              return None, store';
          }
        }
      case None =>
    }
    failed := reader.Copy(length, writer.part);
  }

  /** `direct_content_size`: the bytes outside sub-blocks. */
  function DirectSize(es: Directory): nat {
    if es == [] then 0 else (if es[0].Part? then |es[0].content| else 0) + DirectSize(es[1..])
  }

  /** It is what the parts hold. */
  lemma {:induction false} DirectIsParts(es: Directory)
    ensures DirectSize(es) == |Join(Parts(es))|
  {
    if es != [] {
      DirectIsParts(es[1..]);
      FirstEntry(es);
      var rest := Parts(es[1..]);
      if es[0].Part? { assert ([es[0].content] + rest)[1..] == rest; } else { assert [] + rest == rest; }
    }
  }

  /** The same sum, as `split_block` takes it over the files it wrote. */
  method SumOfParts(es: Directory) returns (size: nat)
    ensures size == DirectSize(es)
  {
    size := 0;
    var i := 0;
    while i < |es|
      invariant 0 <= i <= |es|
      invariant size + DirectSize(es[i..]) == DirectSize(es)
    {
      assert es[i..][1..] == es[i + 1..];
      match es[i] {
        case Part(b) => size := size + |b|;
        case Ref(_, _) =>
      }
      i := i + 1;
    }
  }

  function PieceData(items: seq<Item>): seq<bytes> {
    if items == [] then [] else (if items[0].Piece? then [items[0].data] else []) + PieceData(items[1..])
  }

  lemma {:induction false} PieceDataJoins(items: seq<Item>)
    ensures Join(PieceData(items)) == ItemBytes(items)
  {
    if items != [] {
      PieceDataJoins(items[1..]);
      var rest := PieceData(items[1..]);
      if items[0].Piece? {
        assert ([items[0].data] + rest)[1..] == rest;
      } else {
        assert [] + rest == rest && [] + ItemBytes(items[1..]) == ItemBytes(items[1..]);
      }
    }
  }

  /** The block is a message the rules fit: every length varint in its shortest form. */
  ghost predicate Splittable(env: Environment, rules: Rules, s: Store, id: Id, name: string, d: Doc) {
    && Sound(env, s) && env.hash == rules.hash && Injective(rules.hash) && Whole(s, id)
    && Text(d) == Expansion(s, id) && Fits(rules, name, d)
  }

  lemma {:induction false} FitsHolds(env: Environment, rules: Rules, s: Store, name: string, d: Doc)
    requires Sound(env, s) && env.hash == rules.hash && Injective(rules.hash)
    requires Fits(rules, name, d) && Builder.AllWhole(s, HoleIds(d))
    ensures Holds(d, Contents(s))
    decreases d
  {
    hide Encode, Stays, Whole, Expansion, Sound, Injective;
    match d
    case End =>
    case Raw(_, r) => FitsHolds(env, rules, s, name, r);
    case Hole(_, id, h, _, r) =>
      FitsHolds(env, rules, s, name, r);
      WholeIsStored(s, id);
      SoundNames(env, s, id);
      SameHash(rules.hash, h, Expansion(s, id));
    case Sub(t, i, r) =>
      FitsHolds(env, rules, s, FieldKind(rules, Some(name), t / 8).value.name, i);
      FitsHolds(env, rules, s, name, r);
  }

  lemma SameHash(hash: bytes -> Id, a: bytes, b: bytes)
    requires Injective(hash) && hash(a) == hash(b)
    ensures a == b
  {
  }

  lemma SplitWalks(env: Environment, rules: Rules, s: Store, id: Id, name: string, d: Doc)
    requires Splittable(env, rules, s, id, name, d)
    ensures WalkMessage(rules, Expansion(s, id), Walked(0, EMPTY, s), Some(name), None, []).Ok?
  {
    hide WalkMessage;
    SplitIsBuilt(rules, name, d, s);
  }

  /** What the walk makes of such a block can be written with pointers. */
  lemma SplitCollapses(env: Environment, rules: Rules, s: Store, id: Id, name: string, d: Doc, w: Walked, omitTypes: bool)
    requires Splittable(env, rules, s, id, name, d)
    requires WalkMessage(rules, Expansion(s, id), Walked(0, EMPTY, s), Some(name), None, []) == Ok(w)
    ensures Close(w.writer) == DirectoryOf(d)
    ensures Collapse.Collapsible(env, w.store, Close(w.writer), omitTypes, Acceptance.Repointed(env, omitTypes, d))
  {
    hide WalkMessage, Injective, Fits, Sound, Whole, Expansion, Lay, Holds;
    SplitIsBuilt(rules, name, d, s);
    SplitPreserves(env, rules, Expansion(s, id), s, Some(name));
    Acceptance.HolesAreReferenced(d, w.store);
    FitsHolds(env, rules, w.store, name, d);
    Acceptance.RepointedText(env, omitTypes, d, Contents(w.store));
    Acceptance.RepointedLays(env, omitTypes, d, [], 0, EMPTY, Contents(w.store));
  }

  /**
    What is to come of a block whose bytes are `b`: the format first, then the id, then the
    limit, then the pointer form, for want of which alone there are two answers.
    */
  ghost predicate Judged(rules: Rules, s: Store, id: Id, name: string, limit: nat, b: bytes,
                         r: Result<bool, SplitError>, s': Store) {
    var walk := WalkMessage(rules, b, Walked(0, EMPTY, s), Some(name), None, []);
    if walk.Err? then r == Err(walk.error)
    else
      var es := Close(walk.value.writer);
      if rules.hash(b) != id then r == Err(NotItsId(id))
      else if |Join(Parts(es))| > limit then r == Err(StillTooLarge(|Join(Parts(es))|))
      else r == Err(SplitError.NoPointerForm) || (r == Ok(true) && s' == walk.value.store[id := Dir(es)])
  }

  /** The block's bytes, once read, are walked, checked, and written with pointers. */
  method RewriteBlock(env: Environment, rules: Rules, s: Store, id: Id, name: string, limit: nat, pieces: seq<bytes>,
                      inherited: Option<seq<bytes>>, ghost d: Doc)
    returns (r: Result<bool, SplitError>, s': Store, pointerForm: Option<bytes>)
    requires env.hash == rules.hash
    ensures Judged(rules, s, id, name, limit, Join(pieces), r, s')
    ensures r.Ok? ==> r.value && pointerForm.Some?
    ensures r.Err? ==> Grown(rules, s, s')
    ensures r.Ok? ==> exists store :: Grown(rules, s, store) && s' == store[id := s'[id]] && id in s'
    ensures Splittable(env, rules, s, id, name, d) && Join(pieces) == Expansion(s, id) ==>
      && r != Err(SplitError.NoPointerForm)
      && (r.Ok? ==> pointerForm == Some(Text(Flip(Acceptance.Repointed(env, inherited.Some?, d)))))
  {
    hide WalkMessage, Sound, Injective, Splittable, DirectoryOf, Text, Flip, Lay, DirectSize, Grown, Join, Parts,
        Collapse.Collapsible, Acceptance.Repointed;
    var reader := new ByteReader(pieces);
    var writer := new DirectoryWriter();
    var failed, store := WalkFields(rules, reader, writer, s, Some(name), None, []);
    ghost var good := Splittable(env, rules, s, id, name, d) && Join(pieces) == Expansion(s, id);
    if good { SplitWalks(env, rules, s, id, name, d); }
    if failed.Some? {
      return Err(failed.value), store, None;
    }
    var es := writer.Finish();
    ghost var w := Walked(reader.position, writer.State(), store);
    if rules.hash(reader.absorbed) != id {
      return Err(NotItsId(id)), store, None;
    }
    var remaining := SumOfParts(es);
    DirectIsParts(es);
    if remaining > limit {
      return Err(StillTooLarge(remaining)), store, None;
    }
    if good { SplitCollapses(env, rules, s, id, name, d, w, inherited.Some?); }
    var written := Collapse.GenerateWbpFile(env, store, es, inherited, Acceptance.Repointed(env, inherited.Some?, d));
    if written.Err? {
      return Err(SplitError.NoPointerForm), store, None;
    }
    s' := store[id := Dir(es)];
    assert s' == store[id := s'[id]];
    return Ok(true), s', Some(written.value);
  }

  /**
    `split_block`. Whatever comes of it, no expansion in the store changes; a block over the
    limit is exchanged for a directory within it, or left as it was, and exchanged only if
    its bytes hash to its id. A block in which every length varint is in its shortest form
    is split exactly when that brings it within the limit, and the pointer form written is
    the block with the library's pointers for what was moved out.
    */
  method SplitBlock(env: Environment, rules: Rules, s: Store, id: Id, name: string, limit: nat,
                    inherited: Option<seq<bytes>>, ghost d: Doc)
    returns (r: Result<bool, SplitError>, s': Store, pointerForm: Option<bytes>)
    requires env.hash == rules.hash
    ensures Sound(env, s) && Injective(rules.hash) ==> SameMeaning(s, s') && Sound(env, s')
    ensures r == Ok(false) ==> s' == s && id in s && DirectSize(EntriesOf(s[id])) <= limit
    ensures r == Ok(true) ==>
      && id in s && DirectSize(EntriesOf(s[id])) > limit
      && id in s' && s'[id].Dir? && DirectSize(s'[id].entries) <= limit
    ensures forall x <- s | x != id || r != Ok(true) :: x in s' && s'[x] == s[x]
    ensures id !in s ==> r == Err(Unreadable(NotFound(id)))
    ensures id in s && DirectSize(EntriesOf(s[id])) > limit ==>
      var read := ReadBlock(env, s, id, true, 1, {});
      if read.Err? then r == Err(Unreadable(read.error))
      else Judged(rules, s, id, name, limit, ItemBytes(read.value), r, s')
    ensures Splittable(env, rules, s, id, name, d) ==>
      var before, after := DirectSize(EntriesOf(s[id])), DirectSize(DirectoryOf(d));
      && (r == Ok(false) <==> before <= limit)
      && (r == Ok(true) <==> before > limit && after <= limit)
      && (before > limit && after > limit ==> r == Err(StillTooLarge(after)))
      && (r == Ok(true) ==>
            && s'[id] == Dir(DirectoryOf(d))
            && pointerForm == Some(Text(Flip(Acceptance.Repointed(env, inherited.Some?, d)))))
  {
    hide WalkMessage, Sound, Injective, SameMeaning, ReadBlock, DirectSize, Splittable, DirectoryOf, Text, Flip, Judged,
        Acceptance.Repointed, Join, Grown;
    if Splittable(env, rules, s, id, name, d) { SplittableReads(env, rules, s, id, name, d); }
    if Sound(env, s) { NothingSplit(env, rules, s); }
    if id !in s {
      return Err(Unreadable(NotFound(id))), s, None;
    }
    var size := SumOfParts(EntriesOf(s[id]));
    if size <= limit {
      return Ok(false), s, None;
    }
    var read := ReadBlock(env, s, id, true, 1, {});
    if read.Err? {
      return Err(Unreadable(read.error)), s, None;
    }
    StreamedIsMeasured(env, s, id, true, 1);
    PieceDataJoins(read.value);
    r, s', pointerForm := RewriteBlock(env, rules, s, id, name, limit, PieceData(read.value), inherited, d);
    JudgedMeans(env, rules, s, id, name, limit, ItemBytes(read.value), r, s');
    if Splittable(env, rules, s, id, name, d) { JudgedSplits(env, rules, s, id, name, limit, d, r, s'); }
  }

  lemma NothingSplit(env: Environment, rules: Rules, s: Store)
    requires Sound(env, s) && env.hash == rules.hash
    ensures SameMeaning(s, s)
  {
    GrownIsSound(env, rules, s, s);
  }

  /** A splittable block is there, and its bytes are read. */
  lemma SplittableReads(env: Environment, rules: Rules, s: Store, id: Id, name: string, d: Doc)
    requires Splittable(env, rules, s, id, name, d)
    ensures id in s && ReadBlock(env, s, id, true, 1, {}).Ok?
    ensures ItemBytes(ReadBlock(env, s, id, true, 1, {}).value) == Expansion(s, id)
  {
    hide ReadBlock, ItemBytes;
    WholeIsStored(s, id);
    Safety.HeldIsReadable(env, s, id);
  }

  /** Any outcome: what it does to the store. */
  lemma JudgedMeans(env: Environment, rules: Rules, s: Store, id: Id, name: string, limit: nat, b: bytes,
                    r: Result<bool, SplitError>, s': Store)
    requires env.hash == rules.hash && id in s && b == Expansion(s, id) && Judged(rules, s, id, name, limit, b, r, s')
    requires r.Err? ==> Grown(rules, s, s')
    requires r.Ok? ==> r.value && exists store :: Grown(rules, s, store) && s' == store[id := s'[id]] && id in s'
    ensures Sound(env, s) && Injective(rules.hash) ==> SameMeaning(s, s') && Sound(env, s')
    ensures r.Ok? ==> id in s' && s'[id].Dir? && DirectSize(s'[id].entries) <= limit
    ensures forall x <- s | x != id || r != Ok(true) :: x in s' && s'[x] == s[x]
  {
    hide WalkMessage, Sound, Injective, SameMeaning, DirectSize, Join, Parts;
    var walk := WalkMessage(rules, b, Walked(0, EMPTY, s), Some(name), None, []);
    if r.Ok? {
      DirectIsParts(Close(walk.value.writer));
      if Sound(env, s) && Injective(rules.hash) { SplitKeepsMeaning(env, rules, s, id, Some(name), walk.value); }
    } else {
      if Sound(env, s) { GrownIsSound(env, rules, s, s'); }
    }
  }

  /** On a splittable block there is one outcome. */
  lemma JudgedSplits(env: Environment, rules: Rules, s: Store, id: Id, name: string, limit: nat, d: Doc,
                     r: Result<bool, SplitError>, s': Store)
    requires Splittable(env, rules, s, id, name, d) && id in s
    requires Judged(rules, s, id, name, limit, Expansion(s, id), r, s') && r != Err(SplitError.NoPointerForm)
    ensures var after := DirectSize(DirectoryOf(d));
      if after <= limit then r == Ok(true) && id in s' && s'[id] == Dir(DirectoryOf(d)) else r == Err(StillTooLarge(after))
  {
    hide WalkMessage, Sound, Injective, DirectSize, Join, Parts, Fits, Lay;
    SplitWalks(env, rules, s, id, name, d);
    SplitIsBuilt(rules, name, d, s);
    SoundNames(env, s, id);
    DirectIsParts(DirectoryOf(d));
  }

  /**
    The splitter refines the builder: the expansion of a built object, walked with a policy
    that moves out exactly the fields that were pointers, gives the builder's directory.
    */
  lemma SplitterRefinesBuilder(env: Environment, s: Store, m: Messages.Message, blocks: seq<Id>, inherited: seq<bytes>,
                               rules: Rules, name: string)
    requires var e := Build.Expanded(env, s, m, blocks, inherited);
      Builder.AllWhole(s, HoleIds(e)) && Fits(rules, name, e)
    ensures var built := DirectoryOf(Build.Expanded(env, s, m, blocks, inherited));
      var r := WalkMessage(rules, Fill(built, Contents(s)), Walked(0, EMPTY, s), Some(name), None, []);
      r.Ok? && Close(r.value.writer) == built
  {
    hide WalkMessage;
    Build.BuiltExpands(env, s, m, blocks, inherited);
    SplitIsBuilt(rules, name, Build.Expanded(env, s, m, blocks, inherited), s);
  }
}
